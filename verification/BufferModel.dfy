/** The stream buffer as a value, and each locked operation of src/pipeline/StreamBuffer.cpp as a
    function (or, where hash-map order decides, a relation) on that value. */
module BufferModel {
  import opened Common
  import opened StreamTypes

  const MATCH_WINDOW_PTS: int := 90000 * 100 / 1000

  datatype Buffer = Buffer(
    packets: seq<Packet>,
    frames: map<int, Frame>,
    order: seq<int>,
    cache: map<int, InferenceResult>,
    videoCount: nat,
    stopped: bool)

  const EMPTY := Buffer([], map[], [], map[], 0, false)

  /** Ids of the video packets, front first. */
  function VideoIds(ps: seq<Packet>): (ids: seq<int>)
    ensures |ids| <= |ps|
  {
    if ps == [] then []
    else VideoIds(ps[..|ps| - 1]) + (if ps[|ps| - 1].media == Video then [ps[|ps| - 1].frameId] else [])
  }

  /** What holds of a buffer after any calls in any order: the arrival order lists exactly the stored
      frames, the counter counts the queued video packets, keys are the ids they store. */
  ghost predicate Coherent(b: Buffer) {
    && (forall k :: k in b.frames <==> k in b.order)
    && (forall k :: k in b.frames ==> b.frames[k].frameId == k)
    && (forall k :: k in b.cache ==> b.cache[k].frameId == k && 0 <= k)
    && b.videoCount == |VideoIds(b.packets)|
  }

  function EnqueuePacket(b: Buffer, p: Packet): Buffer {
    if b.stopped then b
    else b.(packets := b.packets + [p], videoCount := b.videoCount + (if p.media == Video then 1 else 0))
  }

  function EnqueueFrame(b: Buffer, f: Frame): Buffer {
    if b.stopped then b else b.(frames := b.frames[f.frameId := f], order := b.order + [f.frameId])
  }

  predicate Candidate(frames: map<int, Frame>, id: int) {
    id in frames && frames[id].decoded && frames[id].state == Idle
  }

  /** The newest decoded Idle frame. */
  function LastCandidate(frames: map<int, Frame>, order: seq<int>): (r: Option<int>)
    ensures r.Some? ==> r.value in order && Candidate(frames, r.value)
    ensures r.None? ==> forall k :: k in order ==> !Candidate(frames, k)
  {
    if order == [] then None
    else if Candidate(frames, order[|order| - 1]) then Some(order[|order| - 1])
    else
      assert forall k :: k in order ==> k in order[..|order| - 1] || k == order[|order| - 1];
      LastCandidate(frames, order[..|order| - 1])
  }

  lemma {:induction false} LastCandidateIsNewest(frames: map<int, Frame>, order: seq<int>, k: int)
    requires StrictlyIncreasing(order) && k in order && Candidate(frames, k)
    ensures LastCandidate(frames, order).Some? && k <= LastCandidate(frames, order).value
  {
    var last := |order| - 1;
    if !Candidate(frames, order[last]) {
      assert order == order[..last] + [order[last]];
      LastCandidateIsNewest(frames, order[..last], k);
    }
  }

  function Superseded(s: InferState): InferState { if IsTerminal(s) then s else Done }

  function Mark(frames: map<int, Frame>, id: int): map<int, Frame> {
    map k | k in frames :: frames[k].(state := if k == id then Selected else Superseded(frames[k].state))
  }

  function Select(b: Buffer): (Buffer, Option<int>) {
    match LastCandidate(b.frames, b.order)
    case None => (b, None)
    case Some(id) => (b.(frames := Mark(b.frames, id)), Some(id))
  }

  function SetState(b: Buffer, id: int, s: InferState): Buffer {
    if id in b.frames then b.(frames := b.frames[id := b.frames[id].(state := s)]) else b
  }

  function PopPacket(b: Buffer): Buffer {
    if b.packets == [] then b
    else b.(packets := b.packets[1..],
            videoCount := if b.packets[0].media == Video && b.videoCount > 0 then b.videoCount - 1 else b.videoCount)
  }

  function ReleaseFrame(b: Buffer, id: int): Buffer {
    b.(frames := b.frames - {id}, order := Without(b.order, id), cache := b.cache - {id})
  }

  function StoreResult(b: Buffer, r: InferenceResult): Buffer {
    if r.frameId < 0 then b else b.(cache := b.cache[r.frameId := r])
  }

  // The publish gate

  predicate InferringAt(frames: map<int, Frame>, id: int) {
    id in frames && frames[id].decoded && IsInferring(frames[id].state)
  }

  /** id is inferring, and nothing before it in arrival order is. */
  predicate FirstInferring(frames: map<int, Frame>, order: seq<int>, id: int) {
    InferringAt(frames, id) && exists i ::
      0 <= i < |order| && order[i] == id && forall j :: 0 <= j < i ==> !InferringAt(frames, order[j])
  }

  /** The oldest decoded frame that is Selected or Running. */
  function InferringId(frames: map<int, Frame>, order: seq<int>): (r: Option<int>)
    ensures r.Some? ==> r.value in order && FirstInferring(frames, order, r.value)
    ensures r.None? ==> forall k :: k in order ==> !InferringAt(frames, k)
  {
    if order == [] then None
    else if InferringAt(frames, order[0]) then Some(order[0])
    else
      assert forall k :: k in order ==> k in order[1..] || k == order[0];
      assert forall i :: 0 <= i < |order| - 1 ==> order[1..][i] == order[i + 1];
      InferringId(frames, order[1..])
  }

  predicate HasDecoded(frames: map<int, Frame>, excluded: Option<int>) {
    exists k :: k in frames && excluded != Some(k) && frames[k].decoded
  }

  predicate CanPublish(b: Buffer, watermark: nat) {
    && b.packets != []
    && (|| watermark == 0
        || b.videoCount == 0
        || b.packets[0].media == Audio
        || (var id := b.packets[0].frameId;
            var inferring := InferringId(b.frames, b.order);
            && (inferring.Some? ==> 0 <= id < inferring.value)
            && (0 <= id ==> id in b.frames && (b.frames[id].decoded ==> HasDecoded(b.frames, Some(id))))
            && b.videoCount > watermark))
  }

  // The inference-result cache

  function Live(cache: map<int, InferenceResult>, now: int): map<int, InferenceResult> {
    map k | k in cache && cache[k].expireAt >= now :: cache[k]
  }

  function PtsDistance(a: int, b: int): nat { if a >= b then a - b else b - a }

  predicate PtsMatch(r: InferenceResult, pts: int) {
    0 <= pts && 0 <= r.pts && PtsDistance(r.pts, pts) <= MATCH_WINDOW_PTS
  }

  predicate IsNearest(cache: map<int, InferenceResult>, id: int, pts: int) {
    && id in cache && PtsMatch(cache[id], pts)
    && forall k :: k in cache && PtsMatch(cache[k], pts) ==> PtsDistance(cache[id].pts, pts) <= PtsDistance(cache[k].pts, pts)
  }

  /** What takeCachedInferenceResult may do: an unexpired result at minimal pts distance within the
      window if there is one, else the unexpired result of that very id, else nothing. */
  ghost predicate TakeResult(b: Buffer, frameId: int, pts: int, now: int, b': Buffer, r: Option<InferenceResult>) {
    var live := Live(b.cache, now);
    var matched := exists k :: k in live && PtsMatch(live[k], pts);
    match r
    case None =>
      b' == b.(cache := live) && !matched && !(0 <= frameId && frameId in live)
    case Some(x) =>
      && x.frameId in live && live[x.frameId] == x
      && b' == b.(cache := live - {x.frameId})
      && (if matched
          then PtsMatch(x, pts) && forall k :: k in live && PtsMatch(live[k], pts) ==>
                                     PtsDistance(x.pts, pts) <= PtsDistance(live[k].pts, pts)
          else 0 <= frameId && x.frameId == frameId)
  }

  // Facts used by the class and by the pipeline

  lemma {:induction false} VideoIdsAppend(a: seq<Packet>, b: seq<Packet>)
    ensures VideoIds(a + b) == VideoIds(a) + VideoIds(b)
  {
    if b == [] {
      assert a + b == a;
    } else {
      assert (a + b)[..|a + b| - 1] == a + b[..|b| - 1];
      VideoIdsAppend(a, b[..|b| - 1]);
    }
  }

  lemma {:induction false} VideoIdsFront(ps: seq<Packet>)
    requires ps != []
    ensures VideoIds(ps) == (if ps[0].media == Video then [ps[0].frameId] else []) + VideoIds(ps[1..])
  {
    assert ps == [ps[0]] + ps[1..];
    VideoIdsAppend([ps[0]], ps[1..]);
    assert VideoIds([ps[0]]) == if ps[0].media == Video then [ps[0].frameId] else [];
  }

  /** Popping never finds the counter at zero under a video packet: the guard in popPacket is never needed. */
  lemma PopCounts(b: Buffer)
    requires Coherent(b) && b.packets != []
    ensures b.packets[0].media == Video ==> b.videoCount > 0
    ensures VideoIds(PopPacket(b).packets) == VideoIds(b.packets)[if b.packets[0].media == Video then 1 else 0..]
  {
    VideoIdsFront(b.packets);
  }

  datatype Op =
    | OpEnqueuePacket(packet: Packet)
    | OpEnqueueFrame(frame: Frame)
    | OpSelect
    | OpSetState(id: int, state: InferState)
    | OpPop
    | OpRelease(id: int)
    | OpStore(result: InferenceResult)
    | OpTake(id: int, pts: int, now: int)
    | OpStop

  ghost predicate OpStep(b: Buffer, op: Op, b': Buffer) {
    match op
    case OpEnqueuePacket(p) => b' == EnqueuePacket(b, p)
    case OpEnqueueFrame(f) => b' == EnqueueFrame(b, f)
    case OpSelect => b' == Select(b).0
    case OpSetState(id, s) => b' == SetState(b, id, s)
    case OpPop => b' == PopPacket(b)
    case OpRelease(id) => b' == ReleaseFrame(b, id)
    case OpStore(r) => b' == StoreResult(b, r)
    case OpTake(id, pts, now) => exists r :: TakeResult(b, id, pts, now, b', r)
    case OpStop => b' == b.(stopped := true)
  }

  lemma EnqueueKeepsCoherent(b: Buffer, f: Frame)
    requires Coherent(b)
    ensures Coherent(EnqueueFrame(b, f))
  {
    assert forall k :: k in EnqueueFrame(b, f).order <==> k in b.order || (k == f.frameId && !b.stopped);
  }

  lemma PopKeepsCoherent(b: Buffer)
    requires Coherent(b)
    ensures Coherent(PopPacket(b))
  {
    if b.packets != [] {
      PopCounts(b);
    }
  }

  lemma ReleaseKeepsCoherent(b: Buffer, id: int)
    requires Coherent(b)
    ensures Coherent(ReleaseFrame(b, id))
  {
  }

  /** Every operation, called in any order with any arguments, keeps the buffer coherent: no orphan
      ids, no orphan frames, no drift of the video counter. */
  lemma OperationsKeepCoherent(b: Buffer, op: Op, b': Buffer)
    requires Coherent(b) && OpStep(b, op, b')
    ensures Coherent(b')
  {
    match op
    case OpEnqueuePacket(p) =>
      VideoIdsAppend(b.packets, [p]);
      assert VideoIds([p]) == if p.media == Video then [p.frameId] else [];
    case OpEnqueueFrame(f) => EnqueueKeepsCoherent(b, f);
    case OpPop => PopKeepsCoherent(b);
    case OpRelease(id) => ReleaseKeepsCoherent(b, id);
    case _ =>
  }

  // ---------------------------------------------------------------------------------------------
  // What the operations mean, one field at a time
  // ---------------------------------------------------------------------------------------------

  /** Packets and frames go to the end as they are given; a stopped buffer takes nothing. */
  lemma EnqueueAppends(b: Buffer, p: Packet, f: Frame)
    ensures b.stopped ==> EnqueuePacket(b, p) == b && EnqueueFrame(b, f) == b
    ensures !b.stopped ==> EnqueuePacket(b, p).packets == b.packets + [p]
    ensures !b.stopped ==> EnqueueFrame(b, f).order == b.order + [f.frameId]
    ensures var frames := EnqueueFrame(b, f).frames;
      !b.stopped ==> f.frameId in frames && frames[f.frameId] == f
                     && forall k :: k != f.frameId ==> (k in frames <==> k in b.frames) && (k in frames ==> frames[k] == b.frames[k])
  {
  }

  /** Selecting sets the newest decoded Idle frame to Selected and every other frame to Done, unless it is Done
      or Dropped already; nothing else of the frames changes, nor anything else of the buffer. */
  lemma SelectMeans(b: Buffer, id: int)
    requires Coherent(b) && StrictlyIncreasing(b.order) && Select(b).1 == Some(id)
    ensures id in b.frames && b.frames[id].decoded && b.frames[id].state == Idle
    ensures forall k :: k in b.frames && b.frames[k].decoded && b.frames[k].state == Idle ==> k <= id
    ensures var after := Select(b).0;
      && after == b.(frames := after.frames) && after.frames.Keys == b.frames.Keys
      && after.frames[id] == b.frames[id].(state := Selected)
      && forall k :: k in b.frames && k != id ==>
           after.frames[k] == (if b.frames[k].state == Dropped then b.frames[k] else b.frames[k].(state := Done))
  {
    forall k | k in b.frames && b.frames[k].decoded && b.frames[k].state == Idle ensures k <= id {
      LastCandidateIsNewest(b.frames, b.order, k);
    }
  }

  /** Nothing is selected exactly when no decoded frame is Idle, and then nothing changes. */
  lemma NothingToSelectIff(b: Buffer)
    requires Coherent(b)
    ensures Select(b).1.None? <==> forall k :: k in b.frames && b.frames[k].decoded ==> b.frames[k].state != Idle
    ensures Select(b).1.None? ==> Select(b).0 == b
  {
  }

  /** Setting a state sets that state of that frame, if it is there, and nothing else. */
  lemma SetStateMeans(b: Buffer, id: int, s: InferState)
    ensures var after := SetState(b, id, s);
      && after == b.(frames := after.frames) && after.frames.Keys == b.frames.Keys
      && (id in b.frames ==> after.frames[id] == b.frames[id].(state := s))
      && forall k :: k in b.frames && k != id ==> after.frames[k] == b.frames[k]
  {
  }

  /** A release takes one id out of frames, order and cache, and nothing else out of any of them. */
  lemma ReleaseForgetsOne(b: Buffer, id: int)
    ensures var after := ReleaseFrame(b, id);
      && id !in after.frames && id !in after.order && id !in after.cache
      && after == b.(frames := after.frames, order := after.order, cache := after.cache)
      && forall k :: k != id ==>
           && (k in after.frames <==> k in b.frames) && (k in b.frames ==> after.frames[k] == b.frames[k])
           && (k in after.cache <==> k in b.cache) && (k in b.cache ==> after.cache[k] == b.cache[k])
           && (k in after.order <==> k in b.order)
  {
  }

  lemma {:induction false} WithoutJoins(s: seq<int>, t: seq<int>, x: int)
    ensures Without(s + t, x) == Without(s, x) + Without(t, x)
    decreases |t|
  {
    if t == [] {
      assert s + t == s;
    } else {
      assert (s + t)[..|s + t| - 1] == s + t[..|t| - 1];
      WithoutJoins(s, t[..|t| - 1], x);
    }
  }

  /** The order of the other frames stays: releasing the first of two pieces leaves the pieces in place. */
  lemma ReleaseKeepsOrder(b: Buffer, older: seq<int>, id: int, newer: seq<int>)
    requires b.order == older + [id] + newer && id !in older && id !in newer
    ensures ReleaseFrame(b, id).order == older + newer
  {
    WithoutJoins(older + [id], newer, id);
    WithoutJoins(older, [id], id);
    WithoutNobody(older, id);
    WithoutNobody(newer, id);
    assert [id][..0] == [] && Without([id], id) == [];
  }

  lemma {:induction false} WithoutNobody(s: seq<int>, x: int)
    requires x !in s
    ensures Without(s, x) == s
  {
    if s != [] {
      assert s == s[..|s| - 1] + [s[|s| - 1]] && s[|s| - 1] != x;
      WithoutNobody(s[..|s| - 1], x);
    }
  }

  /** Audio is never held back, and neither is anything when no watermark is asked for. */
  lemma GatePassesAudio(b: Buffer, watermark: nat)
    requires b.packets != [] && (b.packets[0].media == Audio || watermark == 0)
    ensures CanPublish(b, watermark)
  {
  }

  predicate IsUnderInference(frames: map<int, Frame>, k: int) {
    k in frames && frames[k].decoded && (frames[k].state == Selected || frames[k].state == Running)
  }

  lemma InferringIdBounds(b: Buffer, id: int)
    requires Coherent(b) && StrictlyIncreasing(b.order)
    ensures (InferringId(b.frames, b.order).Some? ==> id < InferringId(b.frames, b.order).value)
      <==> forall k :: IsUnderInference(b.frames, k) ==> id < k
  {
    var first := InferringId(b.frames, b.order);
    if first.Some? {
      assert IsUnderInference(b.frames, first.value);
      forall k | IsUnderInference(b.frames, k) ensures first.value <= k {
        assert k in b.order;
      }
    }
  }

  /** A video packet at the front passes exactly when its frame is buffered, every frame under inference is newer,
      another decoded frame would stay if its own is decoded, and more video packets are queued than the watermark. */
  lemma GatePassesVideoIff(b: Buffer, watermark: nat)
    requires Coherent(b) && StrictlyIncreasing(b.order) && watermark > 0
    requires b.packets != [] && b.packets[0].media == Video && b.packets[0].frameId >= 0
    ensures var id := b.packets[0].frameId;
      CanPublish(b, watermark) <==>
        && id in b.frames
        && (forall k :: IsUnderInference(b.frames, k) ==> id < k)
        && (b.frames[id].decoded ==> exists k :: k in b.frames && k != id && b.frames[k].decoded)
        && |VideoIds(b.packets)| > watermark
  {
    InferringIdBounds(b, b.packets[0].frameId);
    VideoIdsFront(b.packets);
  }

  /** The results within 100 ms at 90 kHz of a timestamp, and not expired. */
  predicate IsNear(cache: map<int, InferenceResult>, k: int, pts: int, now: int) {
    k in cache && now <= cache[k].expireAt && 0 <= cache[k].pts && 0 <= pts && -9000 <= cache[k].pts - pts <= 9000
  }

  lemma NearIsMatched(b: Buffer, pts: int, now: int, k: int)
    ensures IsNear(b.cache, k, pts, now) <==> k in Live(b.cache, now) && PtsMatch(Live(b.cache, now)[k], pts)
  {
  }

  /** A take hands out a cached result that is not expired: one of the near ones that is nearest, if there are any,
      else the one of that id, if it is there. It stays in the cache no longer, and of the others exactly the
      expired go. */
  lemma TakeMeans(b: Buffer, frameId: int, pts: int, now: int, b': Buffer, r: Option<InferenceResult>)
    requires TakeResult(b, frameId, pts, now, b', r)
    ensures r.Some? ==> exists k :: k in b.cache && b.cache[k] == r.value && now <= r.value.expireAt
    ensures (exists k :: IsNear(b.cache, k, pts, now)) ==>
      r.Some? && forall k :: IsNear(b.cache, k, pts, now) ==>
                   Max(r.value.pts - pts, pts - r.value.pts) <= Max(b.cache[k].pts - pts, pts - b.cache[k].pts)
    ensures !(exists k :: IsNear(b.cache, k, pts, now)) ==>
      r == if 0 <= frameId && frameId in b.cache && now <= b.cache[frameId].expireAt then Some(b.cache[frameId]) else None
    ensures b' == b.(cache := b'.cache)
    ensures forall k :: k in b'.cache <==>
      k in b.cache && now <= b.cache[k].expireAt && (r.Some? ==> k != r.value.frameId)
    ensures forall k :: k in b'.cache ==> b'.cache[k] == b.cache[k]
  {
    forall k ensures IsNear(b.cache, k, pts, now) <==> k in Live(b.cache, now) && PtsMatch(Live(b.cache, now)[k], pts) {
      NearIsMatched(b, pts, now, k);
    }
  }

  /** What is stored can be had back: a take at its timestamp before it expires yields a result with that timestamp,
      this one unless another has the same. A result of no frame is not stored. */
  lemma StoredIsTaken(b: Buffer, r: InferenceResult, now: int, b': Buffer, out: Option<InferenceResult>)
    requires 0 <= r.frameId && 0 <= r.pts && now <= r.expireAt
    requires TakeResult(StoreResult(b, r), r.frameId, r.pts, now, b', out)
    ensures out.Some? && out.value.pts == r.pts
    ensures (forall k :: k in b.cache && k != r.frameId && now <= b.cache[k].expireAt ==> b.cache[k].pts != r.pts) ==> out == Some(r)
  {
    var stored := StoreResult(b, r);
    TakeMeans(stored, r.frameId, r.pts, now, b', out);
    assert IsNear(stored.cache, r.frameId, r.pts, now);
    var k :| k in stored.cache && stored.cache[k] == out.value;
  }

  lemma StoringKeepsOthers(b: Buffer, r: InferenceResult)
    ensures r.frameId < 0 ==> StoreResult(b, r) == b
    ensures 0 <= r.frameId ==> r.frameId in StoreResult(b, r).cache && StoreResult(b, r).cache[r.frameId] == r
    ensures StoreResult(b, r) == b.(cache := StoreResult(b, r).cache)
    ensures forall k :: k != r.frameId ==>
      (k in StoreResult(b, r).cache <==> k in b.cache) && (k in b.cache ==> StoreResult(b, r).cache[k] == b.cache[k])
  {
  }
}
