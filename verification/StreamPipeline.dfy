/** One stream's threads over one buffer: the RTSP puller, the inference task the scheduler has out
    (at most one; see WorkerPool), and the publisher. A step is one section under the buffer's mutex,
    or one private action of a thread; steps of different threads interleave freely. */
module StreamPipeline {
  import opened Common
  import opened StreamTypes
  import opened BufferModel
  import opened PullerModel

  const MIN_VIDEO_WATERMARK: nat := 1

  datatype Puller = Puller(nextId: nat, pending: seq<PendingMeta>, outbox: seq<Frame>, stopped: bool)

  /** Where a worker stands with its task (inferLoop). */
  datatype Task =
    | Acquired(f: int)
    | Marked(f: int)
    | Detected(f: int, result: InferenceResult)
    | DoneMarked(f: int, result: InferenceResult)
    | Finishing(f: int)

  /** Where the publisher stands in one round of publishLoop. */
  datatype Publisher =
    | Waiting
    | GatePassed
    | Holding(p: Packet)
    | Located(p: Packet)
    | Taken(p: Packet)
    | Popped(p: Packet)

  /** What happened so far, kept only to state properties of whole runs. */
  datatype History = History(
    enqueued: seq<Packet>,
    published: seq<Packet>,
    released: seq<int>,
    lost: set<int>,
    selected: seq<int>,
    taken: seq<(InferenceResult, int)>)

  datatype Pipe = Pipe(buf: Buffer, puller: Puller, task: Option<Task>, pub: Publisher, h: History)

  const START := Pipe(EMPTY, Puller(0, [], [], false), None, Waiting, History([], [], [], {}, [], []))

  datatype Step =
    | PullVideo(pts: int, dts: int, body: int)
    | PullAudio(pts: int, body: int)
    | Decode(d: Decoded)
    | Deliver
    | CloseConnection
    | StopPuller
    | StopBuffer
    | Acquire
    | MarkRunning
    | Drop
    | Detect(result: InferenceResult)
    | MarkDone
    | StoreCached
    | Complete
    | PassGate
    | Peek
    | Locate
    | Take(now: int, found: Option<InferenceResult>)
    | Pop
    | Release

  function AfterPull(q: Puller, pts: int, dts: int): Puller {
    q.(nextId := q.nextId + 1, pending := q.pending + [PendingMeta(q.nextId, pts, dts)])
  }

  /** The history with the result one take handed out. */
  function Record(h: History, found: Option<InferenceResult>, now: int): History {
    h.(taken := h.taken + (match found case None => [] case Some(x) => [(x, now)]))
  }

  function AfterTake(b: Buffer, now: int, found: Option<InferenceResult>): Buffer {
    b.(cache := match found case None => Live(b.cache, now) case Some(x) => Live(b.cache, now) - {x.frameId})
  }

  /** When a thread may take a step: it has reached that point of its loop. */
  ghost predicate Enabled(s: Pipe, step: Step) {
    match step
    case PullVideo(_, _, _) => !s.puller.stopped && s.puller.outbox == []
    case PullAudio(_, _) => !s.puller.stopped && s.puller.outbox == []
    case Decode(_) => !s.puller.stopped && s.puller.outbox == []
    case Deliver => s.puller.outbox != []
    case CloseConnection => s.puller.outbox == []
    case StopPuller => s.puller.outbox == [] && s.puller.pending == []
    case StopBuffer => s.puller.stopped
    case Acquire => s.task.None? && Select(s.buf).1.Some?
    case MarkRunning => s.task.Some? && s.task.value.Acquired?
    case Drop => s.task.Some? && s.task.value.Marked?
    case Detect(r) => s.task.Some? && s.task.value.Marked? && (r.frameId == s.task.value.f || r.frameId == -1)
    case MarkDone => s.task.Some? && s.task.value.Detected?
    case StoreCached => s.task.Some? && s.task.value.DoneMarked?
    case Complete => s.task.Some? && s.task.value.Finishing?
    case PassGate => s.pub.Waiting? && !s.buf.stopped && CanPublish(s.buf, MIN_VIDEO_WATERMARK)
    case Peek => s.pub.GatePassed?
    case Locate => s.pub.Holding? && s.pub.p.media == Video
    case Take(now, found) =>
      s.pub.Located? && TakeResult(s.buf, s.pub.p.frameId, s.pub.p.pts, now, AfterTake(s.buf, now, found), found)
    case Pop => s.pub.Taken? || (s.pub.Holding? && s.pub.p.media == Audio)
    case Release => s.pub.Popped?
  }

  /** What the step does. */
  ghost function Apply(s: Pipe, step: Step): Pipe
    requires Enabled(s, step)
  {
    var q := s.puller;
    match step
    case PullVideo(pts, dts, body) =>
      var p := Packet(Video, q.nextId, pts, body);
      s.(buf := EnqueuePacket(s.buf, p), puller := AfterPull(q, pts, dts), h := s.h.(enqueued := s.h.enqueued + [p]))
    case PullAudio(pts, body) =>
      var p := Packet(Audio, -1, pts, body);
      s.(buf := EnqueuePacket(s.buf, p), h := s.h.(enqueued := s.h.enqueued + [p]))
    case Decode(d) =>
      s.(puller := q.(outbox := Deliveries(q.pending, d), pending := Remaining(q.pending, d)))
    case Deliver =>
      s.(buf := EnqueueFrame(s.buf, q.outbox[0]), puller := q.(outbox := q.outbox[1..]))
    case CloseConnection =>
      s.(puller := q.(pending := []), h := s.h.(lost := s.h.lost + (set id | id in MetaIds(q.pending))))
    case StopPuller => s.(puller := q.(stopped := true))
    case StopBuffer => s.(buf := s.buf.(stopped := true))
    case Acquire =>
      var (buf, choice) := Select(s.buf);
      s.(buf := buf, task := Some(Acquired(choice.value)), h := s.h.(selected := s.h.selected + [choice.value]))
    case MarkRunning =>
      s.(buf := SetState(s.buf, s.task.value.f, Running), task := Some(Marked(s.task.value.f)))
    case Drop =>
      s.(buf := SetState(s.buf, s.task.value.f, Dropped), task := Some(Finishing(s.task.value.f)))
    case Detect(r) => s.(task := Some(Detected(s.task.value.f, r)))
    case MarkDone =>
      s.(buf := SetState(s.buf, s.task.value.result.frameId, Done),
         task := Some(DoneMarked(s.task.value.f, s.task.value.result)))
    case StoreCached =>
      s.(buf := StoreResult(s.buf, s.task.value.result), task := Some(Finishing(s.task.value.f)))
    case Complete => s.(task := None)
    case PassGate => s.(pub := GatePassed)
    case Peek => s.(pub := if s.buf.packets == [] then Waiting else Holding(s.buf.packets[0]))
    case Locate => s.(pub := Located(s.pub.p))
    case Take(now, found) =>
      s.(buf := AfterTake(s.buf, now, found), pub := Taken(s.pub.p), h := Record(s.h, found, now))
    case Pop =>
      s.(buf := PopPacket(s.buf), pub := Popped(s.pub.p), h := s.h.(published := s.h.published + [s.pub.p]))
    case Release =>
      var id := s.pub.p.frameId;
      if s.pub.p.media == Video && 0 <= id
      then s.(buf := ReleaseFrame(s.buf, id), pub := Waiting, h := s.h.(released := s.h.released + [id]))
      else s.(pub := Waiting)
  }

  ghost predicate Next(s: Pipe, step: Step, s': Pipe) {
    Enabled(s, step) && s' == Apply(s, step)
  }

  // ---------------------------------------------------------------------------------------------
  // The invariant. Each part speaks only of the components it needs.
  // ---------------------------------------------------------------------------------------------

  /** Ids the puller still owes the buffer, oldest first. */
  function Owed(q: Puller): seq<int> { FrameIds(q.outbox) + MetaIds(q.pending) }

  /** Every id below the fence has left the puller. */
  function Fence(q: Puller): int { q.nextId - |Owed(q)| }

  /** The video packet that is popped but whose frame is not yet released. */
  function Hand(pub: Publisher): Option<int> { if pub.Popped? && pub.p.media == Video then Some(pub.p.frameId) else None }

  /** The smallest id not yet released. */
  function Base(s: Pipe): int { s.puller.nextId - |VideoIds(s.buf.packets)| - (if Hand(s.pub).Some? then 1 else 0) }

  /** The puller owes the newest ids, without a gap. */
  predicate OwedInv(q: Puller) {
    && 0 <= Fence(q)
    && Owed(q) == Range(Fence(q), q.nextId)
    && (forall i :: 0 <= i < |q.outbox| ==> q.outbox[i].state == Idle)
    && (q.stopped ==> Owed(q) == [])
  }

  /** The queued video packets are the newest ids without a gap; everything older was released in order. */
  predicate QueueInv(ids: seq<int>, nextId: int, hand: Option<int>, released: seq<int>) {
    var base := nextId - |ids| - (if hand.Some? then 1 else 0);
    && 0 <= base
    && ids == Range(nextId - |ids|, nextId)
    && released == Range(0, base)
    && (hand.Some? ==> hand.value == base)
  }

  /** Every id between base and fence is buffered or was lost with its connection, never both. */
  ghost predicate HeldInv(keys: set<int>, order: seq<int>, lost: set<int>, base: int, fence: int) {
    && base <= fence
    && StrictlyIncreasing(order)
    && (forall id :: id in keys ==> base <= id < fence && id !in lost)
    && (forall id :: id in lost ==> base <= id < fence)
    && (forall id :: base <= id < fence && id !in keys ==> id in lost)
  }

  predicate Inferring(frames: map<int, Frame>, id: int) { id in frames && IsInferring(frames[id].state) }

  /** Who may be inferring, and what may still be selected. */
  ghost predicate StateInv(frames: map<int, Frame>, log: seq<int>, fence: int) {
    && (forall a, b :: a in frames && b in frames && a < b && frames[a].state == Idle ==> frames[b].state == Idle)
    && StrictlyIncreasing(log)
    && (log != [] ==> log[|log| - 1] < fence)
    && (forall id :: id in frames && frames[id].state == Idle ==> log == [] || log[|log| - 1] < id)
    && (forall id :: id in frames && IsInferring(frames[id].state) ==>
          frames[id].decoded && log != [] && id == log[|log| - 1])
  }

  /** The task's frame is the last one selected, and it is in the buffer until it is marked done. */
  predicate TaskInv(frames: map<int, Frame>, log: seq<int>, task: Option<Task>) {
    task.Some? ==>
      var t := task.value;
      && log != [] && t.f == log[|log| - 1]
      && (t.Acquired? ==> t.f in frames && frames[t.f].state == Selected)
      && (t.Marked? || t.Detected? ==> t.f in frames && frames[t.f].state == Running)
      && (t.Detected? ==> t.result.frameId == t.f || t.result.frameId == -1)
      && (t.DoneMarked? ==> t.result.frameId == t.f || t.result.frameId == -1)
  }

  /** What the gate saw stays true until the release: the frame is there, nobody infers it, nobody
      can select it, and another decoded frame stays behind. */
  ghost predicate Cleared(frames: map<int, Frame>, g: int) {
    && g in frames && !IsInferring(frames[g].state)
    && (frames[g].decoded ==> exists k :: k in frames && k > g && frames[k].decoded)
  }

  ghost predicate FrontCleared(b: Buffer) {
    && b.packets != []
    && (b.packets[0].media == Video ==> Cleared(b.frames, b.packets[0].frameId) && b.videoCount >= 2)
  }

  ghost predicate PubInv(pub: Publisher, b: Buffer) {
    match pub
    case Waiting => true
    case GatePassed => FrontCleared(b)
    case Holding(p) => FrontCleared(b) && b.packets[0] == p
    case Located(p) => FrontCleared(b) && b.packets[0] == p && p.media == Video
    case Taken(p) => FrontCleared(b) && b.packets[0] == p && p.media == Video
    case Popped(p) => p.media == Video ==> Cleared(b.frames, p.frameId) && b.videoCount >= 1
  }

  /** A result is cached at most once per selected frame, handed out at most once, and never late. */
  ghost predicate ResultInv(cache: map<int, InferenceResult>, h: History, task: Option<Task>) {
    && (forall k :: k in cache ==> k in h.selected)
    && (forall i :: 0 <= i < |h.taken| ==>
          && h.taken[i].0.frameId in h.selected && h.taken[i].0.frameId !in cache
          && h.taken[i].0.expireAt >= h.taken[i].1)
    && (forall i, j :: 0 <= i < j < |h.taken| ==> h.taken[i].0.frameId != h.taken[j].0.frameId)
    && (task.Some? && !task.value.Finishing? ==>
          && task.value.f !in cache
          && forall i :: 0 <= i < |h.taken| ==> h.taken[i].0.frameId != task.value.f)
  }

  ghost predicate FlowInv(b: Buffer, q: Puller, h: History) {
    && h.published + b.packets == h.enqueued
    && (!q.stopped ==> !b.stopped)
  }

  ghost predicate Inv(s: Pipe) {
    && Coherent(s.buf)
    && OwedInv(s.puller)
    && QueueInv(VideoIds(s.buf.packets), s.puller.nextId, Hand(s.pub), s.h.released)
    && HeldInv(s.buf.frames.Keys, s.buf.order, s.h.lost, Base(s), Fence(s.puller))
    && StateInv(s.buf.frames, s.h.selected, Fence(s.puller))
    && TaskInv(s.buf.frames, s.h.selected, s.task)
    && PubInv(s.pub, s.buf)
    && ResultInv(s.buf.cache, s.h, s.task)
    && FlowInv(s.buf, s.puller, s.h)
  }

  // ---------------------------------------------------------------------------------------------
  // Every step keeps the invariant
  // ---------------------------------------------------------------------------------------------

  lemma PullOwes(q: Puller, pts: int, dts: int)
    requires OwedInv(q) && !q.stopped
    ensures OwedInv(AfterPull(q, pts, dts)) && Fence(AfterPull(q, pts, dts)) == Fence(q)
  {
    var q' := AfterPull(q, pts, dts);
    assert Owed(q') == Owed(q) + [q.nextId];
    assert Range(Fence(q), q.nextId) + [q.nextId] == Range(Fence(q), q.nextId + 1);
  }

  lemma PullQueues(ids: seq<int>, nextId: int, hand: Option<int>, released: seq<int>)
    requires QueueInv(ids, nextId, hand, released)
    ensures QueueInv(ids + [nextId], nextId + 1, hand, released)
  {
    assert Range(nextId - |ids|, nextId) + [nextId] == Range(nextId - |ids|, nextId + 1);
  }

  lemma AppendKeepsFlow(b: Buffer, q: Puller, h: History, p: Packet, q': Puller)
    requires FlowInv(b, q, h) && !q.stopped && q'.stopped == q.stopped
    ensures FlowInv(EnqueuePacket(b, p), q', h.(enqueued := h.enqueued + [p]))
  {
    assert h.published + (b.packets + [p]) == (h.published + b.packets) + [p];
  }

  lemma AppendKeepsPub(pub: Publisher, b: Buffer, p: Packet)
    requires PubInv(pub, b)
    ensures PubInv(pub, EnqueuePacket(b, p))
  {
    var b' := EnqueuePacket(b, p);
    assert b'.frames == b.frames && b'.videoCount >= b.videoCount;
    assert b.packets != [] ==> b'.packets[0] == b.packets[0];
  }

  lemma KeepPullVideo(s: Pipe, step: Step, s': Pipe)
    requires Inv(s) && step.PullVideo? && Next(s, step, s')
    ensures Inv(s')
  {
    var n := s.puller.nextId;
    var p := Packet(Video, n, step.pts, step.body);
    OperationsKeepCoherent(s.buf, OpEnqueuePacket(p), s'.buf);
    VideoIdsAppend(s.buf.packets, [p]);
    assert VideoIds([p]) == [n];
    assert VideoIds(s'.buf.packets) == VideoIds(s.buf.packets) + [n];
    assert Base(s') == Base(s);
    PullOwes(s.puller, step.pts, step.dts);
    PullQueues(VideoIds(s.buf.packets), n, Hand(s.pub), s.h.released);
    AppendKeepsFlow(s.buf, s.puller, s.h, p, s'.puller);
    AppendKeepsPub(s.pub, s.buf, p);
  }

  lemma KeepPullAudio(s: Pipe, step: Step, s': Pipe)
    requires Inv(s) && step.PullAudio? && Next(s, step, s')
    ensures Inv(s')
  {
    var p := Packet(Audio, -1, step.pts, step.body);
    OperationsKeepCoherent(s.buf, OpEnqueuePacket(p), s'.buf);
    VideoIdsAppend(s.buf.packets, [p]);
    assert VideoIds([p]) == [];
    AppendKeepsFlow(s.buf, s.puller, s.h, p, s'.puller);
    AppendKeepsPub(s.pub, s.buf, p);
  }

  lemma DecodeOwes(q: Puller, d: Decoded)
    requires OwedInv(q) && q.outbox == [] && !q.stopped
    ensures Owed(q.(outbox := Deliveries(q.pending, d), pending := Remaining(q.pending, d))) == Owed(q)
    ensures OwedInv(q.(outbox := Deliveries(q.pending, d), pending := Remaining(q.pending, d)))
  {
    DeliveriesConserveIds(q.pending, d);
    assert Owed(q) == MetaIds(q.pending);
    var q' := q.(outbox := Deliveries(q.pending, d), pending := Remaining(q.pending, d));
    assert Owed(q') == Owed(q);
    assert Fence(q') == Fence(q);
  }

  lemma KeepDecode(s: Pipe, step: Step, s': Pipe)
    requires Inv(s) && step.Decode? && Next(s, step, s')
    ensures Inv(s')
  {
    DecodeOwes(s.puller, step.d);
  }

  lemma KeepClose(s: Pipe, step: Step, s': Pipe)
    requires Inv(s) && step.CloseConnection? && Next(s, step, s')
    ensures Inv(s')
  {
    var owed := Owed(s.puller);
    assert owed == MetaIds(s.puller.pending);
    assert Owed(s'.puller) == [];
    forall id | Fence(s.puller) <= id < s.puller.nextId ensures id in owed {
      assert owed[id - Fence(s.puller)] == id;
    }
  }

  lemma KeepStop(s: Pipe, step: Step, s': Pipe)
    requires Inv(s) && (step.StopPuller? || step.StopBuffer?) && Next(s, step, s')
    ensures Inv(s')
  {
  }

  lemma DeliverOwes(q: Puller)
    requires OwedInv(q) && q.outbox != []
    ensures OwedInv(q.(outbox := q.outbox[1..])) && Fence(q.(outbox := q.outbox[1..])) == Fence(q) + 1
    ensures q.outbox[0].frameId == Fence(q)
  {
    var q' := q.(outbox := q.outbox[1..]);
    assert Owed(q)[0] == q.outbox[0].frameId;
    assert Owed(q') == Owed(q)[1..];
    assert Range(Fence(q), q.nextId)[1..] == Range(Fence(q) + 1, q.nextId);
  }

  /** A new frame is newer than every buffered one, so it extends the order and the Idle suffix. */
  lemma DeliverHeld(b: Buffer, f: Frame, lost: set<int>, base: int, log: seq<int>)
    requires Coherent(b) && !b.stopped && f.state == Idle
    requires HeldInv(b.frames.Keys, b.order, lost, base, f.frameId) && StateInv(b.frames, log, f.frameId)
    ensures HeldInv(EnqueueFrame(b, f).frames.Keys, EnqueueFrame(b, f).order, lost, base, f.frameId + 1)
    ensures StateInv(EnqueueFrame(b, f).frames, log, f.frameId + 1)
  {
    forall i | 0 <= i < |b.order| ensures b.order[i] < f.frameId {
      assert b.order[i] in b.order;
    }
  }

  lemma DeliverKeepsPub(pub: Publisher, b: Buffer, f: Frame)
    requires PubInv(pub, b) && f.frameId !in b.frames
    ensures PubInv(pub, EnqueueFrame(b, f))
  {
    var b' := EnqueueFrame(b, f);
    assert forall k :: k in b.frames ==> k in b'.frames && b'.frames[k] == b.frames[k];
  }

  lemma KeepDeliver(s: Pipe, step: Step, s': Pipe)
    requires Inv(s) && step.Deliver? && Next(s, step, s')
    ensures Inv(s')
  {
    var f := s.puller.outbox[0];
    DeliverOwes(s.puller);
    OperationsKeepCoherent(s.buf, OpEnqueueFrame(f), s'.buf);
    DeliverHeld(s.buf, f, s.h.lost, Base(s), s.h.selected);
    DeliverKeepsPub(s.pub, s.buf, f);
  }

  /** Selection takes the newest decoded Idle frame, so never one the publisher was cleared to release. */
  lemma SelectSparesCleared(b: Buffer, log: seq<int>, fence: int, g: int)
    requires Coherent(b) && StrictlyIncreasing(b.order) && StateInv(b.frames, log, fence)
    requires Cleared(b.frames, g) && Select(b).1.Some?
    ensures Select(b).1.value != g && Cleared(Select(b).0.frames, g)
  {
    var id := Select(b).1.value;
    if b.frames[g].decoded {
      var k :| k in b.frames && k > g && b.frames[k].decoded;
      if b.frames[g].state == Idle {
        LastCandidateIsNewest(b.frames, b.order, k);
      }
      assert k in Select(b).0.frames && Select(b).0.frames[k].decoded;
    }
  }

  lemma SelectKeepsState(b: Buffer, log: seq<int>, fence: int)
    requires Coherent(b) && StrictlyIncreasing(b.order) && StateInv(b.frames, log, fence) && Select(b).1.Some?
    requires forall k :: k in b.frames ==> k < fence
    ensures StateInv(Select(b).0.frames, log + [Select(b).1.value], fence)
  {
  }

  lemma SelectStartsTask(b: Buffer, log: seq<int>, fence: int)
    requires Coherent(b) && StateInv(b.frames, log, fence) && Select(b).1.Some?
    ensures Select(b).0.frames.Keys == b.frames.Keys
    ensures TaskInv(Select(b).0.frames, log + [Select(b).1.value], Some(Acquired(Select(b).1.value)))
    ensures log != [] ==> log[|log| - 1] < Select(b).1.value
  {
    assert Candidate(b.frames, Select(b).1.value);
  }

  lemma SelectKeepsPub(pub: Publisher, b: Buffer, log: seq<int>, fence: int)
    requires Coherent(b) && StrictlyIncreasing(b.order) && StateInv(b.frames, log, fence) && Select(b).1.Some?
    requires PubInv(pub, b)
    ensures PubInv(pub, Select(b).0)
  {
    if pub.Popped? {
      if pub.p.media == Video {
        SelectSparesCleared(b, log, fence, pub.p.frameId);
      }
    } else if !pub.Waiting? && b.packets[0].media == Video {
      SelectSparesCleared(b, log, fence, b.packets[0].frameId);
    }
  }

  /** The selected frame was never selected before, so nothing is cached or handed out for it yet. */
  lemma SelectKeepsResults(cache: map<int, InferenceResult>, h: History, f: int)
    requires ResultInv(cache, h, None) && StrictlyIncreasing(h.selected)
    requires h.selected != [] ==> h.selected[|h.selected| - 1] < f
    ensures ResultInv(cache, h.(selected := h.selected + [f]), Some(Acquired(f)))
  {
    assert f !in h.selected;
  }

  lemma KeepAcquire(s: Pipe, step: Step, s': Pipe)
    requires Inv(s) && step.Acquire? && Next(s, step, s')
    ensures Inv(s')
  {
    OperationsKeepCoherent(s.buf, OpSelect, s'.buf);
    SelectKeepsState(s.buf, s.h.selected, Fence(s.puller));
    SelectStartsTask(s.buf, s.h.selected, Fence(s.puller));
    SelectKeepsPub(s.pub, s.buf, s.h.selected, Fence(s.puller));
    SelectKeepsResults(s.buf.cache, s.h, Select(s.buf).1.value);
  }

  /** Moving an inferring frame to another non-Idle state disturbs neither the publisher's frame nor
      the selection order. */
  lemma SetStateKeeps(b: Buffer, pub: Publisher, log: seq<int>, fence: int, f: int, t: InferState)
    requires Coherent(b) && StateInv(b.frames, log, fence) && PubInv(pub, b)
    requires t != Idle && (f in b.frames ==> IsInferring(b.frames[f].state))
    ensures Coherent(SetState(b, f, t)) && StateInv(SetState(b, f, t).frames, log, fence)
    ensures PubInv(pub, SetState(b, f, t)) && SetState(b, f, t).frames.Keys == b.frames.Keys
  {
    var b' := SetState(b, f, t);
    OperationsKeepCoherent(b, OpSetState(f, t), b');
    assert forall k :: k in b.frames ==> k in b'.frames && b'.frames[k].decoded == b.frames[k].decoded
                                         && (k != f ==> b'.frames[k] == b.frames[k]);
    assert forall k :: k in b'.frames ==> k in b.frames;
  }

  lemma KeepMarkRunning(s: Pipe, step: Step, s': Pipe)
    requires Inv(s) && step.MarkRunning? && Next(s, step, s')
    ensures Inv(s')
  {
    SetStateKeeps(s.buf, s.pub, s.h.selected, Fence(s.puller), s.task.value.f, Running);
    StatesMove(s, s'.buf.frames, s'.task);
  }

  lemma KeepDrop(s: Pipe, step: Step, s': Pipe)
    requires Inv(s) && step.Drop? && Next(s, step, s')
    ensures Inv(s')
  {
    SetStateKeeps(s.buf, s.pub, s.h.selected, Fence(s.puller), s.task.value.f, Dropped);
    StatesMove(s, s'.buf.frames, s'.task);
  }

  lemma KeepMarkDone(s: Pipe, step: Step, s': Pipe)
    requires Inv(s) && step.MarkDone? && Next(s, step, s')
    ensures Inv(s')
  {
    assert -1 !in s.buf.frames;
    SetStateKeeps(s.buf, s.pub, s.h.selected, Fence(s.puller), s.task.value.result.frameId, Done);
    StatesMove(s, s'.buf.frames, s'.task);
  }

  lemma KeepDetectComplete(s: Pipe, step: Step, s': Pipe)
    requires Inv(s) && (step.Detect? || step.Complete?) && Next(s, step, s')
    ensures Inv(s')
  {
  }

  lemma KeepStore(s: Pipe, step: Step, s': Pipe)
    requires Inv(s) && step.StoreCached? && Next(s, step, s')
    ensures Inv(s')
  {
    OperationsKeepCoherent(s.buf, OpStore(s.task.value.result), s'.buf);
    StoreKeepsResults(s.buf, s.h, s.task.value.f, s.task.value.result);
    CacheMoves(s, s'.buf.cache, s'.task);
  }

  /** Only the cache and the worker's place in its loop change. */
  lemma CacheMoves(s: Pipe, cache: map<int, InferenceResult>, task: Option<Task>)
    requires Inv(s) && Coherent(s.buf.(cache := cache))
    requires TaskInv(s.buf.frames, s.h.selected, task) && ResultInv(cache, s.h, task)
    ensures Inv(s.(buf := s.buf.(cache := cache), task := task))
  {
  }

  /** Only inference states and the worker's place in its loop change. */
  lemma StatesMove(s: Pipe, frames: map<int, Frame>, task: Option<Task>)
    requires Inv(s) && Coherent(s.buf.(frames := frames)) && frames.Keys == s.buf.frames.Keys
    requires StateInv(frames, s.h.selected, Fence(s.puller)) && PubInv(s.pub, s.buf.(frames := frames))
    requires TaskInv(frames, s.h.selected, task) && ResultInv(s.buf.cache, s.h, task)
    ensures Inv(s.(buf := s.buf.(frames := frames), task := task))
  {
  }

  /** The result goes into the cache of a frame that was selected and never handed out. */
  lemma StoreKeepsResults(b: Buffer, h: History, f: int, r: InferenceResult)
    requires ResultInv(b.cache, h, Some(DoneMarked(f, r))) && f in h.selected && (r.frameId == f || r.frameId == -1)
    ensures ResultInv(StoreResult(b, r).cache, h, Some(Finishing(f)))
  {
  }

  /** Everything but the publisher's own place in its loop stays as it is. */
  lemma PublisherMoves(s: Pipe, pub: Publisher)
    requires Inv(s) && Hand(s.pub) == Hand(pub) && PubInv(pub, s.buf)
    ensures Inv(s.(pub := pub))
  {
    assert Base(s.(pub := pub)) == Base(s);
  }

  /** What the open gate says about the front packet. */
  lemma GateClears(s: Pipe)
    requires Inv(s) && Hand(s.pub).None? && CanPublish(s.buf, MIN_VIDEO_WATERMARK)
    ensures FrontCleared(s.buf)
  {
    if s.buf.packets[0].media == Video {
      FrontIsBase(s);
      GateSparesFront(s.buf);
    }
  }

  lemma GateSparesFront(b: Buffer)
    requires Coherent(b) && CanPublish(b, MIN_VIDEO_WATERMARK) && b.packets[0].media == Video && b.videoCount > 0
    requires 0 <= b.packets[0].frameId && forall k :: k in b.frames ==> b.packets[0].frameId <= k
    requires forall k :: Inferring(b.frames, k) ==> b.frames[k].decoded
    requires forall j, k :: Inferring(b.frames, j) && Inferring(b.frames, k) ==> j == k
    ensures Cleared(b.frames, b.packets[0].frameId) && b.videoCount >= 2
  {
    var g := b.packets[0].frameId;
    var inferring := InferringId(b.frames, b.order);
    if Inferring(b.frames, g) {
      assert InferringAt(b.frames, g);
      assert inferring.Some? && Inferring(b.frames, inferring.value);
    }
    if b.frames[g].decoded {
      var k :| k in b.frames && Some(g) != Some(k) && b.frames[k].decoded;
      assert k > g;
    }
  }

  lemma KeepGate(s: Pipe, step: Step, s': Pipe)
    requires Inv(s) && (step.PassGate? || step.Peek? || step.Locate?) && Next(s, step, s')
    ensures Inv(s')
  {
    if step.PassGate? { GateClears(s); }
    PublisherMoves(s, s'.pub);
  }

  /** A video packet at the front carries the oldest unreleased id. */
  lemma FrontIsBase(s: Pipe)
    requires Inv(s) && s.buf.packets != [] && s.buf.packets[0].media == Video
    ensures s.buf.videoCount == |VideoIds(s.buf.packets)| > 0
    ensures s.buf.packets[0].frameId == s.puller.nextId - s.buf.videoCount
    ensures forall k :: k in s.buf.frames && Hand(s.pub).None? ==> s.buf.packets[0].frameId <= k
  {
    VideoIdsFront(s.buf.packets);
    assert VideoIds(s.buf.packets)[0] == s.buf.packets[0].frameId;
  }

  lemma TakeKeepsResults(b: Buffer, h: History, task: Option<Task>, p: Packet, now: int, b': Buffer, found: Option<InferenceResult>)
    requires Coherent(b) && ResultInv(b.cache, h, task) && TakeResult(b, p.frameId, p.pts, now, b', found)
    ensures ResultInv(b'.cache, Record(h, found, now), task)
  {
    var live := Live(b.cache, now);
    assert forall k :: k in live ==> k in b.cache && live[k] == b.cache[k] && live[k].expireAt >= now;
    assert forall k :: k in b'.cache ==> k in live;
    if found.Some? {
      assert b.cache[found.value.frameId] == found.value;
    }
  }

  lemma KeepTake(s: Pipe, step: Step, s': Pipe)
    requires Inv(s) && step.Take? && Next(s, step, s')
    ensures Inv(s')
  {
    OperationsKeepCoherent(s.buf, OpTake(s.pub.p.frameId, s.pub.p.pts, step.now), s'.buf);
    TakeKeepsResults(s.buf, s.h, s.task, s.pub.p, step.now, s'.buf, step.found);
    assert s'.buf == s.buf.(cache := s'.buf.cache);
    assert FrontCleared(s'.buf);
  }

  lemma PopMovesToHand(ids: seq<int>, nextId: int, released: seq<int>)
    requires ids != [] && QueueInv(ids, nextId, None, released)
    ensures QueueInv(ids[1..], nextId, Some(ids[0]), released)
  {
    assert Range(nextId - |ids|, nextId)[1..] == Range(nextId - |ids| + 1, nextId);
  }

  lemma PopKeepsPub(b: Buffer, p: Packet)
    requires Coherent(b) && FrontCleared(b) && b.packets[0] == p
    ensures PubInv(Popped(p), PopPacket(b))
  {
  }

  lemma PopKeepsFlow(b: Buffer, q: Puller, h: History, p: Packet)
    requires FlowInv(b, q, h) && b.packets != [] && b.packets[0] == p
    ensures FlowInv(PopPacket(b), q, h.(published := h.published + [p]))
  {
    assert b.packets == [p] + b.packets[1..];
    assert (h.published + [p]) + b.packets[1..] == h.published + b.packets;
  }

  /** The popped packet's id moves from the queue to the publisher's hand. */
  lemma {:induction false} PopKeepsQueue(packets: seq<Packet>, nextId: int, released: seq<int>)
    requires packets != [] && QueueInv(VideoIds(packets), nextId, None, released)
    ensures QueueInv(VideoIds(packets[1..]), nextId, Hand(Popped(packets[0])), released)
    ensures |VideoIds(packets[1..])| + (if Hand(Popped(packets[0])).Some? then 1 else 0) == |VideoIds(packets)|
  {
    VideoIdsFront(packets);
    var ids := VideoIds(packets);
    if packets[0].media == Video {
      PopMovesToHand(ids, nextId, released);
      assert VideoIds(packets[1..]) == ids[1..] && ids[0] == packets[0].frameId;
    } else {
      assert VideoIds(packets[1..]) == ids;
    }
  }

  lemma PublishKeepsResults(cache: map<int, InferenceResult>, h: History, task: Option<Task>, published: seq<Packet>)
    requires ResultInv(cache, h, task)
    ensures ResultInv(cache, h.(published := published), task)
  {
  }

  lemma KeepPop(s: Pipe, step: Step, s': Pipe)
    requires Inv(s) && step.Pop? && Next(s, step, s')
    ensures Inv(s')
  {
    OperationsKeepCoherent(s.buf, OpPop, s'.buf);
    PopKeepsQueue(s.buf.packets, s.puller.nextId, s.h.released);
    assert Base(s') == Base(s);
    PopKeepsPub(s.buf, s.pub.p);
    PopKeepsFlow(s.buf, s.puller, s.h, s.pub.p);
    PublishKeepsResults(s.buf.cache, s.h, s.task, s'.h.published);
  }

  lemma KeepRelease(s: Pipe, step: Step, s': Pipe)
    requires Inv(s) && step.Release? && Next(s, step, s')
    ensures Inv(s')
  {
    if Hand(s.pub).Some? {
      var g := s.pub.p.frameId;
      OperationsKeepCoherent(s.buf, OpRelease(g), s'.buf);
      WithoutKeepsOrder(s.buf.order, g);
      assert Range(0, Base(s)) + [g] == Range(0, Base(s) + 1);
    }
  }

  lemma PullerKeepsInv(s: Pipe, step: Step, s': Pipe)
    requires Inv(s) && Next(s, step, s')
    requires step.PullVideo? || step.PullAudio? || step.Decode? || step.Deliver? || step.CloseConnection?
             || step.StopPuller? || step.StopBuffer?
    ensures Inv(s')
  {
    if step.PullVideo? { KeepPullVideo(s, step, s'); }
    else if step.PullAudio? { KeepPullAudio(s, step, s'); }
    else if step.Decode? { KeepDecode(s, step, s'); }
    else if step.Deliver? { KeepDeliver(s, step, s'); }
    else if step.CloseConnection? { KeepClose(s, step, s'); }
    else { KeepStop(s, step, s'); }
  }

  lemma TaskKeepsInv(s: Pipe, step: Step, s': Pipe)
    requires Inv(s) && Next(s, step, s')
    requires step.Acquire? || step.MarkRunning? || step.Drop? || step.Detect? || step.MarkDone?
             || step.StoreCached? || step.Complete?
    ensures Inv(s')
  {
    if step.Acquire? { KeepAcquire(s, step, s'); }
    else if step.MarkRunning? { KeepMarkRunning(s, step, s'); }
    else if step.Drop? { KeepDrop(s, step, s'); }
    else if step.MarkDone? { KeepMarkDone(s, step, s'); }
    else if step.StoreCached? { KeepStore(s, step, s'); }
    else { KeepDetectComplete(s, step, s'); }
  }

  lemma PublisherKeepsInv(s: Pipe, step: Step, s': Pipe)
    requires Inv(s) && Next(s, step, s')
    requires step.PassGate? || step.Peek? || step.Locate? || step.Take? || step.Pop? || step.Release?
    ensures Inv(s')
  {
    if step.Take? { KeepTake(s, step, s'); }
    else if step.Pop? { KeepPop(s, step, s'); }
    else if step.Release? { KeepRelease(s, step, s'); }
    else { KeepGate(s, step, s'); }
  }

  lemma NextKeepsInv(s: Pipe, step: Step, s': Pipe)
    requires Inv(s) && Next(s, step, s')
    ensures Inv(s')
  {
    if step.PullVideo? || step.PullAudio? || step.Decode? || step.Deliver? || step.CloseConnection?
       || step.StopPuller? || step.StopBuffer? {
      PullerKeepsInv(s, step, s');
    } else if step.PassGate? || step.Peek? || step.Locate? || step.Take? || step.Pop? || step.Release? {
      PublisherKeepsInv(s, step, s');
    } else {
      TaskKeepsInv(s, step, s');
    }
  }
}
