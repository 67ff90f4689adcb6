/** What holds over every run of one stream's threads. */
module PipelineRuns {
  import opened Common
  import opened StreamTypes
  import opened BufferModel
  import opened PullerModel
  import opened StreamPipeline

  ghost predicate IsRun(states: seq<Pipe>, steps: seq<Step>) {
    && |states| == |steps| + 1
    && states[0] == START
    && forall i :: 0 <= i < |steps| ==> Next(states[i], steps[i], states[i + 1])
  }

  /** Every state of every run satisfies the invariant. */
  lemma {:induction false} RunKeepsInv(states: seq<Pipe>, steps: seq<Step>, i: nat)
    requires IsRun(states, steps) && i < |states|
    ensures Inv(states[i])
  {
    if i == 0 {
      assert Owed(START.puller) == [];
    } else {
      RunKeepsInv(states, steps, i - 1);
      NextKeepsInv(states[i - 1], steps[i - 1], states[i]);
    }
  }

  // ---------------------------------------------------------------------------------------------
  // Safety between the publisher and the inference workers
  // ---------------------------------------------------------------------------------------------

  /** The publisher never releases a frame that is selected or being inferred, nor the frame of the
      task that is out before that task is done with it, although it checked the gate several steps
      earlier; and the frame it releases is there. */
  lemma ReleaseIsSafe(states: seq<Pipe>, steps: seq<Step>, i: nat)
    requires IsRun(states, steps) && i < |steps| && steps[i].Release? && Hand(states[i].pub).Some?
    ensures var s := states[i]; var g := Hand(s.pub).value;
      && g in s.buf.frames && !IsInferring(s.buf.frames[g].state)
      && (s.task.Some? && (s.task.value.Acquired? || s.task.value.Marked? || s.task.value.Detected?) ==> s.task.value.f != g)
  {
    RunKeepsInv(states, steps, i);
  }

  /** A worker always finds its frame in the state it left it in. */
  lemma WorkerFindsItsFrame(states: seq<Pipe>, steps: seq<Step>, i: nat)
    requires IsRun(states, steps) && i < |steps|
    requires steps[i].MarkRunning? || steps[i].Drop? || steps[i].MarkDone?
    ensures states[i].task.Some?
    ensures var s := states[i]; var f := s.task.value.f;
      f in s.buf.frames && s.buf.frames[f].decoded
      && s.buf.frames[f].state == if steps[i].MarkRunning? then Selected else Running
  {
    assert Next(states[i], steps[i], states[i + 1]);
    RunKeepsInv(states, steps, i);
  }

  /** And leaves it as it should: Running while it infers, Done when the result names the frame, Dropped when there was no
      inference. A result that names no frame leaves it Running. */
  lemma WorkerLeavesItsFrame(states: seq<Pipe>, steps: seq<Step>, i: nat)
    requires IsRun(states, steps) && i < |steps| && (steps[i].MarkRunning? || steps[i].Drop? || steps[i].MarkDone?)
    ensures states[i].task.Some?
    ensures var f := states[i].task.value.f; var frames := states[i + 1].buf.frames;
      && f in frames
      && (steps[i].MarkRunning? ==> frames[f].state == Running)
      && (steps[i].Drop? ==> frames[f].state == Dropped)
      && (steps[i].MarkDone? ==> states[i].task.value.Detected?)
      && (steps[i].MarkDone? && states[i].task.value.result.frameId == f ==> frames[f].state == Done)
      && (steps[i].MarkDone? && states[i].task.value.result.frameId != f ==> frames[f].state == Running)
  {
    WorkerFindsItsFrame(states, steps, i);
    assert Next(states[i], steps[i], states[i + 1]);
    var f := states[i].task.value.f;
    RunKeepsInv(states, steps, i);
    if steps[i].MarkRunning? { SetStateMeans(states[i].buf, f, Running); }
    if steps[i].Drop? { SetStateMeans(states[i].buf, f, Dropped); }
    if steps[i].MarkDone? { SetStateMeans(states[i].buf, states[i].task.value.result.frameId, Done); }
  }

  /** findFrame never misses, so the codec chosen for the SEI message is the stream's own. */
  lemma LocateFindsTheFrame(states: seq<Pipe>, steps: seq<Step>, i: nat)
    requires IsRun(states, steps) && i < |steps| && steps[i].Locate?
    ensures states[i].pub.Holding? && states[i].pub.p.frameId in states[i].buf.frames
  {
    assert Next(states[i], steps[i], states[i + 1]);
    RunKeepsInv(states, steps, i);
  }

  /** At most one frame is Selected or Running, and the Idle frames are the newest ones. */
  lemma OneInferringIdleSuffix(states: seq<Pipe>, steps: seq<Step>, i: nat)
    requires IsRun(states, steps) && i < |states|
    ensures forall a, b :: Inferring(states[i].buf.frames, a) && Inferring(states[i].buf.frames, b) ==> a == b
    ensures forall j, k {:trigger states[i].buf.order[j], states[i].buf.order[k]} ::
      0 <= j < k < |states[i].buf.order| ==> IdleImpliesIdle(states[i].buf, states[i].buf.order[j], states[i].buf.order[k])
  {
    RunKeepsInv(states, steps, i);
    var b := states[i].buf;
    forall j, k | 0 <= j < k < |b.order| ensures IdleImpliesIdle(b, b.order[j], b.order[k]) {
      assert b.order[j] in b.order && b.order[k] in b.order && b.order[j] < b.order[k];
    }
  }

  predicate IdleImpliesIdle(b: Buffer, older: int, newer: int) {
    && older in b.frames && newer in b.frames
    && (b.frames[older].state == Idle ==> b.frames[newer].state == Idle)
  }

  lemma {:induction false} SelectedGrows(states: seq<Pipe>, steps: seq<Step>, i: nat, j: nat)
    requires IsRun(states, steps) && i <= j < |states|
    ensures |states[i].h.selected| <= |states[j].h.selected|
    ensures forall k :: 0 <= k < |states[i].h.selected| ==> states[j].h.selected[k] == states[i].h.selected[k]
  {
    if i < j {
      SelectedGrows(states, steps, i, j - 1);
      assert Next(states[j - 1], steps[j - 1], states[j]);
    }
  }

  /** No frame is selected for inference twice, even when the detector returns early: later
      selections take strictly newer frames. */
  lemma SelectedAtMostOnce(states: seq<Pipe>, steps: seq<Step>, i: nat, j: nat)
    requires IsRun(states, steps) && i < j < |steps| && steps[i].Acquire? && steps[j].Acquire?
    ensures states[i + 1].task.Some? && states[j + 1].task.Some?
    ensures states[i + 1].task.value.f < states[j + 1].task.value.f
  {
    assert Next(states[i], steps[i], states[i + 1]) && Next(states[j], steps[j], states[j + 1]);
    SelectedGrows(states, steps, i + 1, j);
    RunKeepsInv(states, steps, j + 1);
    var log := states[j + 1].h.selected;
    assert log[|states[i].h.selected|] == states[i + 1].task.value.f;
  }

  // ---------------------------------------------------------------------------------------------
  // Conservation
  // ---------------------------------------------------------------------------------------------

  /** What was written out followed by what is queued is what was pulled; every buffered frame's
      packet is still queued or in the publisher's hand. */
  lemma NothingLostInTheQueue(states: seq<Pipe>, steps: seq<Step>, i: nat)
    requires IsRun(states, steps) && i < |states|
    ensures states[i].h.published + states[i].buf.packets == states[i].h.enqueued
    ensures states[i].buf.videoCount == |VideoIds(states[i].buf.packets)|
    ensures forall id :: id in states[i].buf.frames ==>
      id in VideoIds(states[i].buf.packets) || Hand(states[i].pub) == Some(id)
  {
    RunKeepsInv(states, steps, i);
    var s := states[i];
    var ids := VideoIds(s.buf.packets);
    forall id | id in s.buf.frames && Hand(s.pub) != Some(id) ensures id in ids {
      assert ids[id - (s.puller.nextId - |ids|)] == id;
    }
  }

  lemma {:induction false} IncreasingIsRange(s: seq<int>, lo: int, hi: int)
    requires lo <= hi && StrictlyIncreasing(s) && forall x :: x in s <==> lo <= x < hi
    ensures s == Range(lo, hi)
  {
    if s == [] {
      assert lo !in s;
    } else {
      assert s[0] in s;
      assert lo in s;
      var j :| 0 <= j < |s| && s[j] == lo;
      assert s[0] == lo;
      assert s == [s[0]] + s[1..];
      forall x ensures x in s[1..] <==> lo + 1 <= x < hi {
        assert x in s <==> x == s[0] || x in s[1..];
        if x in s[1..] {
          var k :| 0 <= k < |s| - 1 && s[1..][k] == x;
          assert s[k + 1] == x;
        }
      }
      IncreasingIsRange(s[1..], lo + 1, hi);
    }
  }

  /** Every id handed to a packet is in exactly one place: released, buffered, owed by the puller, or
      lost when its connection closed. */
  lemma IdsArePartitioned(states: seq<Pipe>, steps: seq<Step>, i: nat)
    requires IsRun(states, steps) && i < |states|
    ensures var s := states[i]; forall id :: 0 <= id < s.puller.nextId ==>
      (if id in s.h.released then 1 else 0) + (if id in s.buf.frames then 1 else 0)
      + (if id in Owed(s.puller) then 1 else 0) + (if id in s.h.lost then 1 else 0) == 1
  {
    RunKeepsInv(states, steps, i);
    var s := states[i];
    forall id | 0 <= id < s.puller.nextId
      ensures id in s.h.released <==> id < Base(s)
      ensures id in Owed(s.puller) <==> Fence(s.puller) <= id
    {
      PlaceOfId(s, id);
    }
  }

  lemma PlaceOfId(s: Pipe, id: int)
    requires Inv(s) && 0 <= id < s.puller.nextId
    ensures id in s.h.released <==> id < Base(s)
    ensures id in Owed(s.puller) <==> Fence(s.puller) <= id
  {
    assert id < Base(s) ==> s.h.released[id] == id;
    assert Fence(s.puller) <= id ==> Owed(s.puller)[id - Fence(s.puller)] == id;
  }

  lemma RangesJoin(a: nat, b: nat, c: nat)
    requires a <= b <= c
    ensures Range(0, a) + Range(a, b) + Range(b, c) == Range(0, c)
  {
  }

  /** Ids are released from 0 on without a gap; while no connection lost any, so are all of them. */
  lemma IdsAreContiguous(states: seq<Pipe>, steps: seq<Step>, i: nat)
    requires IsRun(states, steps) && i < |states|
    ensures states[i].h.released == Range(0, |states[i].h.released|)
    ensures states[i].h.lost == {} ==>
      states[i].h.released + states[i].buf.order + Owed(states[i].puller) == Range(0, states[i].puller.nextId)
  {
    RunKeepsInv(states, steps, i);
    var s := states[i];
    if s.h.lost == {} {
      IncreasingIsRange(s.buf.order, Base(s), Fence(s.puller));
      RangesJoin(Base(s), Fence(s.puller), s.puller.nextId);
    }
  }

  lemma StepMovesFence(s: Pipe, step: Step, s': Pipe)
    requires OwedInv(s.puller) && FlowInv(s.buf, s.puller, s.h) && Next(s, step, s')
    ensures Fence(s.puller) <= Fence(s'.puller)
    ensures step.Deliver? ==> Fence(s.puller) < Fence(s'.puller)
  {
    if step.Deliver? { DeliverOwes(s.puller); }
    else if step.PullVideo? { PullOwes(s.puller, step.pts, step.dts); }
    else if step.Decode? { DecodeOwes(s.puller, step.d); }
  }

  lemma {:induction false} FenceGrows(states: seq<Pipe>, steps: seq<Step>, i: nat, j: nat)
    requires IsRun(states, steps) && i <= j < |states|
    ensures Fence(states[i].puller) <= Fence(states[j].puller)
    ensures i < j && steps[i].Deliver? ==> Fence(states[i].puller) < Fence(states[j].puller)
  {
    if i < j {
      RunKeepsInv(states, steps, j - 1);
      StepMovesFence(states[j - 1], steps[j - 1], states[j]);
      FenceGrows(states, steps, i, j - 1);
    }
  }

  /** A frame id is enqueued at most once, and later enqueues carry larger ids, across reconnects. */
  lemma EnqueuedAtMostOnce(states: seq<Pipe>, steps: seq<Step>, i: nat, j: nat)
    requires IsRun(states, steps) && i < j < |steps| && steps[i].Deliver? && steps[j].Deliver?
    ensures states[i].puller.outbox != [] && states[j].puller.outbox != []
    ensures states[i].puller.outbox[0].frameId < states[j].puller.outbox[0].frameId
  {
    assert Next(states[i], steps[i], states[i + 1]) && Next(states[j], steps[j], states[j + 1]);
    RunKeepsInv(states, steps, i);
    RunKeepsInv(states, steps, j);
    DeliverOwes(states[i].puller);
    DeliverOwes(states[j].puller);
    FenceGrows(states, steps, i, j);
  }

  /** Each detector result is handed to the publisher at most once, and never after it expired. */
  lemma ResultsHandedOutOnce(states: seq<Pipe>, steps: seq<Step>, i: nat)
    requires IsRun(states, steps) && i < |states|
    ensures var taken := states[i].h.taken;
      && (forall a, b :: 0 <= a < b < |taken| ==> taken[a].0.frameId != taken[b].0.frameId)
      && (forall a :: 0 <= a < |taken| ==> taken[a].1 <= taken[a].0.expireAt && taken[a].0.frameId in states[i].h.selected)
  {
    RunKeepsInv(states, steps, i);
  }

  // ---------------------------------------------------------------------------------------------
  // Progress
  // ---------------------------------------------------------------------------------------------

  /** With a newer decoded frame buffered and no inference at or before the front packet, the gate
      opens exactly when the front packet's id was not lost with a closed connection. In particular
      it always opens while the first connection lasts. */
  lemma GateOpensUnlessLost(states: seq<Pipe>, steps: seq<Step>, i: nat, d: int)
    requires IsRun(states, steps) && i < |states|
    requires states[i].buf.packets != [] && states[i].buf.packets[0].media == Video
    requires d in states[i].buf.frames && states[i].buf.frames[d].decoded && d > states[i].buf.packets[0].frameId
    requires forall a :: Inferring(states[i].buf.frames, a) ==> a > states[i].buf.packets[0].frameId
    ensures CanPublish(states[i].buf, MIN_VIDEO_WATERMARK) <==> states[i].buf.packets[0].frameId !in states[i].h.lost
  {
    RunKeepsInv(states, steps, i);
    var s := states[i];
    var f := s.buf.packets[0].frameId;
    FrontIsBase(s);
    var inferring := InferringId(s.buf.frames, s.buf.order);
    if inferring.Some? {
      assert Inferring(s.buf.frames, inferring.value);
    }
  }

  /** A connection that closes with a packet still undecoded puts a lost id at the front. */
  lemma LostFrontIsReachable(pts: int, dts: int, body: int) returns (states: seq<Pipe>, steps: seq<Step>)
    ensures IsRun(states, steps)
    ensures var b := states[|steps|].buf;
      b.packets != [] && b.packets[0].media == Video && b.packets[0].frameId in states[|steps|].h.lost
  {
    var pulled := Apply(START, PullVideo(pts, dts, body));
    var closed := Apply(pulled, CloseConnection);
    states, steps := [START, pulled, closed], [PullVideo(pts, dts, body), CloseConnection];
    assert pulled.puller.pending == [PendingMeta(0, pts, dts)];
    assert MetaIds(pulled.puller.pending) == [0];
    assert 0 in MetaIds(pulled.puller.pending);
  }

  lemma UncoveredFrontStays(s: Pipe, step: Step, s': Pipe)
    requires PubInv(s.pub, s.buf) && Next(s, step, s')
    requires s.buf.packets != [] && s.buf.packets[0].media == Video && s.buf.packets[0].frameId !in s.buf.frames
    ensures s'.buf.packets != [] && s'.buf.packets[0] == s.buf.packets[0]
    ensures s.h.lost <= s'.h.lost
  {
  }

  /** A packet whose id was lost blocks its stream for good: once it is at the front it stays there and
      the gate never opens again. */
  lemma {:induction false} LostFrontBlocksForever(states: seq<Pipe>, steps: seq<Step>, i: nat, j: nat)
    requires IsRun(states, steps) && i <= j < |states|
    requires states[i].buf.packets != [] && states[i].buf.packets[0].media == Video
    requires states[i].buf.packets[0].frameId in states[i].h.lost
    ensures states[j].buf.packets != [] && states[j].buf.packets[0] == states[i].buf.packets[0]
    ensures states[j].buf.packets[0].frameId in states[j].h.lost && !CanPublish(states[j].buf, MIN_VIDEO_WATERMARK)
  {
    if i < j {
      LostFrontBlocksForever(states, steps, i, j - 1);
      LostIsNotBuffered(states, steps, j - 1);
      UncoveredFrontStays(states[j - 1], steps[j - 1], states[j]);
    }
    LostIsNotBuffered(states, steps, j);
  }

  lemma {:induction false} LostGrows(states: seq<Pipe>, steps: seq<Step>, i: nat, j: nat)
    requires IsRun(states, steps) && i <= j < |states|
    ensures states[i].h.lost <= states[j].h.lost
  {
    if i < j {
      LostGrows(states, steps, i, j - 1);
      assert Next(states[j - 1], steps[j - 1], states[j]);
    }
  }

  /** More than that: from the moment an id is lost, only packets with smaller ids leave the stream, wherever
      in the queue the lost one stands. */
  lemma NothingFromALostIdOn(states: seq<Pipe>, steps: seq<Step>, i: nat, j: nat, id: int)
    requires IsRun(states, steps) && i <= j < |states| && id in states[i].h.lost
    ensures forall g :: g in states[j].h.released ==> g < id
    ensures Hand(states[j].pub).Some? ==> Hand(states[j].pub).value < id
  {
    RunKeepsInv(states, steps, j);
    LostGrows(states, steps, i, j);
    assert id in states[j].h.lost;
  }

  lemma LostIsNotBuffered(states: seq<Pipe>, steps: seq<Step>, i: nat)
    requires IsRun(states, steps) && i < |states|
    ensures forall id :: id in states[i].h.lost ==> 0 <= id && id !in states[i].buf.frames
    ensures PubInv(states[i].pub, states[i].buf)
    ensures states[i].buf.packets != [] && states[i].buf.packets[0].media == Video ==> states[i].buf.videoCount > 0
  {
    RunKeepsInv(states, steps, i);
    if states[i].buf.packets != [] && states[i].buf.packets[0].media == Video {
      FrontIsBase(states[i]);
    }
  }

  // ---------------------------------------------------------------------------------------------
  // The documented publish rule
  // ---------------------------------------------------------------------------------------------

  predicate OldestDecoded(frames: map<int, Frame>, id: int) {
    id in frames && frames[id].decoded && forall k :: k in frames && frames[k].decoded ==> id <= k
  }

  /** skills/modules/pipeline.md: from the oldest decoded frame on nothing may be published before that
      frame is Done or Dropped. */
  ghost predicate DocumentedRuleAllows(frames: map<int, Frame>, id: int) {
    forall o :: OldestDecoded(frames, o) && o <= id ==> IsTerminal(frames[o].state)
  }

  /** What the gate lets through obeys the documented rule if and only if the front frame is not waiting,
      decoded and Idle, to be selected. */
  lemma GateKeepsDocumentedRuleIff(states: seq<Pipe>, steps: seq<Step>, i: nat)
    requires IsRun(states, steps) && i < |states| && Hand(states[i].pub).None?
    requires CanPublish(states[i].buf, MIN_VIDEO_WATERMARK) && states[i].buf.packets[0].media == Video
    ensures var b := states[i].buf;
      DocumentedRuleAllows(b.frames, b.packets[0].frameId) <==> !Candidate(b.frames, b.packets[0].frameId)
  {
    RunKeepsInv(states, steps, i);
    var s := states[i];
    var f := s.buf.packets[0].frameId;
    FrontIsBase(s);
    GateClears(s);
    if Candidate(s.buf.frames, f) {
      assert OldestDecoded(s.buf.frames, f);
    }
  }

  /** skills/modules/pipeline.md says that nothing is published before a decoded frame is buffered. Without
      one the gate opens all the same, exactly when the front packet is audio or its
      frame has arrived without an image and another video packet is queued. */
  lemma GateWithoutDecodedFrameIff(states: seq<Pipe>, steps: seq<Step>, i: nat)
    requires IsRun(states, steps) && i < |states| && !HasDecoded(states[i].buf.frames, None)
    ensures var b := states[i].buf;
      CanPublish(b, MIN_VIDEO_WATERMARK)
      <==> b.packets != []
           && (b.packets[0].media == Audio || (b.packets[0].frameId in b.frames && b.videoCount >= 2))
  {
    RunKeepsInv(states, steps, i);
    var s := states[i];
    if s.buf.packets != [] && s.buf.packets[0].media == Video {
      FrontIsBase(s);
    }
  }

  // ---------------------------------------------------------------------------------------------
  // No starvation
  // ---------------------------------------------------------------------------------------------

  lemma StepKeepsDecoded(s: Pipe, step: Step, s': Pipe)
    requires PubInv(s.pub, s.buf) && Next(s, step, s')
    requires s.puller.outbox != [] ==> s.puller.outbox[0].frameId !in s.buf.frames
    requires HasDecoded(s.buf.frames, None)
    ensures HasDecoded(s'.buf.frames, None)
  {
    var k :| k in s.buf.frames && s.buf.frames[k].decoded;
    var survivor := k;
    if step.Release? && Hand(s.pub) == Some(k) {
      survivor :| survivor in s.buf.frames && survivor > k && s.buf.frames[survivor].decoded;
    }
    assert survivor in s'.buf.frames && s'.buf.frames[survivor].decoded;
  }

  lemma StepKeepsVideo(s: Pipe, step: Step, s': Pipe)
    requires PubInv(s.pub, s.buf) && Next(s, step, s') && s.buf.videoCount >= 1
    ensures s'.buf.videoCount >= 1
  {
  }

  /** Once a decoded frame is buffered one always is, so inference never starves; once a video packet
      is queued at least one always is. */
  lemma {:induction false} NoStarvation(states: seq<Pipe>, steps: seq<Step>, i: nat, j: nat)
    requires IsRun(states, steps) && i <= j < |states|
    ensures HasDecoded(states[i].buf.frames, None) ==> HasDecoded(states[j].buf.frames, None)
    ensures states[i].buf.videoCount >= 1 ==> states[j].buf.videoCount >= 1
  {
    if i < j {
      NoStarvation(states, steps, i, j - 1);
      NextDeliveryIsNew(states, steps, j - 1);
      if HasDecoded(states[j - 1].buf.frames, None) {
        StepKeepsDecoded(states[j - 1], steps[j - 1], states[j]);
      }
      if states[j - 1].buf.videoCount >= 1 {
        StepKeepsVideo(states[j - 1], steps[j - 1], states[j]);
      }
    }
  }

  lemma NextDeliveryIsNew(states: seq<Pipe>, steps: seq<Step>, i: nat)
    requires IsRun(states, steps) && i < |states|
    ensures PubInv(states[i].pub, states[i].buf)
    ensures states[i].puller.outbox != [] ==> states[i].puller.outbox[0].frameId !in states[i].buf.frames
  {
    RunKeepsInv(states, steps, i);
    if states[i].puller.outbox != [] {
      DeliverOwes(states[i].puller);
    }
  }

  // ---------------------------------------------------------------------------------------------
  // The whole gate
  // ---------------------------------------------------------------------------------------------

  /** In every state of every run in which the publisher holds no packet: the gate opens exactly for audio, and for a
      video packet whose frame is buffered, if every frame that is Selected or Running is newer, a newer decoded frame
      is there when its own is decoded, and a second video packet is queued. */
  lemma GateOpensIff(states: seq<Pipe>, steps: seq<Step>, i: nat)
    requires IsRun(states, steps) && i < |states| && Hand(states[i].pub).None? && states[i].buf.packets != []
    ensures var b := states[i].buf; var front := b.packets[0];
      CanPublish(b, 1) <==>
        || front.media == Audio
        || (&& front.frameId in b.frames
            && (forall k :: k in b.frames && (b.frames[k].state == Selected || b.frames[k].state == Running) ==> front.frameId < k)
            && (b.frames[front.frameId].decoded ==> exists k :: k in b.frames && front.frameId < k && b.frames[k].decoded)
            && exists j :: 0 < j < |b.packets| && b.packets[j].media == Video)
  {
    RunKeepsInv(states, steps, i);
    var s := states[i];
    var b := s.buf;
    if b.packets[0].media == Audio {
      GatePassesAudio(b, 1);
    } else {
      FrontIsBase(s);
      GatePassesVideoIff(b, 1);
      SecondVideoIff(b.packets);
      assert forall k :: k in b.frames && (b.frames[k].state == Selected || b.frames[k].state == Running) ==> IsUnderInference(b.frames, k);
    }
  }

  lemma {:induction false} NoVideoIff(ps: seq<Packet>)
    ensures VideoIds(ps) == [] <==> forall j :: 0 <= j < |ps| ==> ps[j].media != Video
  {
    if ps != [] {
      NoVideoIff(ps[..|ps| - 1]);
    }
  }

  lemma {:induction false} SecondVideoIff(ps: seq<Packet>)
    requires ps != [] && ps[0].media == Video
    ensures |VideoIds(ps)| > 1 <==> exists j :: 0 < j < |ps| && ps[j].media == Video
  {
    VideoIdsFront(ps);
    NoVideoIff(ps[1..]);
    if j :| 0 < j < |ps| && ps[j].media == Video { assert ps[1..][j - 1].media == Video; }
    if j :| 0 <= j < |ps[1..]| && ps[1..][j].media == Video { assert ps[j + 1].media == Video; }
  }

  // ---------------------------------------------------------------------------------------------
  // From the detector to the packet
  // ---------------------------------------------------------------------------------------------

  /** Was a packet with this id and timestamp pulled? */
  predicate Pulled(enqueued: seq<Packet>, id: int, pts: int) {
    exists i :: 0 <= i < |enqueued| && enqueued[i].media == Video && enqueued[i].frameId == id && enqueued[i].pts == pts
  }

  /** Whatever the puller remembers or has delivered carries the timestamp of its packet. */
  ghost predicate PtsInv(b: Buffer, q: Puller, enqueued: seq<Packet>) {
    && (forall i :: 0 <= i < |q.pending| ==> Pulled(enqueued, q.pending[i].frameId, q.pending[i].pts))
    && (forall i :: 0 <= i < |q.outbox| ==> Pulled(enqueued, q.outbox[i].frameId, q.outbox[i].pts))
    && (forall k :: k in b.frames ==> Pulled(enqueued, b.frames[k].frameId, b.frames[k].pts))
  }

  lemma PulledStays(enqueued: seq<Packet>, p: Packet, id: int, pts: int)
    requires Pulled(enqueued, id, pts)
    ensures Pulled(enqueued + [p], id, pts)
  {
    var i :| 0 <= i < |enqueued| && enqueued[i].media == Video && enqueued[i].frameId == id && enqueued[i].pts == pts;
    assert (enqueued + [p])[i] == enqueued[i];
  }

  lemma PullKeepsPts(b: Buffer, q: Puller, enqueued: seq<Packet>, p: Packet)
    requires PtsInv(b, q, enqueued)
    ensures PtsInv(b, q, enqueued + [p])
  {
    forall id, pts | Pulled(enqueued, id, pts) ensures Pulled(enqueued + [p], id, pts) {
      PulledStays(enqueued, p, id, pts);
    }
  }

  lemma DecodeKeepsPts(b: Buffer, q: Puller, enqueued: seq<Packet>, d: Decoded)
    requires PtsInv(b, q, enqueued)
    ensures PtsInv(b, q.(outbox := Deliveries(q.pending, d), pending := Remaining(q.pending, d)), enqueued)
  {
    forall i | 0 <= i < |Deliveries(q.pending, d)|
      ensures Pulled(enqueued, Deliveries(q.pending, d)[i].frameId, Deliveries(q.pending, d)[i].pts)
    {
      DeliveredBundles(q.pending, d, i);
    }
  }

  lemma StepKeepsPts(s: Pipe, step: Step, s': Pipe)
    requires PtsInv(s.buf, s.puller, s.h.enqueued) && Next(s, step, s')
    ensures PtsInv(s'.buf, s'.puller, s'.h.enqueued)
  {
    match step
    case PullVideo(pts, dts, body) =>
      var p := Packet(Video, s.puller.nextId, pts, body);
      PullKeepsPts(s.buf, s.puller, s.h.enqueued, p);
      assert (s.h.enqueued + [p])[|s.h.enqueued|] == p;
    case PullAudio(pts, body) => PullKeepsPts(s.buf, s.puller, s.h.enqueued, Packet(Audio, -1, pts, body));
    case Decode(d) => DecodeKeepsPts(s.buf, s.puller, s.h.enqueued, d);
    case _ =>
  }

  /** Every buffered frame carries the timestamp of the packet that was pulled with its id. */
  lemma {:induction false} FramesCarryTheirPts(states: seq<Pipe>, steps: seq<Step>, i: nat)
    requires IsRun(states, steps) && i < |states|
    ensures PtsInv(states[i].buf, states[i].puller, states[i].h.enqueued)
  {
    if i > 0 {
      FramesCarryTheirPts(states, steps, i - 1);
      assert Next(states[i - 1], steps[i - 1], states[i]);
      StepKeepsPts(states[i - 1], steps[i - 1], states[i]);
    }
  }

  /** Does the step take the result cached under this id away, by handing it out, purging or releasing? */
  predicate Forgets(s: Pipe, step: Step, id: int, expireAt: int) {
    match step
    case Take(now, found) => expireAt < now || (found.Some? && found.value.frameId == id)
    case Release => Hand(s.pub) == Some(id)
    case _ => false
  }

  predicate IsCached(b: Buffer, r: InferenceResult) { r.frameId in b.cache && b.cache[r.frameId] == r }

  lemma StepKeepsResult(s: Pipe, step: Step, s': Pipe, r: InferenceResult)
    requires Inv(s) && Next(s, step, s') && 0 <= r.frameId && IsCached(s.buf, r) && !Forgets(s, step, r.frameId, r.expireAt)
    ensures IsCached(s'.buf, r)
  {
    if step.StoreCached? { StoringKeepsOthers(s.buf, s.task.value.result); }
    if step.Release? && 0 <= s.pub.p.frameId { ReleaseForgetsOne(s.buf, s.pub.p.frameId); }
    if step.Take? { TakeMeans(s.buf, s.pub.p.frameId, s.pub.p.pts, step.now, s'.buf, step.found); }
  }

  /** The worker stores this result in step i. */
  predicate Stores(s: Pipe, step: Step, r: InferenceResult) {
    step.StoreCached? && s.task.Some? && s.task.value.DoneMarked? && s.task.value.result == r
  }

  lemma StoringCaches(s: Pipe, step: Step, s': Pipe, r: InferenceResult)
    requires Next(s, step, s') && Stores(s, step, r) && 0 <= r.frameId
    ensures IsCached(s'.buf, r)
  {
    StoringKeepsOthers(s.buf, r);
  }

  lemma RunStepKeepsResult(states: seq<Pipe>, steps: seq<Step>, k: nat, r: InferenceResult)
    requires IsRun(states, steps) && k < |steps| && 0 <= r.frameId
    requires IsCached(states[k].buf, r) && !Forgets(states[k], steps[k], r.frameId, r.expireAt)
    ensures IsCached(states[k + 1].buf, r)
  {
    RunKeepsInv(states, steps, k);
    StepKeepsResult(states[k], steps[k], states[k + 1], r);
  }

  /** Nothing takes the result away in the steps between i and j. */
  ghost predicate Undisturbed(states: seq<Pipe>, steps: seq<Step>, i: nat, j: nat, r: InferenceResult)
    requires j <= |steps| <= |states|
  {
    forall m :: i < m < j ==> !Forgets(states[m], steps[m], r.frameId, r.expireAt)
  }

  /** A result that is stored stays cached until it is handed out, expires, or its frame is released. */
  lemma {:induction false} StoredStays(states: seq<Pipe>, steps: seq<Step>, i: nat, j: nat, r: InferenceResult)
    requires IsRun(states, steps) && i < j < |states| && Stores(states[i], steps[i], r) && 0 <= r.frameId
    requires Undisturbed(states, steps, i, j, r)
    ensures IsCached(states[j].buf, r)
  {
    if j == i + 1 {
      StoringCaches(states[i], steps[i], states[j], r);
    } else {
      StoredStays(states, steps, i, j - 1, r);
      RunStepKeepsResult(states, steps, j - 1, r);
    }
  }

  lemma {:induction false} ReleasedGrows(states: seq<Pipe>, steps: seq<Step>, i: nat, j: nat)
    requires IsRun(states, steps) && i <= j < |states|
    ensures forall g :: g in states[i].h.released ==> g in states[j].h.released
  {
    if i < j {
      ReleasedGrows(states, steps, i, j - 1);
      assert Next(states[j - 1], steps[j - 1], states[j]);
    }
  }

  lemma ReleaseIsRemembered(states: seq<Pipe>, steps: seq<Step>, m: nat, j: nat)
    requires IsRun(states, steps) && m < j < |states| && steps[m].Release? && Hand(states[m].pub).Some?
    ensures Hand(states[m].pub).value in states[j].h.released
  {
    RunKeepsInv(states, steps, m);
    assert Next(states[m], steps[m], states[m + 1]);
    ReleasedGrows(states, steps, m + 1, j);
  }

  /** The frame of a packet that is still queued was not released earlier. */
  lemma NotReleasedBefore(states: seq<Pipe>, steps: seq<Step>, m: nat, j: nat)
    requires IsRun(states, steps) && m < j < |states| && states[j].pub.Located?
    ensures steps[m].Release? ==> Hand(states[m].pub) != Some(states[j].pub.p.frameId)
  {
    RunKeepsInv(states, steps, j);
    FrontIsBase(states[j]);
    if steps[m].Release? && Hand(states[m].pub).Some? {
      ReleaseIsRemembered(states, steps, m, j);
    }
  }

  /** So a result stored for a frame is embedded in its packet: when the publisher comes to the packet of that frame,
      with the timestamp the result has, before the result expires, it is handed a result of that timestamp, and this
      very one unless another cached result has it too; only another packet near in time can have taken it first. */
  lemma StoredResultReachesItsPacket(states: seq<Pipe>, steps: seq<Step>, i: nat, j: nat, r: InferenceResult)
    requires IsRun(states, steps) && i < j < |steps| && Stores(states[i], steps[i], r) && 0 <= r.frameId && 0 <= r.pts
    requires steps[j].Take? && steps[j].now <= r.expireAt
    requires states[j].pub.Located? && states[j].pub.p.frameId == r.frameId && states[j].pub.p.pts == r.pts
    requires forall m :: i < m < j && steps[m].Take? ==>
      steps[m].now <= r.expireAt && (steps[m].found.Some? ==> steps[m].found.value.frameId != r.frameId)
    ensures steps[j].found.Some? && steps[j].found.value.pts == r.pts
    ensures (forall k :: k in states[j].buf.cache && k != r.frameId ==> states[j].buf.cache[k].pts != r.pts) ==> steps[j].found == Some(r)
  {
    forall m | i < m < j ensures !Forgets(states[m], steps[m], r.frameId, r.expireAt) {
      NotReleasedBefore(states, steps, m, j);
    }
    StoredStays(states, steps, i, j, r);
    assert Next(states[j], steps[j], states[j + 1]);
    TakeMeans(states[j].buf, r.frameId, r.pts, steps[j].now, states[j + 1].buf, steps[j].found);
    assert IsNear(states[j].buf.cache, r.frameId, r.pts, steps[j].now);
  }
}
