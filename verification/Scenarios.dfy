/** Runs that show where the code departs from what its documentation says, and exactly when adding a stream
    again leads there. */
module Scenarios {
  import opened Common
  import opened StreamTypes
  import opened BufferModel
  import opened PullerModel
  import opened StreamPipeline
  import opened PipelineRuns
  import opened WorkerPool

  function PacketOf(n: nat): Packet { Packet(Video, n, n, 0) }

  function FrameOf(n: nat): Frame { Frame(n, n, true, Idle) }

  // One frame on its way: pulled, decoded at once, put into the buffer.

  function Pulled(s: Pipe): Pipe {
    var n := s.puller.nextId;
    s.(buf := EnqueuePacket(s.buf, PacketOf(n)), puller := AfterPull(s.puller, n, n),
       h := s.h.(enqueued := s.h.enqueued + [PacketOf(n)]))
  }

  function Decoded1(s: Pipe): Pipe {
    Pulled(s).(puller := Puller(s.puller.nextId + 1, [], [FrameOf(s.puller.nextId)], false))
  }

  function Arrived(s: Pipe): Pipe {
    Decoded1(s).(buf := EnqueueFrame(Pulled(s).buf, FrameOf(s.puller.nextId)), puller := Puller(s.puller.nextId + 1, [], [], false))
  }

  const PullStep: nat -> Step := n => PullVideo(n, n, 0)
  const DecodeStep: nat -> Step := n => Decode(Decoded(n, n, true))

  lemma FrameIsDecoded(s: Pipe)
    requires s.puller.pending == [] && s.puller.outbox == [] && !s.puller.stopped
    ensures Next(Pulled(s), DecodeStep(s.puller.nextId), Decoded1(s))
  {
    var n := s.puller.nextId;
    var m := PendingMeta(n, n, n);
    assert Pulled(s).puller.pending == [m];
    assert SamePts([m][0], Decoded(n, n, true)) && MatchIndex([m], Decoded(n, n, true)) == Some(0);
    assert Deliveries([m], Decoded(n, n, true)) == [FrameOf(n)];
  }

  lemma FrameArrives(s: Pipe)
    requires s.puller.pending == [] && s.puller.outbox == [] && !s.puller.stopped
    ensures Next(s, PullStep(s.puller.nextId), Pulled(s))
    ensures Next(Pulled(s), DecodeStep(s.puller.nextId), Decoded1(s))
    ensures Next(Decoded1(s), Deliver, Arrived(s))
  {
    FrameIsDecoded(s);
  }

  lemma OneMoreStep(states: seq<Pipe>, steps: seq<Step>, step: Step, s: Pipe)
    requires IsRun(states, steps) && Next(states[|steps|], step, s)
    ensures IsRun(states + [s], steps + [step])
  {
  }

  lemma OneMoreFrame(states: seq<Pipe>, steps: seq<Step>) returns (states': seq<Pipe>, steps': seq<Step>)
    requires IsRun(states, steps)
    requires states[|steps|].puller.pending == [] && states[|steps|].puller.outbox == [] && !states[|steps|].puller.stopped
    ensures IsRun(states', steps') && states'[|steps'|] == Arrived(states[|steps|])
  {
    var s := states[|steps|];
    var n := s.puller.nextId;
    FrameArrives(s);
    OneMoreStep(states, steps, PullStep(n), Pulled(s));
    OneMoreStep(states + [Pulled(s)], steps + [PullStep(n)], DecodeStep(n), Decoded1(s));
    OneMoreStep(states + [Pulled(s)] + [Decoded1(s)], steps + [PullStep(n)] + [DecodeStep(n)], Deliver, Arrived(s));
    states' := states + [Pulled(s)] + [Decoded1(s)] + [Arrived(s)];
    steps' := steps + [PullStep(n)] + [DecodeStep(n)] + [Deliver];
  }

  /** skills/modules/pipeline.md says no packet is published from the oldest decoded frame on until that
      frame is Done or Dropped. The gate only holds back frames being inferred: after two frames have
      arrived, the first is still Idle and its packet may be published. */
  lemma GateLetsIdleFramesPass() returns (states: seq<Pipe>, steps: seq<Step>)
    ensures IsRun(states, steps)
    ensures var b := states[|steps|].buf;
      && CanPublish(b, MIN_VIDEO_WATERMARK)
      && b.packets != [] && b.packets[0].media == Video && b.order != [] && b.order[0] == b.packets[0].frameId
      && b.order[0] in b.frames && b.frames[b.order[0]].decoded && b.frames[b.order[0]].state == Idle
  {
    states, steps := OneMoreFrame([START], []);
    states, steps := OneMoreFrame(states, steps);
    TwoFramesArrived();
  }

  const WITHOUT_IMAGE: Decoded := Decoded(0, 0, false)
  const NO_IMAGE: Pipe := Pulled(START).(puller := Puller(1, [], [Frame(0, 0, false, Idle)], false))
  const NO_IMAGE_ARRIVED: Pipe :=
    NO_IMAGE.(buf := EnqueueFrame(NO_IMAGE.buf, Frame(0, 0, false, Idle)), puller := Puller(1, [], [], false))

  lemma FrameWithoutImageIsDelivered()
    ensures Deliveries([PendingMeta(0, 0, 0)], WITHOUT_IMAGE) == [Frame(0, 0, false, Idle)]
    ensures Remaining([PendingMeta(0, 0, 0)], WITHOUT_IMAGE) == []
  {
    var pending := [PendingMeta(0, 0, 0)];
    assert SamePts(pending[0], WITHOUT_IMAGE) && MatchIndex(pending, WITHOUT_IMAGE) == Some(0);
  }

  lemma FrameWithoutImageIsDecoded()
    ensures Next(Pulled(START), Decode(WITHOUT_IMAGE), NO_IMAGE)
  {
    FrameWithoutImageIsDelivered();
    assert START.puller.pending == [];
    assert Pulled(START).puller == Puller(1, [PendingMeta(0, 0, 0)], [], false);
  }

  lemma FrameWithoutImageArrives()
    ensures Next(NO_IMAGE, Deliver, NO_IMAGE_ARRIVED)
  {
    assert NO_IMAGE.puller.outbox[1..] == [];
  }

  /** skills/modules/pipeline.md says that the gate waits for a decoded frame: here it opens for a video
      packet although none was ever buffered. */
  lemma GateOpensWithoutDecodedFrame() returns (states: seq<Pipe>, steps: seq<Step>)
    ensures IsRun(states, steps)
    ensures var b := states[|steps|].buf;
      CanPublish(b, MIN_VIDEO_WATERMARK) && b.packets != [] && b.packets[0].media == Video && !HasDecoded(b.frames, None)
  {
    FrameWithoutImageIsDecoded();
    FrameWithoutImageArrives();
    OneMoreStep([START], [], PullStep(0), Pulled(START));
    OneMoreStep([START] + [Pulled(START)], [] + [PullStep(0)], Decode(WITHOUT_IMAGE), NO_IMAGE);
    states, steps := [START] + [Pulled(START)] + [NO_IMAGE], [] + [PullStep(0)] + [Decode(WITHOUT_IMAGE)];
    OneMoreStep(states, steps, Deliver, NO_IMAGE_ARRIVED);
    states, steps := states + [NO_IMAGE_ARRIVED], steps + [Deliver];
    OneMoreStep(states, steps, PullStep(1), Pulled(NO_IMAGE_ARRIVED));
    states, steps := states + [Pulled(NO_IMAGE_ARRIVED)], steps + [PullStep(1)];
    assert Pulled(NO_IMAGE_ARRIVED).buf.frames == map[0 := Frame(0, 0, false, Idle)];
    GateWithoutDecodedFrameIff(states, steps, |steps|);
  }

  lemma TwoFramesArrived()
    ensures var b := Arrived(Arrived(START)).buf;
      && b.frames == map[0 := FrameOf(0), 1 := FrameOf(1)] && b.order == [0, 1] && b.packets == [PacketOf(0), PacketOf(1)]
      && CanPublish(b, MIN_VIDEO_WATERMARK)
  {
    var b := Arrived(Arrived(START)).buf;
    assert b.frames == map[0 := FrameOf(0), 1 := FrameOf(1)] && b.order == [0, 1] && b.packets == [PacketOf(0), PacketOf(1)];
    assert 1 in b.frames && b.frames[1].decoded;
    assert InferringId(b.frames, b.order).None?;
  }

  // ---------------------------------------------------------------------------------------------
  // Adding a removed stream again while its task is out
  // ---------------------------------------------------------------------------------------------

  function Put(s: Pool, inst: nat, p: Pipe): Pool { s.(pipes := s.pipes[inst := p]) }

  lemma FrameArrivesInPool(s: Pool, inst: nat)
    requires inst in s.pipes && s.pipes[inst].task == None
    requires s.pipes[inst].puller.pending == [] && s.pipes[inst].puller.outbox == [] && !s.pipes[inst].puller.stopped
    ensures var p := s.pipes[inst]; var n := p.puller.nextId;
      && PoolNext(s, Stream(inst, PullStep(n)), Put(s, inst, Pulled(p)))
      && PoolNext(Put(s, inst, Pulled(p)), Stream(inst, DecodeStep(n)), Put(s, inst, Decoded1(p)))
      && PoolNext(Put(s, inst, Decoded1(p)), Stream(inst, Deliver), Put(s, inst, Arrived(p)))
  {
    var p := s.pipes[inst];
    FrameArrives(p);
    assert With(s, inst, None) == p && With(Put(s, inst, Pulled(p)), inst, None) == Pulled(p);
    assert With(Put(s, inst, Decoded1(p)), inst, None) == Decoded1(p);
    assert Put(Put(s, inst, Pulled(p)), inst, Decoded1(p)) == Put(s, inst, Decoded1(p));
    assert Put(Put(s, inst, Decoded1(p)), inst, Arrived(p)) == Put(s, inst, Arrived(p));
  }

  /** A pipe whose newest frame was just selected. */
  function Chosen(p: Pipe, f: int): Pipe {
    p.(buf := p.buf.(frames := Mark(p.buf.frames, f)), h := p.h.(selected := p.h.selected + [f]))
  }

  lemma WorkerAcquires(s: Pool, w: nat, id: StreamId, f: int)
    requires id in s.entries && !s.entries[id].inflight && w !in s.workers && s.entries[id].inst in s.pipes
    requires s.pipes[s.entries[id].inst].task == None
    requires LastCandidate(s.pipes[s.entries[id].inst].buf.frames, s.pipes[s.entries[id].inst].buf.order) == Some(f)
    ensures var inst := s.entries[id].inst;
      PoolNext(s, AcquireTask(w, id),
               Put(s, inst, Chosen(s.pipes[inst], f)).(entries := s.entries[id := Entry(inst, true)],
                                                     workers := s.workers[w := Worker(id, inst, Acquired(f))]))
  {
    var inst := s.entries[id].inst;
    assert With(s, inst, None) == s.pipes[inst];
  }

  /** The old task runs into its missing stream: it is dropped and reported cancelled. */
  function Ended(p: Pipe, f: int): Pipe {
    p.(buf := SetState(SetState(p.buf, f, Running), f, Dropped))
  }

  lemma WorkerDrops(s: Pool, w: nat)
    requires w in s.workers && s.workers[w].task.Acquired? && s.workers[w].inst in s.pipes
    requires s.pipes[s.workers[w].inst].task == None && s.workers[w].id in s.entries
    ensures var wk := s.workers[w]; var f := wk.task.f; var p := s.pipes[wk.inst];
      var s1 := Put(s, wk.inst, p.(buf := SetState(p.buf, f, Running))).(workers := s.workers[w := wk.(task := Marked(f))]);
      var s2 := Put(s, wk.inst, Ended(p, f)).(workers := s.workers[w := wk.(task := Finishing(f))]);
      var s3 := Put(s, wk.inst, Ended(p, f)).(workers := s.workers - {w},
                                              entries := s.entries[wk.id := s.entries[wk.id].(inflight := false)]);
      PoolNext(s, Work(w, MarkRunning), s1) && PoolNext(s1, Work(w, StreamPipeline.Drop), s2) && PoolNext(s2, FinishTask(w), s3)
  {
    var wk := s.workers[w]; var f := wk.task.f; var p := s.pipes[wk.inst];
    var s1 := Put(s, wk.inst, p.(buf := SetState(p.buf, f, Running))).(workers := s.workers[w := wk.(task := Marked(f))]);
    var s2 := Put(s, wk.inst, Ended(p, f)).(workers := s.workers[w := wk.(task := Finishing(f))]);
    assert With(s, wk.inst, Some(Acquired(f))) == p.(task := Some(Acquired(f)));
    assert PutTask(s1, w, wk.id, wk.inst, Ended(p, f).(task := Some(Finishing(f)))) == s2;
    assert s2.workers - {w} == s.workers - {w};
  }

  /** Packet p goes out and its frame is released. */
  function Gone(s: Pipe, p: Packet): Pipe {
    s.(buf := ReleaseFrame(PopPacket(s.buf), p.frameId), pub := Waiting,
       h := s.h.(published := s.h.published + [p], released := s.h.released + [p.frameId]))
  }

  lemma FrontIsTaken(s: Pipe)
    requires s.pub == Waiting && !s.buf.stopped && CanPublish(s.buf, MIN_VIDEO_WATERMARK)
    requires s.buf.packets[0].media == Video && s.buf.packets[0].frameId >= 0 && s.buf.cache == map[]
    ensures var p := s.buf.packets[0];
      && Next(s, PassGate, s.(pub := GatePassed)) && Next(s.(pub := GatePassed), Peek, s.(pub := Holding(p)))
      && Next(s.(pub := Holding(p)), Locate, s.(pub := Located(p)))
      && Next(s.(pub := Located(p)), StreamPipeline.Take(0, None), s.(pub := Taken(p)))
  {
    assert Live(s.buf.cache, 0) == map[];
    assert s.h.taken + [] == s.h.taken;
  }

  /** Packet p is popped and its frame about to be released. */
  function Leaving(s: Pipe, p: Packet): Pipe {
    s.(buf := PopPacket(s.buf), pub := Popped(p), h := s.h.(published := s.h.published + [p]))
  }

  lemma FrontLeaves(s: Pipe, p: Packet)
    requires s.pub == Taken(p) && p.media == Video && p.frameId >= 0
    ensures Next(s, Pop, Leaving(s, p)) && Next(Leaving(s, p), Release, Gone(s, p))
  {
  }

  /** The events lead from one pool to the other. */
  ghost predicate Path(s: Pool, events: seq<Event>, s': Pool)
    decreases |events|
  {
    if events == [] then s' == s
    else PoolEnabled(s, events[0]) && Path(PoolApply(s, events[0]), events[1..], s')
  }

  lemma {:induction false} PathIsRun(s: Pool, events: seq<Event>, s': Pool) returns (states: seq<Pool>)
    requires Path(s, events, s')
    ensures |states| == |events| + 1 && states[0] == s && states[|events|] == s'
    ensures forall i :: 0 <= i < |events| ==> PoolNext(states[i], events[i], states[i + 1])
    decreases |events|
  {
    if events == [] {
      states := [s];
    } else {
      var rest := PathIsRun(PoolApply(s, events[0]), events[1..], s');
      states := [s] + rest;
      forall i | 0 <= i < |events| ensures PoolNext(states[i], events[i], states[i + 1]) {
        if i > 0 {
          assert PoolNext(rest[i - 1], events[1..][i - 1], rest[i]);
        }
      }
    }
  }

  lemma {:induction false} JoinPaths(s: Pool, es: seq<Event>, t: Pool, fs: seq<Event>, u: Pool)
    requires Path(s, es, t) && Path(t, fs, u)
    ensures Path(s, es + fs, u)
    decreases |es|
  {
    if es == [] {
      assert es + fs == fs;
    } else {
      assert (es + fs)[1..] == es[1..] + fs;
      JoinPaths(PoolApply(s, es[0]), es[1..], t, fs, u);
    }
  }

  lemma {:induction false} Path1(s: Pool, e: Event, t: Pool)
    requires PoolNext(s, e, t)
    ensures Path(s, [e], t)
  {
    assert [e][1..] == [];
  }

  lemma {:induction false} Path3(s: Pool, e: Event, t: Pool, f: Event, u: Pool, g: Event, v: Pool)
    requires PoolNext(s, e, t) && PoolNext(t, f, u) && PoolNext(u, g, v)
    ensures Path(s, [e, f, g], v)
  {
    Path1(s, e, t);
    Path1(t, f, u);
    Path1(u, g, v);
    JoinPaths(s, [e], t, [f], u);
    JoinPaths(s, [e] + [f], u, [g], v);
    assert [e] + [f] + [g] == [e, f, g];
  }

  lemma ArrivePath(s: Pool, inst: nat) returns (events: seq<Event>)
    ensures forall i :: 0 <= i < |events| ==> !events[i].Register?
    requires inst in s.pipes && s.pipes[inst].task == None
    requires s.pipes[inst].puller.pending == [] && s.pipes[inst].puller.outbox == [] && !s.pipes[inst].puller.stopped
    ensures Path(s, events, Put(s, inst, Arrived(s.pipes[inst])))
  {
    var p := s.pipes[inst];
    var n := p.puller.nextId;
    FrameArrivesInPool(s, inst);
    events := [Stream(inst, PullStep(n)), Stream(inst, DecodeStep(n)), Stream(inst, Deliver)];
    Path3(s, events[0], Put(s, inst, Pulled(p)), events[1], Put(s, inst, Decoded1(p)), events[2], Put(s, inst, Arrived(p)));
  }

  lemma LeavePath(s: Pool, inst: nat) returns (events: seq<Event>)
    requires inst in s.pipes && s.pipes[inst].task == None && s.pipes[inst].pub == Waiting && !s.pipes[inst].buf.stopped
    requires CanPublish(s.pipes[inst].buf, MIN_VIDEO_WATERMARK) && s.pipes[inst].buf.cache == map[]
    requires s.pipes[inst].buf.packets[0].media == Video && s.pipes[inst].buf.packets[0].frameId >= 0
    ensures forall i :: 0 <= i < |events| ==> !events[i].Register?
    ensures var q := s.pipes[inst]; var p := q.buf.packets[0];
      && Path(s, events, Put(s, inst, Leaving(q, p)))
      && PoolNext(Put(s, inst, Leaving(q, p)), Stream(inst, Release), Put(s, inst, Gone(q, p)))
  {
    var q := s.pipes[inst];
    var p := q.buf.packets[0];
    FrontIsTaken(q);
    FrontLeaves(q.(pub := Taken(p)), p);
    var popped := Leaving(q, p);
    var s1, s2, s3 := Put(s, inst, q.(pub := GatePassed)), Put(s, inst, q.(pub := Holding(p))), Put(s, inst, q.(pub := Located(p)));
    var s4, s5 := Put(s, inst, q.(pub := Taken(p))), Put(s, inst, popped);
    PipeStep(s, inst, q, PassGate, q.(pub := GatePassed));
    PipeStep(s, inst, q.(pub := GatePassed), Peek, q.(pub := Holding(p)));
    PipeStep(s, inst, q.(pub := Holding(p)), Locate, q.(pub := Located(p)));
    PipeStep(s, inst, q.(pub := Located(p)), StreamPipeline.Take(0, None), q.(pub := Taken(p)));
    PipeStep(s, inst, q.(pub := Taken(p)), Pop, popped);
    PipeStep(s, inst, popped, Release, Gone(q, p));
    assert Put(s, inst, q) == s;
    var first := [Stream(inst, PassGate), Stream(inst, Peek), Stream(inst, Locate)];
    var take, pop := Stream(inst, StreamPipeline.Take(0, None)), Stream(inst, Pop);
    Path3(s, first[0], s1, first[1], s2, first[2], s3);
    Path1(s3, take, s4);
    Path1(s4, pop, s5);
    JoinPaths(s, first, s3, [take], s4);
    JoinPaths(s, first + [take], s4, [pop], s5);
    events := first + [take] + [pop];
  }

  lemma PipeStep(s: Pool, inst: nat, p: Pipe, step: Step, p': Pipe)
    requires inst in s.pipes && p.task == None && OfStream(step) && Next(p, step, p')
    ensures PoolNext(Put(s, inst, p), Stream(inst, step), Put(s, inst, p'))
  {
    assert With(Put(s, inst, p), inst, None) == p;
    assert Put(Put(s, inst, p), inst, p') == Put(s, inst, p');
  }

  const S: StreamId := "s"

  const CHOSEN := Chosen(Arrived(START), 0)

  lemma FirstIsChosen()
    ensures CHOSEN.task == None && CHOSEN.pub == Waiting && CHOSEN.puller == Puller(1, [], [], false)
    ensures CHOSEN.buf == Buffer([PacketOf(0)], map[0 := FrameOf(0).(state := Selected)], [0], map[], 1, false)
    ensures LastCandidate(Arrived(START).buf.frames, Arrived(START).buf.order) == Some(0)
  {
    assert Arrived(START).buf.order == [0] && Candidate(Arrived(START).buf.frames, 0);
    assert CHOSEN.buf.frames == map[0 := FrameOf(0).(state := Selected)];
  }

  /** The pool after worker w took the first frame of the fresh context inst. */
  function Busy(s: Pool, id: StreamId, inst: nat, w: nat): Pool {
    Put(s, inst, CHOSEN).(entries := s.entries[id := Entry(inst, true)],
                          workers := s.workers[w := Worker(id, inst, Acquired(0))])
  }

  lemma FirstFrameIsTaken(s: Pool, id: StreamId, inst: nat, w: nat) returns (events: seq<Event>)
    requires id in s.entries && s.entries[id] == Entry(inst, false) && inst in s.pipes && s.pipes[inst] == START
    requires w !in s.workers
    ensures Path(s, events, Busy(s, id, inst, w)) && forall i :: 0 <= i < |events| ==> !events[i].Register?
  {
    FirstIsChosen();
    var arrive := ArrivePath(s, inst);
    var s1 := Put(s, inst, Arrived(START));
    WorkerAcquires(s1, w, id, 0);
    assert Put(s1, inst, CHOSEN) == Put(s, inst, CHOSEN);
    Path1(s1, AcquireTask(w, id), Busy(s, id, inst, w));
    events := arrive + [AcquireTask(w, id)];
    JoinPaths(s, arrive, s1, [AcquireTask(w, id)], Busy(s, id, inst, w));
  }

  /** The stream is added, a frame arrives, worker 0 takes it. */
  lemma FirstContext() returns (events: seq<Event>, s: Pool)
    ensures Path(EMPTY_POOL, events, s)
    ensures s == Pool(map[S := Entry(0, true)], map[0 := Worker(S, 0, Acquired(0))], map[0 := CHOSEN], map[0 := S])
  {
    var added := Pool(map[S := Entry(0, false)], map[], map[0 := START], map[0 := S]);
    assert PoolNext(EMPTY_POOL, Register(S, 0), added);
    Path1(EMPTY_POOL, Register(S, 0), added);
    var taken := FirstFrameIsTaken(added, S, 0, 0);
    s := Busy(added, S, 0, 0);
    events := [Register(S, 0)] + taken;
    JoinPaths(EMPTY_POOL, [Register(S, 0)], added, taken, s);
    assert s.entries == map[S := Entry(0, true)] && s.pipes == map[0 := CHOSEN];
  }

  /** The stream is removed and added again. */
  lemma AddedAgain(s: Pool) returns (events: seq<Event>, t: Pool)
    requires s == Pool(map[S := Entry(0, true)], map[0 := Worker(S, 0, Acquired(0))], map[0 := CHOSEN], map[0 := S])
    ensures Path(s, events, t) && t.workers == s.workers && t.entries == map[S := Entry(1, false)]
    ensures t.pipes == map[0 := CHOSEN, 1 := START]
  {
    var removed := s.(entries := s.entries - {S});
    t := removed.(entries := removed.entries[S := Entry(1, false)], pipes := removed.pipes[1 := START],
                  owner := removed.owner[1 := S]);
    assert PoolNext(s, Unregister(S), removed) && PoolNext(removed, Register(S, 1), t);
    Path1(s, Unregister(S), removed);
    Path1(removed, Register(S, 1), t);
    JoinPaths(s, [Unregister(S)], removed, [Register(S, 1)], t);
    events := [Unregister(S)] + [Register(S, 1)];
  }

  /** A frame arrives in the new context and worker 1 takes it. */
  lemma SecondContext(s: Pool) returns (events: seq<Event>, t: Pool)
    requires s == Pool(map[S := Entry(0, true)], map[0 := Worker(S, 0, Acquired(0))], map[0 := CHOSEN], map[0 := S])
    ensures Path(s, events, t)
    ensures t.entries == map[S := Entry(1, true)] && t.workers == map[0 := Worker(S, 0, Acquired(0)), 1 := Worker(S, 1, Acquired(0))]
    ensures t.pipes == map[0 := CHOSEN, 1 := CHOSEN]
  {
    var again, added := AddedAgain(s);
    var taken := FirstFrameIsTaken(added, S, 1, 1);
    t := Busy(added, S, 1, 1);
    events := again + taken;
    JoinPaths(s, again, added, taken, t);
  }

  lemma TwoKeys<V>(a: V, b: V, c: V)
    ensures map[0 := a, 1 := b] - {0} == map[1 := b]
    ensures map[0 := a, 1 := b][0 := c] == map[0 := c, 1 := b]
  {
  }

  /** Worker 0's task ends and clears the new context's flag. */
  lemma StaleTaskEnds(t: Pool) returns (events: seq<Event>, u: Pool)
    requires t.entries == map[S := Entry(1, true)] && t.workers == map[0 := Worker(S, 0, Acquired(0)), 1 := Worker(S, 1, Acquired(0))]
    requires t.pipes == map[0 := CHOSEN, 1 := CHOSEN]
    ensures Path(t, events, u)
    ensures u.entries == map[S := Entry(1, false)] && u.workers == map[1 := Worker(S, 1, Acquired(0))]
    ensures u.pipes == map[0 := Ended(CHOSEN, 0), 1 := CHOSEN]
  {
    FirstIsChosen();
    var w := Worker(S, 0, Acquired(0));
    WorkerDrops(t, 0);
    var s1 := Put(t, 0, CHOSEN.(buf := SetState(CHOSEN.buf, 0, Running))).(workers := t.workers[0 := w.(task := Marked(0))]);
    var s2 := Put(t, 0, Ended(CHOSEN, 0)).(workers := t.workers[0 := w.(task := Finishing(0))]);
    u := Put(t, 0, Ended(CHOSEN, 0)).(workers := t.workers - {0}, entries := t.entries[S := Entry(1, false)]);
    Path3(t, Work(0, MarkRunning), s1, Work(0, StreamPipeline.Drop), s2, FinishTask(0), u);
    events := [Work(0, MarkRunning), Work(0, StreamPipeline.Drop), FinishTask(0)];
    TwoKeys(Worker(S, 0, Acquired(0)), Worker(S, 1, Acquired(0)), w);
    TwoKeys(CHOSEN, CHOSEN, Ended(CHOSEN, 0));
    assert u.entries == map[S := Entry(1, false)] && u.workers == map[1 := Worker(S, 1, Acquired(0))];
    assert u.pipes == map[0 := Ended(CHOSEN, 0), 1 := CHOSEN];
  }

  const LATER := Chosen(Arrived(CHOSEN), 1)

  lemma SecondIsChosen()
    ensures LATER.task == None && LATER.pub == Waiting
    ensures LATER.buf == Buffer([PacketOf(0), PacketOf(1)],
                                map[0 := FrameOf(0).(state := Done), 1 := FrameOf(1).(state := Selected)], [0, 1], map[], 2, false)
    ensures LastCandidate(Arrived(CHOSEN).buf.frames, Arrived(CHOSEN).buf.order) == Some(1)
  {
    FirstIsChosen();
    var b := Arrived(CHOSEN).buf;
    assert b.order == [0, 1] && Candidate(b.frames, 1);
    assert b.frames == map[0 := FrameOf(0).(state := Selected), 1 := FrameOf(1)];
    assert LATER.buf.frames == map[0 := FrameOf(0).(state := Done), 1 := FrameOf(1).(state := Selected)];
  }

  lemma FirstIsPublishable()
    ensures LATER.buf.packets[0] == PacketOf(0) && CanPublish(LATER.buf, MIN_VIDEO_WATERMARK)
    ensures 0 !in Gone(LATER, PacketOf(0)).buf.frames
  {
    SecondIsChosen();
    assert 1 in LATER.buf.frames && LATER.buf.frames[1].decoded;
    assert InferringId(LATER.buf.frames, [0, 1]) == Some(1);
  }

  /** The pool after worker x took the second frame of context inst. */
  function BusyAgain(s: Pool, id: StreamId, inst: nat, x: nat): Pool {
    Put(s, inst, LATER).(entries := s.entries[id := Entry(inst, true)], workers := s.workers[x := Worker(id, inst, Acquired(1))])
  }

  /** A frame arrives after the one that is being inferred, and another worker takes it. */
  lemma SecondFrameIsTaken(s: Pool, id: StreamId, inst: nat, x: nat) returns (events: seq<Event>)
    requires id in s.entries && s.entries[id] == Entry(inst, false) && inst in s.pipes && s.pipes[inst] == CHOSEN
    requires x !in s.workers
    ensures Path(s, events, BusyAgain(s, id, inst, x)) && forall i :: 0 <= i < |events| ==> !events[i].Register?
  {
    FirstIsChosen();
    SecondIsChosen();
    var arrive := ArrivePath(s, inst);
    var s1 := Put(s, inst, Arrived(CHOSEN));
    WorkerAcquires(s1, x, id, 1);
    assert Put(s1, inst, LATER) == Put(s, inst, LATER);
    Path1(s1, AcquireTask(x, id), BusyAgain(s, id, inst, x));
    events := arrive + [AcquireTask(x, id)];
    JoinPaths(s, arrive, s1, [AcquireTask(x, id)], BusyAgain(s, id, inst, x));
  }

  const TWO_WORKERS := map[1 := Worker(S, 1, Acquired(0)), 2 := Worker(S, 1, Acquired(1))]

  /** Another frame arrives and worker 2 takes it. */
  lemma SecondTaskIsTaken(u: Pool) returns (events: seq<Event>, v: Pool)
    requires u.entries == map[S := Entry(1, false)] && u.workers == map[1 := Worker(S, 1, Acquired(0))]
    requires u.pipes == map[0 := Ended(CHOSEN, 0), 1 := CHOSEN]
    ensures Path(u, events, v) && v.workers == TWO_WORKERS && 1 in v.pipes && v.pipes[1] == LATER
  {
    events := SecondFrameIsTaken(u, S, 1, 2);
    v := BusyAgain(u, S, 1, 2);
  }

  /** Worker 1 has yet to infer on frame 0 of context 1 and worker 2 has another task of that context; the
      publisher is about to release frame 0, and then it is gone. */
  predicate LosesFrame(before: Pool, last: Pool) {
    && before.workers == last.workers == TWO_WORKERS
    && 1 in before.pipes && 0 in before.pipes[1].buf.frames && Hand(before.pipes[1].pub) == Some(0)
    && 1 in last.pipes && 0 !in last.pipes[1].buf.frames
  }

  /** The first frame is published. */
  lemma FirstFrameIsLost(u: Pool) returns (events: seq<Event>, before: Pool, v: Pool)
    requires u.workers == TWO_WORKERS && 1 in u.pipes && u.pipes[1] == LATER
    ensures Path(u, events, before) && PoolNext(before, Stream(1, Release), v) && LosesFrame(before, v)
  {
    SecondIsChosen();
    FirstIsPublishable();
    events := LeavePath(u, 1);
    before, v := Put(u, 1, Leaving(LATER, PacketOf(0))), Put(u, 1, Gone(LATER, PacketOf(0)));
  }

  lemma BusyStreamIsReAdded() returns (path: seq<Event>, before: Pool, last: Pool)
    ensures Path(EMPTY_POOL, path, before) && PoolNext(before, Stream(1, Release), last) && LosesFrame(before, last)
  {
    var e1, s := FirstContext();
    var e2, t := SecondContext(s);
    var e3, u := StaleTaskEnds(t);
    var e4, v := SecondTaskIsTaken(u);
    JoinPaths(EMPTY_POOL, e1, s, e2, t);
    JoinPaths(EMPTY_POOL, e1 + e2, t, e3, u);
    JoinPaths(EMPTY_POOL, e1 + e2 + e3, u, e4, v);
    var e5;
    e5, before, last := FirstFrameIsLost(v);
    path := e1 + e2 + e3 + e4 + e5;
    JoinPaths(EMPTY_POOL, e1 + e2 + e3 + e4, v, e5, before);
  }

  /** Removing a stream and adding it again while its task is out: two workers end up with tasks of the
      new context, and the last event releases the frame that worker 1 has yet to infer on. So
      InferScheduler.h's "only one in-flight inference per stream" needs the hypothesis NeverReAdded. */
  lemma ReAddingABusyStreamLosesAFrame() returns (states: seq<Pool>, events: seq<Event>)
    ensures PoolRun(states, events) && !NeverReAdded(states, events)
    ensures events != [] && events[|events| - 1] == Stream(1, Release)
    ensures LosesFrame(states[|events| - 1], states[|events|])
  {
    var path, before, last := BusyStreamIsReAdded();
    states := RunOf(path, before, Stream(1, Release), last);
    events := path + [Stream(1, Release)];
    assert 1 in last.workers && 2 in last.workers && last.workers[1].id == last.workers[2].id;
    TwoTasksNeedReAdding(states, events, 1, 2);
  }

  /** A path from the empty pool and one more step, as a run. */
  lemma {:induction false} RunOf(path: seq<Event>, before: Pool, e: Event, last: Pool) returns (states: seq<Pool>)
    requires Path(EMPTY_POOL, path, before) && PoolNext(before, e, last)
    ensures PoolRun(states, path + [e]) && states[|path|] == before && states[|path| + 1] == last
  {
    var upTo := PathIsRun(EMPTY_POOL, path, before);
    states := upTo + [last];
    forall i | 0 <= i < |path + [e]| ensures PoolNext(states[i], (path + [e])[i], states[i + 1]) {
      if i < |path| { assert PoolNext(upTo[i], path[i], upTo[i + 1]); }
    }
  }

  lemma {:induction false} TwoTasksNeedReAdding(states: seq<Pool>, events: seq<Event>, v: nat, w: nat)
    requires PoolRun(states, events) && v != w
    requires v in states[|events|].workers && w in states[|events|].workers
    requires states[|events|].workers[v].id == states[|events|].workers[w].id
    ensures !NeverReAdded(states, events)
  {
    if NeverReAdded(states, events) {
      PoolRunKeepsInv(states, events, |events|);
    }
  }

  // ---------------------------------------------------------------------------------------------
  // Exactly when re-adding is safe
  // ---------------------------------------------------------------------------------------------

  /** A path on which no other busy stream is added again. */
  ghost predicate CarefulPath(s: Pool, events: seq<Event>, s': Pool)
    decreases |events|
  {
    if events == [] then s' == s
    else PoolEnabled(s, events[0]) && ReAddsOnlyWhenIdle(s, events[0]) && CarefulPath(PoolApply(s, events[0]), events[1..], s')
  }

  lemma {:induction false} PathIsCareful(s: Pool, events: seq<Event>, s': Pool)
    requires Path(s, events, s') && forall i :: 0 <= i < |events| ==> !events[i].Register?
    ensures CarefulPath(s, events, s')
    decreases |events|
  {
    if events != [] {
      PathIsCareful(PoolApply(s, events[0]), events[1..], s');
    }
  }

  lemma {:induction false} CarefulPathKeepsInv(s: Pool, events: seq<Event>, s': Pool)
    requires PoolInv(s) && CarefulPath(s, events, s')
    ensures PoolInv(s')
    decreases |events|
  {
    if events != [] {
      PoolKeepsInv(s, events[0], PoolApply(s, events[0]));
      CarefulPathKeepsInv(PoolApply(s, events[0]), events[1..], s');
    }
  }

  /** The promise of InferScheduler.h broken: two workers infer on one stream. */
  predicate TwoTasksOut(s: Pool, id: StreamId) {
    exists v, w :: v in s.workers && w in s.workers && v != w && s.workers[v].id == s.workers[w].id == id
  }

  lemma {:induction false} FreshNumber(used: set<nat>) returns (w: nat)
    ensures forall k :: k in used ==> k < w
    decreases |used|
  {
    if k :| k in used {
      w := FreshNumber(used - {k});
      w := Max(w, k + 1);
      assert forall j :: j in used ==> j == k || j in used - {k};
    } else {
      w := 0;
    }
  }

  /** A frame arrives in the new context and another worker takes it. */
  lemma SecondTaskStarts(s: Pool, id: StreamId, inst: nat) returns (events: seq<Event>, t: Pool)
    requires id in s.entries && s.entries[id] == Entry(inst, false) && inst in s.pipes && s.pipes[inst] == START
    requires TaskOut(s, id)
    ensures CarefulPath(s, events, t) && TwoTasksOut(t, id)
  {
    var w := FreshNumber(s.workers.Keys);
    assert w !in s.workers;
    events := FirstFrameIsTaken(s, id, inst, w);
    t := Busy(s, id, inst, w);
    PathIsCareful(s, events, t);
    var v :| v in s.workers && s.workers[v].id == id;
    assert v in t.workers && w in t.workers && v != w;
  }

  ghost predicate LeadsToTwoTasks(s: Pool, events: seq<Event>, t: Pool, id: StreamId) {
    CarefulPath(s, events, t) && TwoTasksOut(t, id)
  }

  /** Adding a stream can lead to two tasks on it, without any further such addition, if and only if one of
      its tasks is out when it is added. */
  lemma ReAddingIsSafeIffIdle(s: Pool, id: StreamId, inst: nat, s': Pool)
    requires PoolInv(s) && PoolNext(s, Register(id, inst), s')
    ensures (exists events, t :: LeadsToTwoTasks(s', events, t, id)) <==> TaskOut(s, id)
  {
    if TaskOut(s, id) {
      assert TaskOut(s', id);
      var events, t := SecondTaskStarts(s', id, inst);
      assert LeadsToTwoTasks(s', events, t, id);
    } else {
      PoolKeepsInv(s, Register(id, inst), s');
      forall events, t | CarefulPath(s', events, t) ensures !LeadsToTwoTasks(s', events, t, id) {
        CarefulPathKeepsInv(s', events, t);
      }
    }
  }

  // ---------------------------------------------------------------------------------------------
  // Exactly when re-adding can lose a frame
  // ---------------------------------------------------------------------------------------------

  predicate Unfinished(t: Task) { !t.DoneMarked? && !t.Finishing? }

  /** Would the release that is due in context inst take the frame of a task that is not done with it? */
  ghost predicate ReleasesInUse(s: Pool, inst: nat) {
    && PoolEnabled(s, Stream(inst, Release))
    && exists w :: w in s.workers && s.workers[w].inst == inst && Unfinished(s.workers[w].task)
                   && Hand(s.pipes[inst].pub) == Some(s.workers[w].task.f)
  }

  ghost predicate LeadsToLoss(s: Pool, events: seq<Event>, t: Pool, inst: nat) {
    CarefulPath(s, events, t) && ReleasesInUse(t, inst)
  }

  /** How far a task is from being reported. */
  function ToGo(t: Task): nat {
    match t case Acquired(_) => 3 case Marked(_) => 1 case Detected(_, _) => 3 case DoneMarked(_, _) => 1 case Finishing(_) => 0
  }

  function NextOf(t: Task): Step
    requires !t.Finishing?
  {
    match t
    case Acquired(_) => MarkRunning
    case Marked(_) => StreamPipeline.Drop
    case Detected(_, _) => MarkDone
    case DoneMarked(_, _) => StoreCached
  }

  lemma TaskMovesOn(s: Pool, v: nat) returns (t: Pool)
    requires v in s.workers && s.workers[v].inst in s.pipes && !s.workers[v].task.Finishing?
    ensures PoolNext(s, Work(v, NextOf(s.workers[v].task)), t) && t.entries == s.entries && v in t.workers
    ensures t.workers == s.workers[v := t.workers[v]] && ToGo(t.workers[v].task) < ToGo(s.workers[v].task)
    ensures t.workers[v].id == s.workers[v].id && t.workers[v].inst == s.workers[v].inst && t.workers[v].inst in t.pipes
    ensures forall i :: i in s.pipes && i != s.workers[v].inst ==> i in t.pipes && t.pipes[i] == s.pipes[i]
  {
    t := PoolApply(s, Work(v, NextOf(s.workers[v].task)));
  }

  /** Every task can be brought to its end, wherever its worker stands. */
  lemma {:induction false} TaskEnds(s: Pool, v: nat) returns (events: seq<Event>, t: Pool)
    requires v in s.workers && s.workers[v].inst in s.pipes && s.workers[v].id in s.entries
    ensures Path(s, events, t) && forall i :: 0 <= i < |events| ==> !events[i].Register?
    ensures t.workers == s.workers - {v}
    ensures var id := s.workers[v].id; t.entries == s.entries[id := s.entries[id].(inflight := false)]
    ensures forall i :: i in s.pipes && i != s.workers[v].inst ==> i in t.pipes && t.pipes[i] == s.pipes[i]
    decreases ToGo(s.workers[v].task)
  {
    if s.workers[v].task.Finishing? {
      t := PoolApply(s, FinishTask(v));
      events := [FinishTask(v)];
      Path1(s, FinishTask(v), t);
    } else {
      var step := Work(v, NextOf(s.workers[v].task));
      var u := TaskMovesOn(s, v);
      var rest;
      rest, t := TaskEnds(u, v);
      Path1(s, step, u);
      JoinPaths(s, [step], u, rest, t);
      events := [step] + rest;
      assert s.workers[v := u.workers[v]] - {v} == s.workers - {v};
    }
  }

  lemma LastOfFirstFrame(s: Pool, id: StreamId, inst: nat, w: nat)
    requires inst in s.pipes && s.pipes[inst] == LATER
    requires w in s.workers && s.workers[w] == Worker(id, inst, Acquired(0))
    ensures PoolEnabled(Put(s, inst, Leaving(LATER, PacketOf(0))), Stream(inst, Release))
         ==> ReleasesInUse(Put(s, inst, Leaving(LATER, PacketOf(0))), inst)
  {
    var t := Put(s, inst, Leaving(LATER, PacketOf(0)));
    assert w in t.workers && t.workers[w] == Worker(id, inst, Acquired(0));
  }

  /** The first one is then published, up to its release. */
  lemma FirstFrameLeaves(s: Pool, id: StreamId, inst: nat, w: nat) returns (events: seq<Event>, t: Pool)
    requires inst in s.pipes && s.pipes[inst] == LATER
    requires w in s.workers && s.workers[w] == Worker(id, inst, Acquired(0))
    ensures Path(s, events, t) && ReleasesInUse(t, inst) && forall i :: 0 <= i < |events| ==> !events[i].Register?
  {
    events, t := FirstFrameIsPopped(s, inst);
    LastOfFirstFrame(s, id, inst, w);
  }

  lemma FirstFrameIsPopped(s: Pool, inst: nat) returns (events: seq<Event>, t: Pool)
    requires inst in s.pipes && s.pipes[inst] == LATER
    ensures Path(s, events, t) && t == Put(s, inst, Leaving(LATER, PacketOf(0))) && PoolEnabled(t, Stream(inst, Release))
    ensures forall i :: 0 <= i < |events| ==> !events[i].Register?
  {
    SecondIsChosen();
    FirstIsPublishable();
    events := LeavePath(s, inst);
    t := Put(s, inst, Leaving(LATER, PacketOf(0)));
  }

  /** The frame that worker w took first is lost when its stream has a second task. */
  lemma TakenFrameIsLost(s: Pool, id: StreamId, inst: nat, w: nat) returns (events: seq<Event>, t: Pool)
    requires id in s.entries && s.entries[id] == Entry(inst, false) && inst in s.pipes && s.pipes[inst] == CHOSEN
    requires w in s.workers && s.workers[w] == Worker(id, inst, Acquired(0))
    ensures Path(s, events, t) && ReleasesInUse(t, inst) && forall i :: 0 <= i < |events| ==> !events[i].Register?
  {
    var x := FreshNumber(s.workers.Keys);
    var again := SecondFrameIsTaken(s, id, inst, x);
    var leaves;
    leaves, t := FirstFrameLeaves(BusyAgain(s, id, inst, x), id, inst, w);
    JoinPaths(s, again, BusyAgain(s, id, inst, x), leaves, t);
    events := again + leaves;
  }

  lemma BusyReAddingLeadsToLoss(s: Pool, id: StreamId, inst: nat, s': Pool) returns (events: seq<Event>, t: Pool)
    requires PoolInv(s) && PoolNext(s, Register(id, inst), s') && TaskOut(s, id)
    ensures LeadsToLoss(s', events, t, inst)
  {
    var v :| v in s.workers && s.workers[v].id == id;
    var w := FreshNumber(s'.workers.Keys);
    var taken := FirstFrameIsTaken(s', id, inst, w);
    var busy := Busy(s', id, inst, w);
    assert s.workers[v].inst in s.pipes && s.workers[v].inst != inst;
    var rest;
    rest, t := OldTaskEndsFirst(busy, id, inst, v, w);
    JoinPaths(s', taken, busy, rest, t);
    events := taken + rest;
    PathIsCareful(s', events, t);
  }

  lemma OldTaskEndsFirst(s: Pool, id: StreamId, inst: nat, v: nat, w: nat) returns (events: seq<Event>, t: Pool)
    requires id in s.entries && s.entries[id] == Entry(inst, true) && inst in s.pipes && s.pipes[inst] == CHOSEN
    requires w in s.workers && s.workers[w] == Worker(id, inst, Acquired(0))
    requires v in s.workers && v != w && s.workers[v].id == id && s.workers[v].inst in s.pipes && s.workers[v].inst != inst
    ensures Path(s, events, t) && ReleasesInUse(t, inst) && forall i :: 0 <= i < |events| ==> !events[i].Register?
  {
    var ends, ended := TaskEnds(s, v);
    var rest;
    rest, t := TakenFrameIsLost(ended, id, inst, w);
    JoinPaths(s, ends, ended, rest, t);
    events := ends + rest;
  }

  lemma {:induction false} RunGoesOn(states: seq<Pool>, events: seq<Event>, more: seq<Event>, t: Pool)
    returns (states': seq<Pool>, events': seq<Event>)
    requires PoolRun(states, events) && NeverReAdded(states, events) && CarefulPath(states[|events|], more, t)
    ensures PoolRun(states', events') && NeverReAdded(states', events') && states'[|events'|] == t
    decreases |more|
  {
    if more == [] {
      states', events' := states, events;
    } else {
      var next := PoolApply(states[|events|], more[0]);
      OneMoreEvent(states, events, more[0], next);
      states', events' := RunGoesOn(states + [next], events + [more[0]], more[1..], t);
    }
  }

  lemma OneMoreEvent(states: seq<Pool>, events: seq<Event>, e: Event, s: Pool)
    requires PoolRun(states, events) && NeverReAdded(states, events)
    requires PoolNext(states[|events|], e, s) && ReAddsOnlyWhenIdle(states[|events|], e)
    ensures PoolRun(states + [s], events + [e]) && NeverReAdded(states + [s], events + [e])
  {
  }

  /** No careful run comes to such a release. */
  lemma CarefulRunsLoseNothing(states: seq<Pool>, events: seq<Event>, inst: nat)
    requires PoolRun(states, events) && NeverReAdded(states, events)
    ensures !ReleasesInUse(states[|events|], inst)
  {
    var s := states[|events|];
    if ReleasesInUse(s, inst) {
      var e := Stream(inst, Release);
      OneMoreEvent(states, events, e, PoolApply(s, e));
      PoolReleaseIsSafe(states + [PoolApply(s, e)], events + [e], |events|, inst, Hand(s.pipes[inst].pub).value);
    }
  }

  /** In any run without such an addition so far: adding a stream can lead to the release of a frame that a
      worker is not done with, if and only if one of the stream's tasks is out when it is added. */
  lemma ReAddingLosesAFrameIff(states: seq<Pool>, events: seq<Event>, id: StreamId, inst: nat, s': Pool)
    requires PoolRun(states, events) && NeverReAdded(states, events) && PoolNext(states[|events|], Register(id, inst), s')
    ensures (exists more, t, i :: LeadsToLoss(s', more, t, i)) <==> TaskOut(states[|events|], id)
  {
    if TaskOut(states[|events|], id) {
      PoolRunKeepsInv(states, events, |events|);
      var more, t := BusyReAddingLeadsToLoss(states[|events|], id, inst, s');
    } else {
      OneMoreEvent(states, events, Register(id, inst), s');
      forall more, t, i | CarefulPath(s', more, t) ensures !LeadsToLoss(s', more, t, i) {
        var states', events' := RunGoesOn(states + [s'], events + [Register(id, inst)], more, t);
        CarefulRunsLoseNothing(states', events', i);
      }
    }
  }
}
