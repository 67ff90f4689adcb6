/** The inference workers and the scheduler's in-flight flags over all streams: why every stream sees
    at most one task at a time, and so behaves as StreamPipeline says. */
module WorkerPool {
  import opened Common
  import opened StreamTypes
  import opened StreamPipeline
  import opened PipelineRuns

  type StreamId = string

  /** A scheduler entry; `inst` numbers the stream context whose buffer it holds. */
  datatype Entry = Entry(inst: nat, inflight: bool)

  /** A worker between acquiring a task and reporting it finished. */
  datatype Worker = Worker(id: StreamId, inst: nat, task: Task)

  /** All contexts ever built, by number; `owner` is the stream id each was built for. */
  datatype Pool = Pool(entries: map<StreamId, Entry>, workers: map<nat, Worker>, pipes: map<nat, Pipe>, owner: map<nat, StreamId>)

  const EMPTY_POOL := Pool(map[], map[], map[], map[])

  datatype Event =
    | Register(id: StreamId, inst: nat)
    | Replace(id: StreamId, inst: nat)
    | Unregister(id: StreamId)
    | Stream(inst: nat, step: Step)
    | AcquireTask(w: nat, id: StreamId)
    | Work(w: nat, step: Step)
    | FinishTask(w: nat)

  predicate OfStream(step: Step) {
    || step.PullVideo? || step.PullAudio? || step.Decode? || step.Deliver? || step.CloseConnection?
    || step.StopPuller? || step.StopBuffer?
    || step.PassGate? || step.Peek? || step.Locate? || step.Take? || step.Pop? || step.Release?
  }

  predicate OfWorker(step: Step) {
    step.MarkRunning? || step.Drop? || step.Detect? || step.MarkDone? || step.StoreCached?
  }

  /** The context's pipe, with the given task plugged in. */
  function With(pool: Pool, inst: nat, task: Option<Task>): Pipe
    requires inst in pool.pipes
  {
    pool.pipes[inst].(task := task)
  }

  ghost predicate PoolEnabled(s: Pool, e: Event) {
    match e
    case Register(id, inst) => id !in s.entries && inst !in s.pipes && inst !in s.owner
    case Replace(id, inst) => id in s.entries && inst !in s.pipes && inst !in s.owner
    case Unregister(id) => true
    case Stream(inst, step) => OfStream(step) && inst in s.pipes && Enabled(With(s, inst, None), step)
    case AcquireTask(w, id) =>
      && w !in s.workers && id in s.entries && !s.entries[id].inflight
      && s.entries[id].inst in s.pipes && Enabled(With(s, s.entries[id].inst, None), Acquire)
    case Work(w, step) =>
      && OfWorker(step) && w in s.workers && s.workers[w].inst in s.pipes
      && Enabled(With(s, s.workers[w].inst, Some(s.workers[w].task)), step)
    case FinishTask(w) => w in s.workers && s.workers[w].task.Finishing?
  }

  /** The pool after context `inst` moved to p and worker w to its task. */
  function PutTask(s: Pool, w: nat, id: StreamId, inst: nat, p: Pipe): Pool {
    match p.task
    case None => s
    case Some(t) => s.(workers := s.workers[w := Worker(id, inst, t)], pipes := s.pipes[inst := p.(task := None)])
  }

  ghost function PoolApply(s: Pool, e: Event): Pool
    requires PoolEnabled(s, e)
  {
    match e
    case Register(id, inst) =>
      // upsertStream of a stream without an entry: a new context, not in flight
      s.(entries := s.entries[id := Entry(inst, false)], pipes := s.pipes[inst := START], owner := s.owner[inst := id])
    case Replace(id, inst) =>
      // upsertStream of a stream that has one: the buffer is replaced, the flag is kept
      s.(entries := s.entries[id := s.entries[id].(inst := inst)], pipes := s.pipes[inst := START], owner := s.owner[inst := id])
    case Unregister(id) => s.(entries := s.entries - {id})
    case Stream(inst, step) => s.(pipes := s.pipes[inst := Apply(With(s, inst, None), step)])
    case AcquireTask(w, id) =>
      var inst := s.entries[id].inst;
      PutTask(s.(entries := s.entries[id := Entry(inst, true)]), w, id, inst, Apply(With(s, inst, None), Acquire))
    case Work(w, step) =>
      var worker := s.workers[w];
      PutTask(s, w, worker.id, worker.inst, Apply(With(s, worker.inst, Some(worker.task)), step))
    case FinishTask(w) =>
      // completeTask and cancelTask look only at the stream id
      var id := s.workers[w].id;
      s.(workers := s.workers - {w},
         entries := if id in s.entries then s.entries[id := s.entries[id].(inflight := false)] else s.entries)
  }

  ghost predicate PoolNext(s: Pool, e: Event, s': Pool) {
    PoolEnabled(s, e) && s' == PoolApply(s, e)
  }

  predicate TaskOut(s: Pool, id: StreamId) {
    exists w :: w in s.workers && s.workers[w].id == id
  }

  /** The hypothesis: a stream that was removed is not added again while a task of its is still out. */
  predicate ReAddsOnlyWhenIdle(s: Pool, e: Event) {
    e.Register? ==> !TaskOut(s, e.id)
  }

  /** Each stream id has at most one task out, and its entry (if any) is flagged while it does. */
  ghost predicate OneInFlight(s: Pool) {
    && (forall v, w :: v in s.workers && w in s.workers && s.workers[v].id == s.workers[w].id ==> v == w)
    && (forall w :: w in s.workers && s.workers[w].id in s.entries ==> s.entries[s.workers[w].id].inflight)
  }

  ghost predicate Owned(s: Pool) {
    && (forall id :: id in s.entries ==>
          s.entries[id].inst in s.pipes && s.entries[id].inst in s.owner && s.owner[s.entries[id].inst] == id)
    && (forall w :: w in s.workers ==>
          s.workers[w].inst in s.pipes && s.workers[w].inst in s.owner && s.owner[s.workers[w].inst] == s.workers[w].id)
    && (forall i :: i in s.pipes ==> s.pipes[i].task == None)
  }

  ghost predicate PoolInv(s: Pool) { OneInFlight(s) && Owned(s) }

  /** The task of one context: that of the worker busy with it. */
  ghost function TaskOf(s: Pool, inst: nat): Option<Task> {
    if exists w :: w in s.workers && s.workers[w].inst == inst
    then (var w :| w in s.workers && s.workers[w].inst == inst; Some(s.workers[w].task))
    else None
  }

  /** How one context looks to its own threads. */
  ghost function View(s: Pool, inst: nat): Pipe
    requires inst in s.pipes
  {
    With(s, inst, TaskOf(s, inst))
  }

  // ---------------------------------------------------------------------------------------------
  // One task per stream
  // ---------------------------------------------------------------------------------------------

  lemma PoolKeepsInv(s: Pool, e: Event, s': Pool)
    requires PoolInv(s) && PoolNext(s, e, s') && ReAddsOnlyWhenIdle(s, e)
    ensures PoolInv(s')
  {
    KeepsOneInFlight(s, e, s');
    KeepsOwned(s, e, s');
  }

  lemma KeepsOneInFlight(s: Pool, e: Event, s': Pool)
    requires OneInFlight(s) && PoolNext(s, e, s') && ReAddsOnlyWhenIdle(s, e)
    ensures OneInFlight(s')
  {
  }

  lemma KeepsOwned(s: Pool, e: Event, s': Pool)
    requires Owned(s) && PoolNext(s, e, s')
    ensures Owned(s')
  {
    match e
    case Stream(inst, step) => StreamStepsIgnoreTask(With(s, inst, None), step, None);
    case Work(w, step) => WorkerStepsKeepTask(With(s, s.workers[w].inst, Some(s.workers[w].task)), step);
    case _ =>
  }

  // ---------------------------------------------------------------------------------------------
  // Every context runs as StreamPipeline says
  // ---------------------------------------------------------------------------------------------

  /** Puller and publisher steps neither read nor write the task. */
  lemma StreamStepsIgnoreTask(p: Pipe, step: Step, t: Option<Task>)
    requires OfStream(step) && Enabled(p, step)
    ensures Apply(p, step).task == p.task
    ensures Enabled(p.(task := t), step) && Apply(p.(task := t), step) == Apply(p, step).(task := t)
  {
  }

  lemma WorkerStepsKeepTask(p: Pipe, step: Step)
    requires OfWorker(step) && Enabled(p, step)
    ensures Apply(p, step).task.Some?
  {
  }

  lemma TaskOfIsUnique(s: Pool, inst: nat)
    requires PoolInv(s)
    ensures forall w :: w in s.workers && s.workers[w].inst == inst ==> TaskOf(s, inst) == Some(s.workers[w].task)
    ensures (forall w :: w in s.workers ==> s.workers[w].inst != inst) ==> TaskOf(s, inst) == None
  {
  }

  predicate BusyWith(s: Pool, w: nat, inst: nat) { w in s.workers && s.workers[w].inst == inst }

  lemma SameTask(s: Pool, s': Pool, inst: nat)
    requires PoolInv(s) && PoolInv(s')
    requires forall w :: BusyWith(s, w, inst) <==> BusyWith(s', w, inst)
    requires forall w :: BusyWith(s, w, inst) && BusyWith(s', w, inst) ==> s.workers[w].task == s'.workers[w].task
    ensures TaskOf(s, inst) == TaskOf(s', inst)
  {
    TaskOfIsUnique(s, inst);
    TaskOfIsUnique(s', inst);
    if w :| BusyWith(s, w, inst) {
      assert BusyWith(s', w, inst);
    } else {
      assert forall w :: w in s.workers ==> !BusyWith(s, w, inst);
      assert forall w :: w in s'.workers ==> !BusyWith(s', w, inst);
    }
  }

  /** The step a context's own threads see in a pool event, if any. */
  function StepOf(s: Pool, e: Event, inst: nat): Option<Step> {
    match e
    case Stream(i, step) => if i == inst then Some(step) else None
    case AcquireTask(w, id) => if id in s.entries && s.entries[id].inst == inst then Some(Acquire) else None
    case Work(w, step) => if BusyWith(s, w, inst) then Some(step) else None
    case FinishTask(w) => if BusyWith(s, w, inst) then Some(Complete) else None
    case _ => None
  }

  lemma OtherContextsStay(s: Pool, e: Event, s': Pool, inst: nat)
    requires PoolInv(s) && PoolInv(s') && PoolNext(s, e, s') && inst in s.pipes && StepOf(s, e, inst).None?
    ensures inst in s'.pipes && View(s', inst) == View(s, inst)
  {
    if e.Stream? {
      assert inst in s'.pipes && s'.pipes[inst] == s.pipes[inst] && s'.workers == s.workers;
      SameTask(s, s', inst);
    } else {
      OtherTasksStay(s, e, s', inst);
    }
  }

  lemma OtherTasksStay(s: Pool, e: Event, s': Pool, inst: nat)
    requires PoolInv(s) && PoolInv(s') && PoolNext(s, e, s') && inst in s.pipes && StepOf(s, e, inst).None? && !e.Stream?
    ensures inst in s'.pipes && View(s', inst) == View(s, inst)
  {
    OtherWorkersStay(s, e, s', inst);
    SameTask(s, s', inst);
  }

  lemma OtherWorkersStay(s: Pool, e: Event, s': Pool, inst: nat)
    requires PoolInv(s) && PoolNext(s, e, s') && inst in s.pipes && StepOf(s, e, inst).None? && !e.Stream?
    ensures inst in s'.pipes && s'.pipes[inst] == s.pipes[inst]
    ensures forall w :: BusyWith(s, w, inst) <==> BusyWith(s', w, inst)
    ensures forall w :: BusyWith(s, w, inst) && BusyWith(s', w, inst) ==> s.workers[w].task == s'.workers[w].task
  {
  }

  lemma TaskEventIsStep(s: Pool, e: Event, s': Pool, inst: nat)
    requires PoolInv(s) && PoolInv(s') && PoolNext(s, e, s') && inst in s.pipes
    requires StepOf(s, e, inst).Some? && !e.Stream?
    ensures inst in s'.pipes && Next(View(s, inst), StepOf(s, e, inst).value, View(s', inst))
  {
    TaskOfIsUnique(s, inst);
    TaskOfIsUnique(s', inst);
    match e
    case AcquireTask(w, id) =>
      assert TaskOf(s, inst) == None && TaskOf(s', inst) == Some(s'.workers[w].task);
    case Work(w, step) =>
      WorkerStepsKeepTask(With(s, inst, Some(s.workers[w].task)), step);
      assert TaskOf(s', inst) == Some(s'.workers[w].task);
    case FinishTask(w) =>
      assert TaskOf(s', inst) == None;
  }

  lemma StreamEventIsStep(s: Pool, e: Event, s': Pool, inst: nat)
    requires PoolInv(s) && PoolInv(s') && PoolNext(s, e, s') && inst in s.pipes && e.Stream? && e.inst == inst
    ensures inst in s'.pipes && Next(View(s, inst), e.step, View(s', inst))
  {
    SameTask(s, s', inst);
    StreamStepsIgnoreTask(With(s, inst, None), e.step, TaskOf(s, inst));
  }

  /** A pool event is, for each context, either one step of that context's pipe or nothing at all. */
  lemma EventRefines(s: Pool, e: Event, s': Pool, inst: nat)
    requires PoolInv(s) && PoolInv(s') && PoolNext(s, e, s') && inst in s.pipes
    ensures inst in s'.pipes
    ensures match StepOf(s, e, inst)
            case None => View(s', inst) == View(s, inst)
            case Some(step) => Next(View(s, inst), step, View(s', inst))
  {
    if StepOf(s, e, inst).None? {
      OtherContextsStay(s, e, s', inst);
    } else if e.Stream? {
      StreamEventIsStep(s, e, s', inst);
    } else {
      TaskEventIsStep(s, e, s', inst);
    }
  }

  ghost predicate PoolRun(states: seq<Pool>, events: seq<Event>) {
    && |states| == |events| + 1
    && states[0] == EMPTY_POOL
    && forall i :: 0 <= i < |events| ==> PoolNext(states[i], events[i], states[i + 1])
  }

  ghost predicate NeverReAdded(states: seq<Pool>, events: seq<Event>)
    requires |states| == |events| + 1
  {
    forall i :: 0 <= i < |events| ==> ReAddsOnlyWhenIdle(states[i], events[i])
  }

  lemma {:induction false} PoolRunKeepsInv(states: seq<Pool>, events: seq<Event>, i: nat)
    requires PoolRun(states, events) && NeverReAdded(states, events) && i < |states|
    ensures PoolInv(states[i])
  {
    if i > 0 {
      PoolRunKeepsInv(states, events, i - 1);
      assert PoolNext(states[i - 1], events[i - 1], states[i]);
      PoolKeepsInv(states[i - 1], events[i - 1], states[i]);
    }
  }

  /** However many streams and workers there are, each context's history is a run of StreamPipeline, so
      everything proved of those runs holds of it. */
  lemma {:induction false} EveryContextRuns(states: seq<Pool>, events: seq<Event>, i: nat, inst: nat)
    returns (pipes: seq<Pipe>, steps: seq<Step>)
    requires PoolRun(states, events) && NeverReAdded(states, events) && i < |states| && inst in states[i].pipes
    ensures IsRun(pipes, steps) && pipes[|steps|] == View(states[i], inst)
    decreases i
  {
    PoolRunKeepsInv(states, events, i);
    PoolRunKeepsInv(states, events, i - 1);
    assert PoolNext(states[i - 1], events[i - 1], states[i]);
    if inst !in states[i - 1].pipes {
      TaskOfIsUnique(states[i], inst);
      pipes, steps := [START], [];
    } else {
      pipes, steps := EveryContextRuns(states, events, i - 1, inst);
      EventRefines(states[i - 1], events[i - 1], states[i], inst);
      var step := StepOf(states[i - 1], events[i - 1], inst);
      if step.Some? {
        pipes, steps := pipes + [View(states[i], inst)], steps + [step.value];
      }
    }
  }

  /** With any number of streams and workers, a release never takes a frame that is selected or being
      inferred, and never the frame of a task that is not done with it. */
  lemma PoolReleaseIsSafe(states: seq<Pool>, events: seq<Event>, i: nat, inst: nat, g: int)
    requires PoolRun(states, events) && NeverReAdded(states, events) && i < |events|
    requires events[i] == Stream(inst, Release) && inst in states[i].pipes && Hand(states[i].pipes[inst].pub) == Some(g)
    ensures g in states[i].pipes[inst].buf.frames && !IsInferring(states[i].pipes[inst].buf.frames[g].state)
    ensures forall w :: w in states[i].workers && states[i].workers[w].inst == inst
                        && !states[i].workers[w].task.DoneMarked? && !states[i].workers[w].task.Finishing?
                        ==> states[i].workers[w].task.f != g
  {
    PoolRunKeepsInv(states, events, i);
    TaskOfIsUnique(states[i], inst);
    var pipes, steps := EveryContextRuns(states, events, i, inst);
    RunKeepsInv(pipes, steps, |steps|);
  }
}
