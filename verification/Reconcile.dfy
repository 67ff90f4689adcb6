/** Pipeline::applyConfigBatch (src/pipeline/Pipeline.cpp) on values: how the running streams are brought in
    line with the merged configuration. A handle stands for a shared pointer to a StreamContext; contexts
    are never forgotten here, so that one nobody will ever stop can be told. */
module Reconcile {
  import opened Common
  import opened MergeRules
  import opened ConfigFilter

  type Handle = nat

  /** A stream context: its id, the configurations it holds, the algorithms its detector was made for, how often
      that detector was replaced, and whether the context was stopped. */
  datatype Context = Context(
    streamId: string, transport: StreamConfig, runtime: StreamConfig, detectorFor: seq<AlgorithmConfig>, reloads: nat, stopped: bool)

  /** A scheduler entry: the configuration tasks run with, and whose context's buffer they read. */
  datatype Entry = Entry(config: StreamConfig, bufferOf: Handle)

  datatype Registry = Registry(
    streams: map<string, Handle>, contexts: map<Handle, Context>, scheduler: map<string, Entry>, next: Handle)

  ghost predicate Linked(r: Registry) {
    forall id :: id in r.streams ==> r.streams[id] in r.contexts
  }

  /** Handles are allocated consecutively; registered contexts run and belong to their id. */
  ghost predicate WellFormed(r: Registry) {
    && (forall h: Handle :: h in r.contexts <==> h < r.next)
    && (forall id :: id in r.streams ==> r.streams[id] < r.next)
    && (forall id :: id in r.streams ==> !r.contexts[r.streams[id]].stopped)
    && (forall id :: id in r.streams ==> r.contexts[r.streams[id]].streamId == id)
  }

  /** Context and scheduler entry of a registered stream both say `config`. */
  ghost predicate Agrees(r: Registry, id: string, config: StreamConfig) {
    && id in r.streams && r.streams[id] in r.contexts
    && (var c := r.contexts[r.streams[id]];
        c.runtime == config && IsSameTransport(c.transport, config) && c.detectorFor == config.algorithms && !c.stopped)
    && id in r.scheduler && r.scheduler[id] == Entry(config, r.streams[id])
  }

  /** The registry runs exactly the desired streams, each as desired. */
  ghost predicate Runs(r: Registry, desired: map<string, StreamConfig>) {
    && (forall id :: id in r.streams <==> id in desired)
    && (forall id :: id in r.scheduler <==> id in desired)
    && (forall id :: id in desired ==> Agrees(r, id, desired[id]))
  }

  /** A running context nobody has a handle to: it will never be stopped. */
  ghost predicate Orphan(r: Registry, h: Handle) {
    && h in r.contexts && !r.contexts[h].stopped
    && forall id :: id in r.streams ==> r.streams[id] != h
  }

  ghost predicate Keyed(desired: map<string, StreamConfig>) {
    forall id :: id in desired ==> desired[id].streamId == id
  }

  // ---------------------------------------------------------------------------------------------
  // Steps
  // ---------------------------------------------------------------------------------------------

  /** stopStream: the scheduler forgets the stream id, the context stops. */
  function Stop(r: Registry, h: Handle): Registry
    requires h in r.contexts
  {
    var c := r.contexts[h];
    r.(contexts := r.contexts[h := c.(stopped := true)], scheduler := r.scheduler - {c.streamId})
  }

  /** The context after updateStreamRuntime: the detector is replaced exactly when the algorithms differ. */
  function Updated(c: Context, config: StreamConfig): Context {
    c.(runtime := config, detectorFor := config.algorithms,
       reloads := if c.detectorFor != config.algorithms then c.reloads + 1 else c.reloads)
  }

  /** updateStreamRuntime, with the assignment of runtime_config that precedes it. */
  function Update(r: Registry, id: string, config: StreamConfig): Registry
    requires id in r.streams && r.streams[id] in r.contexts
  {
    var h := r.streams[id];
    r.(contexts := r.contexts[h := Updated(r.contexts[h], config)], scheduler := r.scheduler[id := Entry(config, h)])
  }

  function Built(config: StreamConfig, started: bool): Context {
    Context(config.streamId, Transport(config), config, config.algorithms, 0, !started)
  }

  /** buildStreamContext and the registration after it. `started` is false when the context's stop flag was
      set before it could be registered, as a failing publisher does: then the context is stopped, and the
      scheduler forgets the id. */
  function Start(r: Registry, config: StreamConfig, started: bool): Registry {
    var id, h := config.streamId, r.next;
    r.(contexts := r.contexts[h := Built(config, started)], next := h + 1,
       scheduler := if started then r.scheduler[id := Entry(config, h)] else r.scheduler - {id},
       streams := if started then r.streams[id := h] else r.streams)
  }

  /** What the locked section of applyConfigBatch decides: who is stopped, who is updated in place, and who
      is started; the last list is streams_to_start, first the streams whose transport changed, then every
      desired stream that is not running by then. */
  datatype Plan = Plan(stop: seq<string>, update: seq<string>, moves: seq<string>, missing: seq<string>) {
    function Starts(): seq<string> { moves + missing }
  }

  predicate NoRepeats(s: seq<string>) {
    forall i, j :: 0 <= i < j < |s| ==> s[i] != s[j]
  }

  /** A running stream that stays. */
  ghost predicate Stays(r: Registry, desired: map<string, StreamConfig>, id: string)
    requires Linked(r)
  {
    id in r.streams && id in desired && IsSameTransport(r.contexts[r.streams[id]].transport, desired[id])
  }

  /** A running stream that is stopped because its transport changed. */
  ghost predicate Moves(r: Registry, desired: map<string, StreamConfig>, id: string)
    requires Linked(r)
  {
    id in r.streams && id in desired && !IsSameTransport(r.contexts[r.streams[id]].transport, desired[id])
  }

  /** The diff. A stream whose transport changed is both in `moves` and, since it was just erased, in
      `missing`. */
  ghost predicate IsPlan(r: Registry, desired: map<string, StreamConfig>, p: Plan)
    requires Linked(r)
  {
    && NoRepeats(p.stop) && NoRepeats(p.update) && NoRepeats(p.moves) && NoRepeats(p.missing)
    && (forall id :: id in p.stop <==> id in r.streams && !Stays(r, desired, id))
    && (forall id :: id in p.update <==> Stays(r, desired, id) && r.contexts[r.streams[id]].runtime != desired[id])
    && (forall id :: id in p.moves <==> Moves(r, desired, id))
    && (forall id :: id in p.missing <==> id in desired && !Stays(r, desired, id))
  }

  ghost predicate Plans(r: Registry, desired: map<string, StreamConfig>, p: Plan) {
    WellFormed(r) && Keyed(desired) && IsPlan(r, desired, p)
  }

  /** The streams that stay registered while the others are stopped. */
  function Erase(r: Registry, ids: seq<string>): Registry {
    r.(streams := map id | id in r.streams && id !in ids :: r.streams[id])
  }

  function StopAll(r: Registry, handles: seq<Handle>): (s: Registry)
    requires forall h :: h in handles ==> h in r.contexts
    ensures s.contexts.Keys == r.contexts.Keys && s.streams == r.streams && s.next == r.next
    decreases |handles|
  {
    if handles == [] then r else Stop(StopAll(r, handles[..|handles| - 1]), handles[|handles| - 1])
  }

  function UpdateAll(r: Registry, desired: map<string, StreamConfig>, ids: seq<string>): (s: Registry)
    requires forall id :: id in ids ==> id in desired && id in r.streams && r.streams[id] in r.contexts
    ensures s.contexts.Keys == r.contexts.Keys && s.streams == r.streams && s.next == r.next
    decreases |ids|
  {
    if ids == [] then r else Update(UpdateAll(r, desired, ids[..|ids| - 1]), ids[|ids| - 1], desired[ids[|ids| - 1]])
  }

  /** started(k): is the k-th context built and not flagged to stop before it is registered? */
  function StartAll(r: Registry, desired: map<string, StreamConfig>, ids: seq<string>, started: nat -> bool): (s: Registry)
    requires forall id :: id in ids ==> id in desired
    ensures s.next == r.next + |ids|
    decreases |ids|
  {
    if ids == [] then r
    else
      var n := |ids| - 1;
      Start(StartAll(r, desired, ids[..n], started), desired[ids[n]], started(n))
  }

  function HandlesOf(streams: map<string, Handle>, ids: seq<string>): (r: seq<Handle>)
    requires forall id :: id in ids ==> id in streams
    ensures |r| == |ids|
  {
    seq(|ids|, i requires 0 <= i < |ids| => streams[ids[i]])
  }

  /** The registry when the streams that go are stopped and the ones that stay are updated. */
  ghost function Reduced(r: Registry, desired: map<string, StreamConfig>, p: Plan): (s: Registry)
    requires Plans(r, desired, p)
    ensures s.streams == Erase(r, p.stop).streams && s.next == r.next && s.contexts.Keys == r.contexts.Keys
  {
    UpdateAll(StopAll(Erase(r, p.stop), HandlesOf(r.streams, p.stop)), desired, p.update)
  }

  /** Stop, update, start, in that order. */
  ghost function Applied(r: Registry, desired: map<string, StreamConfig>, p: Plan, started: nat -> bool): Registry
    requires Plans(r, desired, p)
  {
    StartAll(Reduced(r, desired, p), desired, p.Starts(), started)
  }

  // ---------------------------------------------------------------------------------------------
  // What the three loops do
  // ---------------------------------------------------------------------------------------------

  function Registered(r: Registry, id: string): Option<Handle> {
    if id in r.streams then Some(r.streams[id]) else None
  }

  function Scheduled(r: Registry, id: string): Option<Entry> {
    if id in r.scheduler then Some(r.scheduler[id]) else None
  }

  ghost predicate Names(r: Registry, handles: seq<Handle>, id: string)
    requires forall h :: h in handles ==> h in r.contexts
  {
    exists h :: h in handles && r.contexts[h].streamId == id
  }

  lemma {:induction false} StopAllEffect(r: Registry, handles: seq<Handle>, id: string, h: Handle)
    requires forall h :: h in handles ==> h in r.contexts
    ensures var s := StopAll(r, handles);
      && Scheduled(s, id) == (if Names(r, handles, id) then None else Scheduled(r, id))
      && (h in r.contexts ==> s.contexts[h] == if h in handles then r.contexts[h].(stopped := true) else r.contexts[h])
  {
    if handles != [] {
      var n := |handles| - 1;
      StopAllEffect(r, handles[..n], id, h);
      StopAllEffect(r, handles[..n], id, handles[n]);
      assert forall x :: x in handles <==> x in handles[..n] || x == handles[n];
    }
  }

  lemma {:induction false} UpdateAllById(r: Registry, desired: map<string, StreamConfig>, ids: seq<string>, id: string)
    requires forall id :: id in ids ==> id in desired && id in r.streams && r.streams[id] in r.contexts
    ensures Scheduled(UpdateAll(r, desired, ids), id)
      == if id in ids then Some(Entry(desired[id], r.streams[id])) else Scheduled(r, id)
  {
    if ids != [] {
      var n := |ids| - 1;
      UpdateAllById(r, desired, ids[..n], id);
      assert id in ids <==> id in ids[..n] || id == ids[n];
    }
  }

  ghost predicate OwnContexts(r: Registry) {
    forall i, j :: i in r.streams && j in r.streams && r.streams[i] == r.streams[j] ==> i == j
  }

  lemma {:induction false} UpdateAllKeepsOthers(r: Registry, desired: map<string, StreamConfig>, ids: seq<string>, h: Handle)
    requires forall id :: id in ids ==> id in desired && id in r.streams && r.streams[id] in r.contexts
    requires h in r.contexts && forall id :: id in ids ==> r.streams[id] != h
    ensures UpdateAll(r, desired, ids).contexts[h] == r.contexts[h]
  {
    if ids != [] {
      var n := |ids| - 1;
      UpdateAllKeepsOthers(r, desired, ids[..n], h);
      assert ids[n] in ids;
    }
  }

  lemma {:induction false} UpdateAllUpdates(r: Registry, desired: map<string, StreamConfig>, ids: seq<string>, id: string)
    requires forall id :: id in ids ==> id in desired && id in r.streams && r.streams[id] in r.contexts
    requires OwnContexts(r) && NoRepeats(ids) && id in ids
    ensures UpdateAll(r, desired, ids).contexts[r.streams[id]] == Updated(r.contexts[r.streams[id]], desired[id])
  {
    var n := |ids| - 1;
    if id == ids[n] {
      UpdateAllKeepsOthers(r, desired, ids[..n], r.streams[id]);
    } else {
      assert id in ids[..n];
      UpdateAllUpdates(r, desired, ids[..n], id);
    }
  }

  function Last(ids: seq<string>, id: string): (k: nat)
    requires id in ids
    ensures k < |ids| && ids[k] == id && forall j :: k < j < |ids| ==> ids[j] != id
  {
    if ids[|ids| - 1] == id then |ids| - 1 else Last(ids[..|ids| - 1], id)
  }

  /** The last build of id that succeeded. */
  function LastStarted(ids: seq<string>, started: nat -> bool, id: string): (k: Option<nat>)
    ensures k.Some? ==> k.value < |ids| && ids[k.value] == id && started(k.value)
    ensures forall j :: (if k.Some? then k.value < j else 0 <= j) && j < |ids| ==> ids[j] != id || !started(j)
    decreases |ids|
  {
    if ids == [] then None
    else if ids[|ids| - 1] == id && started(|ids| - 1) then Some(|ids| - 1)
    else LastStarted(ids[..|ids| - 1], started, id)
  }

  /** After the builds a stream is scheduled as its last build left it ... */
  lemma {:induction false} StartAllScheduled(r: Registry, desired: map<string, StreamConfig>, ids: seq<string>,
                                             started: nat -> bool, id: string)
    requires Keyed(desired) && forall i :: i in ids ==> i in desired
    ensures Scheduled(StartAll(r, desired, ids, started), id)
      == if id !in ids then Scheduled(r, id)
         else if started(Last(ids, id)) then Some(Entry(desired[id], r.next + Last(ids, id)))
         else None
    decreases |ids|
  {
    if ids != [] {
      var n := |ids| - 1;
      StartAllScheduled(r, desired, ids[..n], started, id);
      assert id in ids <==> id in ids[..n] || id == ids[n];
    }
  }

  /** ... and registered as the last one that succeeded. */
  lemma {:induction false} StartAllRegistered(r: Registry, desired: map<string, StreamConfig>, ids: seq<string>,
                                              started: nat -> bool, id: string)
    requires Keyed(desired) && forall i :: i in ids ==> i in desired
    ensures Registered(StartAll(r, desired, ids, started), id)
      == match LastStarted(ids, started, id) case None => Registered(r, id) case Some(k) => Some(r.next + k)
    decreases |ids|
  {
    if ids != [] {
      StartAllRegistered(r, desired, ids[..|ids| - 1], started, id);
    }
  }

  lemma {:induction false} StartAllContexts(r: Registry, desired: map<string, StreamConfig>, ids: seq<string>,
                                            started: nat -> bool, h: Handle)
    requires (forall i :: i in ids ==> i in desired) && forall k: Handle :: k in r.contexts <==> k < r.next
    ensures var s := StartAll(r, desired, ids, started);
      && (h in s.contexts <==> h < s.next)
      && (h < r.next ==> s.contexts[h] == r.contexts[h])
      && (r.next <= h < s.next ==> s.contexts[h] == Built(desired[ids[h - r.next]], started(h - r.next)))
    decreases |ids|
  {
    if ids != [] {
      StartAllContexts(r, desired, ids[..|ids| - 1], started, h);
    }
  }

  // ---------------------------------------------------------------------------------------------
  // The whole batch
  // ---------------------------------------------------------------------------------------------

  lemma StoppedById(r: Registry, desired: map<string, StreamConfig>, p: Plan, id: string)
    requires Plans(r, desired, p)
    ensures var s := StopAll(Erase(r, p.stop), HandlesOf(r.streams, p.stop));
      && Registered(s, id) == (if id in r.streams && Stays(r, desired, id) then Registered(r, id) else None)
      && Scheduled(s, id) == (if id in r.streams && !Stays(r, desired, id) then None else Scheduled(r, id))
      && (id in r.streams && Stays(r, desired, id) ==> s.contexts[r.streams[id]] == r.contexts[r.streams[id]])
  {
    var e, handles := Erase(r, p.stop), HandlesOf(r.streams, p.stop);
    if id in r.streams { StopAllEffect(e, handles, id, r.streams[id]); } else { StopAllEffect(e, handles, id, 0); }
    StoppedHandles(r, p.stop, id);
  }

  lemma StoppedHandles(r: Registry, ids: seq<string>, id: string)
    requires WellFormed(r) && forall i :: i in ids ==> i in r.streams
    ensures Names(r, HandlesOf(r.streams, ids), id) <==> id in ids
    ensures id in r.streams ==> (r.streams[id] in HandlesOf(r.streams, ids) <==> id in ids)
  {
    var handles := HandlesOf(r.streams, ids);
    assert forall i :: 0 <= i < |ids| ==> handles[i] == r.streams[ids[i]] && r.contexts[handles[i]].streamId == ids[i];
    if id in ids {
      var i :| 0 <= i < |ids| && ids[i] == id;
      assert handles[i] in handles;
    }
  }

  /** Before the builds: who stays runs as desired in its old context, nobody else is known. */
  lemma ReducedById(r: Registry, desired: map<string, StreamConfig>, p: Plan, id: string)
    requires Plans(r, desired, p)
    ensures var s := Reduced(r, desired, p);
      && (Stays(r, desired, id) ==>
            var h := r.streams[id];
            && Registered(s, id) == Some(h)
            && s.contexts[h] == (if id in p.update then Updated(r.contexts[h], desired[id]) else r.contexts[h])
            && Scheduled(s, id) == (if id in p.update then Some(Entry(desired[id], h)) else Scheduled(r, id)))
      && (!Stays(r, desired, id) ==>
            Registered(s, id) == None && Scheduled(s, id) == (if id in r.streams then None else Scheduled(r, id)))
  {
    var stopped := StopAll(Erase(r, p.stop), HandlesOf(r.streams, p.stop));
    StoppedById(r, desired, p, id);
    UpdateAllById(stopped, desired, p.update, id);
    if Stays(r, desired, id) {
      if id in p.update {
        UpdateAllUpdates(stopped, desired, p.update, id);
      } else {
        UpdateAllKeepsOthers(stopped, desired, p.update, r.streams[id]);
      }
    }
  }

  lemma StartedIds(r: Registry, desired: map<string, StreamConfig>, p: Plan, id: string)
    requires Plans(r, desired, p)
    ensures id in p.Starts() <==> id in desired && !Stays(r, desired, id)
  {
  }

  /** A stream whose transport is unchanged keeps its context, whatever builds succeed; its detector is
      replaced exactly when its algorithms changed. */
  lemma UnchangedTransportIsUndisturbed(r: Registry, desired: map<string, StreamConfig>, p: Plan, started: nat -> bool, id: string)
    requires Plans(r, desired, p) && Stays(r, desired, id)
    ensures var s, h := Applied(r, desired, p, started), r.streams[id];
      && Registered(s, id) == Some(h) && h in s.contexts
      && s.contexts[h] == (if id in p.update then Updated(r.contexts[h], desired[id]) else r.contexts[h])
      && Scheduled(s, id) == (if id in p.update then Some(Entry(desired[id], h)) else Scheduled(r, id))
  {
    var m := Reduced(r, desired, p);
    ReducedById(r, desired, p, id);
    StartAllScheduled(m, desired, p.Starts(), started, id);
    StartAllRegistered(m, desired, p.Starts(), started, id);
    StartedIds(r, desired, p, id);
    StartAllContexts(m, desired, p.Starts(), started, r.streams[id]);
  }

  /** ... so that, in a consistent registry, a running stream that is still asked for with the same transport
      is not restarted, and its detector is replaced exactly when its algorithms changed. */
  lemma DetectorReplacedIffAlgorithmsChanged(r: Registry, before: map<string, StreamConfig>,
                                             desired: map<string, StreamConfig>, p: Plan, started: nat -> bool, id: string)
    requires Plans(r, desired, p) && Runs(r, before) && Stays(r, desired, id)
    ensures id in before && id in Applied(r, desired, p, started).streams
    ensures var s, h := Applied(r, desired, p, started), r.streams[id];
      && s.streams[id] == h && h in s.contexts && !s.contexts[h].stopped
      && s.contexts[h].reloads
         == r.contexts[h].reloads + (if before[id].algorithms != desired[id].algorithms then 1 else 0)
  {
    assert Agrees(r, id, before[id]);
    UnchangedTransportIsUndisturbed(r, desired, p, started, id);
    assert Registered(Applied(r, desired, p, started), id).Some?;
  }

  /** A running stream is stopped and built anew exactly when what it is asked for differs in something other than
      algorithms, tracker and deduplication interval. */
  lemma RebuiltIff(r: Registry, before: map<string, StreamConfig>, desired: map<string, StreamConfig>, p: Plan, id: string)
    requires Plans(r, desired, p) && Runs(r, before) && id in before && id in desired
    ensures id in p.stop <==> id in p.Starts()
    ensures id in p.stop <==>
      before[id].(algorithms := desired[id].algorithms, tracker := desired[id].tracker,
                  alarmDedupIntervalS := desired[id].alarmDedupIntervalS) != desired[id]
  {
    assert Agrees(r, id, before[id]);
    StartedIds(r, desired, p, id);
    SameTransportMeans(before[id], desired[id]);
  }

  /** A stream that has to be started is scheduled as its last build left it ... */
  lemma {:induction false} ScheduledAsBuilt(r: Registry, desired: map<string, StreamConfig>, p: Plan, started: nat -> bool, id: string)
    requires Plans(r, desired, p) && id in desired && !Stays(r, desired, id)
    ensures id in p.Starts()
    ensures var k := Last(p.Starts(), id);
      Scheduled(Applied(r, desired, p, started), id) == if started(k) then Some(Entry(desired[id], r.next + k)) else None
  {
    StartedIds(r, desired, p, id);
    StartAllScheduled(Reduced(r, desired, p), desired, p.Starts(), started, id);
  }

  function HandleOf(next: Handle, k: Option<nat>): Option<Handle> {
    match k case None => None case Some(j) => Some(next + j)
  }

  /** ... and registered as its last successful one. */
  lemma {:induction false} RegisteredAsBuilt(r: Registry, desired: map<string, StreamConfig>, p: Plan, started: nat -> bool, id: string)
    requires Plans(r, desired, p) && id in desired && !Stays(r, desired, id)
    ensures Registered(Applied(r, desired, p, started), id) == HandleOf(r.next, LastStarted(p.Starts(), started, id))
  {
    ReducedById(r, desired, p, id);
    StartAllRegistered(Reduced(r, desired, p), desired, p.Starts(), started, id);
  }

  /** A stream that is no longer asked for is gone. */
  lemma UndesiredIsGone(r: Registry, desired: map<string, StreamConfig>, p: Plan, started: nat -> bool, id: string)
    requires Plans(r, desired, p) && id !in desired
    ensures var s := Applied(r, desired, p, started);
      && Registered(s, id) == None
      && Scheduled(s, id) == (if id in r.streams then None else Scheduled(r, id))
  {
    var m := Reduced(r, desired, p);
    ReducedById(r, desired, p, id);
    StartedIds(r, desired, p, id);
    StartAllScheduled(m, desired, p.Starts(), started, id);
    StartAllRegistered(m, desired, p.Starts(), started, id);
  }

  lemma {:induction false} LastIsLastStarted(ids: seq<string>, started: nat -> bool, id: string)
    requires id in ids && forall k :: 0 <= k < |ids| ==> started(k)
    ensures LastStarted(ids, started, id) == Some(Last(ids, id))
  {
  }

  lemma NewContexts(r: Registry, desired: map<string, StreamConfig>, p: Plan, started: nat -> bool, k: nat)
    requires Plans(r, desired, p) && k < |p.Starts()|
    ensures var s := Applied(r, desired, p, started);
      r.next + k < s.next && r.next + k in s.contexts && p.Starts()[k] in desired
      && s.contexts[r.next + k] == Built(desired[p.Starts()[k]], started(k))
  {
    assert p.Starts()[k] in p.Starts();
    StartedIds(r, desired, p, p.Starts()[k]);
    StartAllContexts(Reduced(r, desired, p), desired, p.Starts(), started, r.next + k);
  }

  lemma BuiltAgrees(config: StreamConfig)
    ensures var c := Built(config, true);
      c.runtime == config && IsSameTransport(c.transport, config) && c.detectorFor == config.algorithms && !c.stopped
      && c.streamId == config.streamId
  {
  }

  lemma ReachedByBuilding(r: Registry, desired: map<string, StreamConfig>, p: Plan, started: nat -> bool, id: string)
    requires Plans(r, desired, p) && id in desired && !Stays(r, desired, id)
    requires forall k :: 0 <= k < |p.Starts()| ==> started(k)
    ensures var s := Applied(r, desired, p, started);
      Agrees(s, id, desired[id]) && s.streams[id] < s.next && s.contexts[s.streams[id]].streamId == id
  {
    ScheduledAsBuilt(r, desired, p, started, id);
    RegisteredAsBuilt(r, desired, p, started, id);
    LastIsLastStarted(p.Starts(), started, id);
    NewContexts(r, desired, p, started, Last(p.Starts(), id));
    BuiltAgrees(desired[id]);
  }

  lemma DesiredIsReached(r: Registry, before: map<string, StreamConfig>, desired: map<string, StreamConfig>,
                         p: Plan, started: nat -> bool, id: string)
    requires Plans(r, desired, p) && Runs(r, before) && id in desired
    requires forall k :: 0 <= k < |p.Starts()| ==> started(k)
    ensures var s := Applied(r, desired, p, started);
      Agrees(s, id, desired[id]) && s.streams[id] < s.next && s.contexts[s.streams[id]].streamId == id
  {
    if Stays(r, desired, id) {
      assert Agrees(r, id, before[id]);
      UnchangedTransportIsUndisturbed(r, desired, p, started, id);
    } else {
      ReachedByBuilding(r, desired, p, started, id);
    }
  }

  /** When every build succeeds, the registry runs exactly what the configurations ask for: the keys are the
      desired ones, context and scheduler entry agree with the desired configuration, and each entry reads
      the buffer of the registered context. */
  lemma BatchAchievesDesired(r: Registry, before: map<string, StreamConfig>, desired: map<string, StreamConfig>,
                             p: Plan, started: nat -> bool)
    requires Plans(r, desired, p) && Runs(r, before)
    requires forall k :: 0 <= k < |p.Starts()| ==> started(k)
    ensures Runs(Applied(r, desired, p, started), desired) && WellFormed(Applied(r, desired, p, started))
  {
    var s := Applied(r, desired, p, started);
    forall id | id in desired
      ensures Agrees(s, id, desired[id]) && s.streams[id] < s.next && s.contexts[s.streams[id]].streamId == id
    {
      DesiredIsReached(r, before, desired, p, started, id);
    }
    forall id | id !in desired ensures id !in s.streams && id !in s.scheduler {
      UndesiredIsGone(r, desired, p, started, id);
    }
    forall h: Handle ensures h in s.contexts <==> h < s.next {
      StartAllContexts(Reduced(r, desired, p), desired, p.Starts(), started, h);
    }
  }

  lemma HasMember(s: seq<string>)
    requires s != []
    ensures exists id :: id in s
  {
    assert s[0] in s;
  }

  /** Applying the same configurations again does nothing: no stream is stopped, updated or started. */
  lemma SameBatchChangesNothing(r: Registry, desired: map<string, StreamConfig>, p: Plan, started: nat -> bool)
    requires Plans(r, desired, p) && Runs(r, desired)
    ensures p == Plan([], [], [], []) && Applied(r, desired, p, started) == r
  {
    assert forall id :: id in desired ==> Agrees(r, id, desired[id]) && Stays(r, desired, id);
    if p.stop != [] { HasMember(p.stop); }
    if p.update != [] { HasMember(p.update); }
    if p.moves != [] { HasMember(p.moves); }
    if p.missing != [] { HasMember(p.missing); }
    assert Erase(r, []).streams == r.streams;
  }

  // ---------------------------------------------------------------------------------------------
  // Streams that are started twice
  // ---------------------------------------------------------------------------------------------

  lemma {:induction false} StopAllStops(r: Registry, handles: seq<Handle>, h: Handle)
    requires (forall h :: h in handles ==> h in r.contexts) && h in r.contexts
    ensures StopAll(r, handles).contexts[h].stopped <==> r.contexts[h].stopped || h in handles
  {
    if handles != [] {
      StopAllStops(r, handles[..|handles| - 1], h);
    }
  }

  lemma {:induction false} UpdateAllStopsNobody(r: Registry, desired: map<string, StreamConfig>, ids: seq<string>, h: Handle)
    requires forall id :: id in ids ==> id in desired && id in r.streams && r.streams[id] in r.contexts
    requires h in r.contexts
    ensures UpdateAll(r, desired, ids).contexts[h].stopped == r.contexts[h].stopped
  {
    if ids != [] {
      UpdateAllStopsNobody(r, desired, ids[..|ids| - 1], h);
    }
  }

  /** Whether a context that existed before the batch is running afterwards. */
  lemma OldContexts(r: Registry, desired: map<string, StreamConfig>, p: Plan, started: nat -> bool, h: Handle)
    requires Plans(r, desired, p) && h < r.next
    ensures h in Applied(r, desired, p, started).contexts
    ensures Applied(r, desired, p, started).contexts[h].stopped
      <==> r.contexts[h].stopped || h in HandlesOf(r.streams, p.stop)
  {
    var e, handles := Erase(r, p.stop), HandlesOf(r.streams, p.stop);
    StopAllStops(e, handles, h);
    UpdateAllStopsNobody(StopAll(e, handles), desired, p.update, h);
    StartAllContexts(Reduced(r, desired, p), desired, p.Starts(), started, h);
  }

  /** Where a handle registered after the batch comes from. */
  lemma WhereHandlesComeFrom(r: Registry, desired: map<string, StreamConfig>, p: Plan, started: nat -> bool, id: string)
    requires Plans(r, desired, p) && id in Applied(r, desired, p, started).streams
    ensures var h := Applied(r, desired, p, started).streams[id];
      if h < r.next then Stays(r, desired, id) && h == r.streams[id]
      else h - r.next < |p.Starts()| && p.Starts()[h - r.next] == id
  {
    if id !in desired {
      UndesiredIsGone(r, desired, p, started, id);
    } else if Stays(r, desired, id) {
      UnchangedTransportIsUndisturbed(r, desired, p, started, id);
    } else {
      WhereBuiltHandlesComeFrom(r, desired, p, started, id);
    }
  }

  lemma WhereBuiltHandlesComeFrom(r: Registry, desired: map<string, StreamConfig>, p: Plan, started: nat -> bool, id: string)
    requires Plans(r, desired, p) && id in Applied(r, desired, p, started).streams && id in desired && !Stays(r, desired, id)
    ensures var h := Applied(r, desired, p, started).streams[id];
      r.next <= h < r.next + |p.Starts()| && p.Starts()[h - r.next] == id
  {
    RegisteredAsBuilt(r, desired, p, started, id);
    assert Registered(Applied(r, desired, p, started), id).Some?;
  }

  lemma RegisteredIsNotOrphaned(r: Registry, desired: map<string, StreamConfig>, p: Plan, started: nat -> bool, id: string)
    requires Plans(r, desired, p) && id in r.streams
    ensures !Orphan(Applied(r, desired, p, started), r.streams[id])
  {
    OldContexts(r, desired, p, started, r.streams[id]);
    StoppedHandles(r, p.stop, id);
    if Stays(r, desired, id) {
      UnchangedTransportIsUndisturbed(r, desired, p, started, id);
    }
  }

  /** No context that existed before the batch is orphaned by it. */
  lemma OldOrphans(r: Registry, desired: map<string, StreamConfig>, p: Plan, started: nat -> bool, h: Handle)
    requires Plans(r, desired, p) && h < r.next
    ensures Orphan(Applied(r, desired, p, started), h) <==> Orphan(r, h)
  {
    var s := Applied(r, desired, p, started);
    if id :| id in r.streams && r.streams[id] == h {
      RegisteredIsNotOrphaned(r, desired, p, started, id);
    } else {
      OldContexts(r, desired, p, started, h);
      forall id | id in s.streams ensures s.streams[id] != h {
        WhereHandlesComeFrom(r, desired, p, started, id);
      }
    }
  }

  function FirstIn(ids: seq<string>, id: string): (k: nat)
    ensures id in ids ==> k < |ids| && ids[k] == id
  {
    if ids == [] || ids[0] == id then 0 else 1 + FirstIn(ids[1..], id)
  }

  /** Where a stream to be started stands in streams_to_start. */
  lemma {:induction false} BuildsOf(r: Registry, desired: map<string, StreamConfig>, p: Plan, id: string, k: nat)
    requires Plans(r, desired, p) && k < |p.Starts()| && p.Starts()[k] == id
    ensures if k < |p.moves| then Moves(r, desired, id) && k == FirstIn(p.moves, id)
            else id in p.missing && k == |p.moves| + FirstIn(p.missing, id)
  {
    if k < |p.moves| {
      assert p.moves[k] == id && id in p.moves;
    } else {
      assert p.missing[k - |p.moves|] == id && id in p.missing;
    }
  }

  lemma {:induction false} OneOrTwo(starts: seq<string>, started: nat -> bool, id: string, first: Option<nat>, second: nat)
    requires second < |starts| && starts[second] == id && (first.Some? ==> first.value < second && starts[first.value] == id)
    requires forall k :: 0 <= k < |starts| && starts[k] == id ==> k == second || Some(k) == first
    ensures Last(starts, id) == second
    ensures LastStarted(starts, started, id)
      == if started(second) then Some(second) else if first.Some? && started(first.value) then first else None
  {
    var last := LastStarted(starts, started, id);
    if last.Some? { assert starts[last.value] == id; }
  }

  function FirstBuild(p: Plan, id: string): nat { FirstIn(p.moves, id) }

  function SecondBuild(p: Plan, id: string): nat { |p.moves| + FirstIn(p.missing, id) }

  lemma BuildPositions(r: Registry, desired: map<string, StreamConfig>, p: Plan, id: string)
    requires Plans(r, desired, p) && id in desired && !Stays(r, desired, id)
    ensures SecondBuild(p, id) < |p.Starts()| && p.Starts()[SecondBuild(p, id)] == id
    ensures Moves(r, desired, id) ==> FirstBuild(p, id) < |p.moves| && p.Starts()[FirstBuild(p, id)] == id
  {
    assert id in p.missing;
  }

  /** The build whose context stays registered: the second one, or the first when only that was good. */
  function KeptBuild(p: Plan, started: nat -> bool, moved: bool, id: string): Option<nat> {
    if started(SecondBuild(p, id)) then Some(SecondBuild(p, id))
    else if moved && started(FirstBuild(p, id)) then Some(FirstBuild(p, id))
    else None
  }

  /** A stream that moves is built twice, a new one once. */
  lemma {:induction false} BuiltOnceOrTwice(r: Registry, desired: map<string, StreamConfig>, p: Plan, started: nat -> bool, id: string)
    requires Plans(r, desired, p) && id in desired && !Stays(r, desired, id)
    ensures id in p.Starts() && Last(p.Starts(), id) == SecondBuild(p, id)
    ensures LastStarted(p.Starts(), started, id) == KeptBuild(p, started, Moves(r, desired, id), id)
  {
    var starts, second := p.Starts(), SecondBuild(p, id);
    var first := if Moves(r, desired, id) then Some(FirstBuild(p, id)) else None;
    BuildPositions(r, desired, p, id);
    forall k | 0 <= k < |starts| && starts[k] == id ensures k == second || Some(k) == first {
      BuildsOf(r, desired, p, id, k);
    }
    OneOrTwo(starts, started, id, first, second);
  }

  lemma ScheduledIff(r: Registry, desired: map<string, StreamConfig>, p: Plan, started: nat -> bool, id: string)
    requires Plans(r, desired, p) && id in desired && !Stays(r, desired, id)
    ensures id in Applied(r, desired, p, started).scheduler <==> started(SecondBuild(p, id))
  {
    BuiltOnceOrTwice(r, desired, p, started, id);
    ScheduledAsBuilt(r, desired, p, started, id);
    assert Scheduled(Applied(r, desired, p, started), id).Some? <==> started(SecondBuild(p, id));
  }

  lemma RegisteredIff(r: Registry, desired: map<string, StreamConfig>, p: Plan, started: nat -> bool, id: string)
    requires Plans(r, desired, p) && id in desired && !Stays(r, desired, id)
    ensures id in Applied(r, desired, p, started).streams
      <==> started(SecondBuild(p, id)) || (Moves(r, desired, id) && started(FirstBuild(p, id)))
  {
    BuiltOnceOrTwice(r, desired, p, started, id);
    RegisteredAsBuilt(r, desired, p, started, id);
    assert Registered(Applied(r, desired, p, started), id).Some? <==> LastStarted(p.Starts(), started, id).Some?;
  }

  /** New contexts may be flagged to stop. A registered stream is left without a scheduler entry, and so without inference, if
      and only if its transport changed and of its two new contexts only the second was flagged. */
  lemma RegisteredWithoutScheduling(r: Registry, before: map<string, StreamConfig>, desired: map<string, StreamConfig>,
                                    p: Plan, started: nat -> bool, id: string)
    requires Plans(r, desired, p) && Runs(r, before)
    ensures var s := Applied(r, desired, p, started);
      id in s.streams && id !in s.scheduler
      <==> Moves(r, desired, id) && started(FirstBuild(p, id)) && !started(SecondBuild(p, id))
  {
    if id !in desired {
      UndesiredIsGone(r, desired, p, started, id);
    } else if Stays(r, desired, id) {
      assert Agrees(r, id, before[id]);
      UnchangedTransportIsUndisturbed(r, desired, p, started, id);
    } else {
      ScheduledIff(r, desired, p, started, id);
      RegisteredIff(r, desired, p, started, id);
    }
  }

  // ---------------------------------------------------------------------------------------------
  // Contexts that nobody will stop
  // ---------------------------------------------------------------------------------------------

  /** Is the k-th build the first of a stream that moves, and neither of its two contexts flagged? */
  predicate BuiltTwice(p: Plan, started: nat -> bool, k: nat) {
    k < |p.moves| && started(k) && started(SecondBuild(p, p.moves[k]))
  }

  lemma RegisteredAfterBuilds(r: Registry, desired: map<string, StreamConfig>, p: Plan, started: nat -> bool, id: string)
    requires Plans(r, desired, p) && id in desired && !Stays(r, desired, id)
    ensures Registered(Applied(r, desired, p, started), id)
      == HandleOf(r.next, KeptBuild(p, started, Moves(r, desired, id), id))
  {
    RegisteredAsBuilt(r, desired, p, started, id);
    BuiltOnceOrTwice(r, desired, p, started, id);
  }

  /** Where the k-th build stands among those of its stream. */
  lemma PlaceOfBuild(r: Registry, desired: map<string, StreamConfig>, p: Plan, k: nat)
    requires Plans(r, desired, p) && k < |p.Starts()|
    ensures var id := p.Starts()[k];
      && id in desired && !Stays(r, desired, id) && SecondBuild(p, id) >= |p.moves|
      && (if k < |p.moves| then Moves(r, desired, id) && p.moves[k] == id && k == FirstBuild(p, id) else k == SecondBuild(p, id))
      && (Moves(r, desired, id) ==> FirstBuild(p, id) < |p.moves|)
  {
    var id := p.Starts()[k];
    assert id in p.Starts();
    StartedIds(r, desired, p, id);
    BuildsOf(r, desired, p, id, k);
    BuildPositions(r, desired, p, id);
  }

  /** Whether the k-th context built by the batch is the one that ends up registered. */
  lemma RegisteredBuild(r: Registry, desired: map<string, StreamConfig>, p: Plan, started: nat -> bool, k: nat)
    requires Plans(r, desired, p) && k < |p.Starts()|
    ensures Registered(Applied(r, desired, p, started), p.Starts()[k]) == Some(r.next + k)
      <==> started(k) && !BuiltTwice(p, started, k)
  {
    PlaceOfBuild(r, desired, p, k);
    RegisteredAfterBuilds(r, desired, p, started, p.Starts()[k]);
  }

  /** Of the contexts built by the batch, the first ones of the streams built twice are orphaned. */
  lemma NewOrphans(r: Registry, desired: map<string, StreamConfig>, p: Plan, started: nat -> bool, k: nat)
    requires Plans(r, desired, p) && k < |p.Starts()|
    ensures Orphan(Applied(r, desired, p, started), r.next + k) <==> BuiltTwice(p, started, k)
  {
    var s, id, h := Applied(r, desired, p, started), p.Starts()[k], r.next + k;
    NewContexts(r, desired, p, started, k);
    RegisteredBuild(r, desired, p, started, k);
    assert Registered(s, id) == Some(h) <==> id in s.streams && s.streams[id] == h;
    forall i | i in s.streams && s.streams[i] == h ensures i == id {
      WhereHandlesComeFrom(r, desired, p, started, i);
    }
  }

  /** Whichever contexts are flagged: those orphaned by the batch are exactly the first ones built for the
      streams whose transport changed, when neither that one nor the second one was flagged. */
  lemma OrphansOfABatch(r: Registry, desired: map<string, StreamConfig>, p: Plan, started: nat -> bool, h: Handle)
    requires Plans(r, desired, p)
    ensures Orphan(Applied(r, desired, p, started), h)
      <==> Orphan(r, h) || (r.next <= h && BuiltTwice(p, started, h - r.next))
  {
    if h < r.next {
      OldOrphans(r, desired, p, started, h);
    } else if h - r.next < |p.Starts()| {
      NewOrphans(r, desired, p, started, h - r.next);
    } else {
      NoMoreContexts(r, desired, p, started, h);
    }
  }

  lemma NoMoreContexts(r: Registry, desired: map<string, StreamConfig>, p: Plan, started: nat -> bool, h: Handle)
    requires Plans(r, desired, p) && h >= r.next + |p.Starts()|
    ensures h !in Applied(r, desired, p, started).contexts
  {
    StartAllContexts(Reduced(r, desired, p), desired, p.Starts(), started, h);
  }

  ghost predicate OrphansNobody(r: Registry, s: Registry) {
    forall h: Handle :: Orphan(s, h) ==> Orphan(r, h)
  }

  ghost predicate BuildsNobodyTwice(p: Plan, started: nat -> bool) { forall k: nat :: !BuiltTwice(p, started, k) }

  lemma OrphansNobodyIff(r: Registry, desired: map<string, StreamConfig>, p: Plan, started: nat -> bool, s: Registry)
    requires Plans(r, desired, p) && s == Applied(r, desired, p, started)
    ensures OrphansNobody(r, s) <==> BuildsNobodyTwice(p, started)
  {
    forall h: Handle ensures Orphan(s, h) <==> Orphan(r, h) || (r.next <= h && BuiltTwice(p, started, h - r.next)) {
      OrphansOfABatch(r, desired, p, started, h);
    }
    if k: nat :| BuiltTwice(p, started, k) {
      assert Orphan(s, r.next + k);
      assert !Orphan(r, r.next + k);
    }
  }

  /** So the batch orphans nobody if and only if of every stream that moves one of the two contexts was
      flagged. */
  lemma NothingOrphanedIff(r: Registry, desired: map<string, StreamConfig>, p: Plan, started: nat -> bool)
    requires Plans(r, desired, p)
    ensures OrphansNobody(r, Applied(r, desired, p, started))
      <==> (forall id :: Moves(r, desired, id) ==> !started(FirstBuild(p, id)) || !started(SecondBuild(p, id)))
  {
    OrphansNobodyIff(r, desired, p, started, Applied(r, desired, p, started));
    NothingBuiltTwiceIff(r, desired, p, started);
  }

  lemma NothingBuiltTwiceIff(r: Registry, desired: map<string, StreamConfig>, p: Plan, started: nat -> bool)
    requires Plans(r, desired, p)
    ensures BuildsNobodyTwice(p, started)
      <==> (forall id :: Moves(r, desired, id) ==> !started(FirstBuild(p, id)) || !started(SecondBuild(p, id)))
  {
    if k: nat :| BuiltTwice(p, started, k) {
      FirstOfMoved(r, desired, p, k);
    }
    forall id | Moves(r, desired, id) ensures FirstBuild(p, id) < |p.moves| && p.moves[FirstBuild(p, id)] == id {
      assert id in p.moves;
    }
    if id :| Moves(r, desired, id) && started(FirstBuild(p, id)) && started(SecondBuild(p, id)) {
      assert BuiltTwice(p, started, FirstBuild(p, id));
    }
  }

  lemma FirstOfMoved(r: Registry, desired: map<string, StreamConfig>, p: Plan, k: nat)
    requires Plans(r, desired, p) && k < |p.moves|
    ensures Moves(r, desired, p.moves[k]) && k == FirstBuild(p, p.moves[k])
  {
    assert p.Starts()[k] == p.moves[k];
    BuildsOf(r, desired, p, p.moves[k], k);
  }

  // ---------------------------------------------------------------------------------------------
  // The stops that were requested meanwhile
  // ---------------------------------------------------------------------------------------------

  /** The flagged contexts, which also stand in pending_stop_streams_. */
  function Flagged(next: Handle, n: nat, started: nat -> bool): (r: seq<Handle>)
    ensures forall h :: h in r <==> next <= h < next + n && !started(h - next)
  {
    if n == 0 then [] else Flagged(next, n - 1, started) + (if started(n - 1) then [] else [next + n - 1])
  }

  /** The registry when mainLoop has stopped them, once more, before its next batch. */
  ghost function AfterPendingStops(r: Registry, desired: map<string, StreamConfig>, p: Plan, started: nat -> bool): (s: Registry)
    requires Plans(r, desired, p)
  {
    FlaggedExist(r, desired, p, started);
    StopAll(Applied(r, desired, p, started), Flagged(r.next, |p.Starts()|, started))
  }

  lemma FlaggedExist(r: Registry, desired: map<string, StreamConfig>, p: Plan, started: nat -> bool)
    requires Plans(r, desired, p)
    ensures forall h :: h in Flagged(r.next, |p.Starts()|, started) ==> h in Applied(r, desired, p, started).contexts
  {
    forall h | h in Flagged(r.next, |p.Starts()|, started) ensures h in Applied(r, desired, p, started).contexts {
      FlaggedContext(r, desired, p, started, h);
    }
  }

  lemma FlaggedContext(r: Registry, desired: map<string, StreamConfig>, p: Plan, started: nat -> bool, h: Handle)
    requires Plans(r, desired, p) && h in Flagged(r.next, |p.Starts()|, started)
    ensures var s, k := Applied(r, desired, p, started), h - r.next;
      0 <= k < |p.Starts()| && !started(k) && h in s.contexts && s.contexts[h].streamId == p.Starts()[k]
  {
    NewContexts(r, desired, p, started, h - r.next);
  }

  /** Was a build of the stream flagged? */
  ghost predicate FlaggedBuild(p: Plan, started: nat -> bool, id: string, k: nat) {
    k < |p.Starts()| && p.Starts()[k] == id && !started(k)
  }

  /** A stream's name is on a flagged context exactly when one of its builds was flagged. */
  lemma FlaggedNames(r: Registry, desired: map<string, StreamConfig>, p: Plan, started: nat -> bool, id: string)
    requires Plans(r, desired, p)
    ensures forall h :: h in Flagged(r.next, |p.Starts()|, started) ==> h in Applied(r, desired, p, started).contexts
    ensures Names(Applied(r, desired, p, started), Flagged(r.next, |p.Starts()|, started), id)
      <==> exists k: nat :: FlaggedBuild(p, started, id, k)
  {
    forall h | h in Flagged(r.next, |p.Starts()|, started) ensures NamedAsBuilt(Applied(r, desired, p, started), p, r.next, h) {
      FlaggedContext(r, desired, p, started, h);
    }
    NamesOfBuilds(Applied(r, desired, p, started), p, r.next, started, id);
  }

  ghost predicate NamedAsBuilt(s: Registry, p: Plan, next: Handle, h: Handle) {
    h in s.contexts && next <= h < next + |p.Starts()| && s.contexts[h].streamId == p.Starts()[h - next]
  }

  lemma {:induction false} NamesOfBuilds(s: Registry, p: Plan, next: Handle, started: nat -> bool, id: string)
    requires forall h :: h in Flagged(next, |p.Starts()|, started) ==> NamedAsBuilt(s, p, next, h)
    ensures forall h :: h in Flagged(next, |p.Starts()|, started) ==> h in s.contexts
    ensures Names(s, Flagged(next, |p.Starts()|, started), id) <==> exists k: nat :: FlaggedBuild(p, started, id, k)
  {
    var flagged := Flagged(next, |p.Starts()|, started);
    if k: nat :| FlaggedBuild(p, started, id, k) {
      assert next + k in flagged;
      assert NamedAsBuilt(s, p, next, next + k);
    }
    if h :| h in flagged && s.contexts[h].streamId == id {
      assert FlaggedBuild(p, started, id, h - next);
    }
  }

  /** What the late stops take away: the entry of a stream one of whose new contexts was flagged. */
  lemma PendingStopsById(r: Registry, desired: map<string, StreamConfig>, p: Plan, started: nat -> bool, id: string)
    requires Plans(r, desired, p)
    ensures var s, t := Applied(r, desired, p, started), AfterPendingStops(r, desired, p, started);
      && t.streams == s.streams
      && (id in t.scheduler <==> id in s.scheduler && forall k: nat :: !FlaggedBuild(p, started, id, k))
  {
    FlaggedNames(r, desired, p, started, id);
    var s, t := Applied(r, desired, p, started), AfterPendingStops(r, desired, p, started);
    StopAllEffect(s, Flagged(r.next, |p.Starts()|, started), id, 0);
    assert Scheduled(t, id).Some? <==> id in t.scheduler;
  }

  /** In the end a registered stream is without a scheduler entry if and only if its transport changed and
      exactly one of its two new contexts was flagged, whichever it was. */
  lemma UnscheduledInTheEndIff(r: Registry, before: map<string, StreamConfig>, desired: map<string, StreamConfig>,
                               p: Plan, started: nat -> bool, id: string)
    requires Plans(r, desired, p) && Runs(r, before)
    ensures var t := AfterPendingStops(r, desired, p, started);
      id in t.streams && id !in t.scheduler
      <==> Moves(r, desired, id) && started(FirstBuild(p, id)) != started(SecondBuild(p, id))
  {
    if id !in desired {
      PendingStopsById(r, desired, p, started, id);
      UndesiredIsGone(r, desired, p, started, id);
    } else if Stays(r, desired, id) {
      StayingIsScheduled(r, before, desired, p, started, id);
    } else {
      UnscheduledAfterBuilding(r, desired, p, started, id);
    }
  }

  lemma StayingIsScheduled(r: Registry, before: map<string, StreamConfig>, desired: map<string, StreamConfig>,
                           p: Plan, started: nat -> bool, id: string)
    requires Plans(r, desired, p) && Runs(r, before) && Stays(r, desired, id)
    ensures id in AfterPendingStops(r, desired, p, started).scheduler
  {
    PendingStopsById(r, desired, p, started, id);
    StaysScheduled(r, before, desired, p, started, id);
    NeverRebuilt(r, desired, p, started, id);
  }

  lemma StaysScheduled(r: Registry, before: map<string, StreamConfig>, desired: map<string, StreamConfig>,
                       p: Plan, started: nat -> bool, id: string)
    requires Plans(r, desired, p) && Runs(r, before) && Stays(r, desired, id)
    ensures id in Applied(r, desired, p, started).scheduler
  {
    assert Agrees(r, id, before[id]);
    UnchangedTransportIsUndisturbed(r, desired, p, started, id);
  }

  lemma NeverRebuilt(r: Registry, desired: map<string, StreamConfig>, p: Plan, started: nat -> bool, id: string)
    requires Plans(r, desired, p) && Stays(r, desired, id)
    ensures forall k: nat :: !FlaggedBuild(p, started, id, k)
  {
    StartedIds(r, desired, p, id);
  }

  lemma UnscheduledAfterBuilding(r: Registry, desired: map<string, StreamConfig>, p: Plan, started: nat -> bool, id: string)
    requires Plans(r, desired, p) && id in desired && !Stays(r, desired, id)
    ensures var t := AfterPendingStops(r, desired, p, started);
      id in t.streams && id !in t.scheduler
      <==> Moves(r, desired, id) && started(FirstBuild(p, id)) != started(SecondBuild(p, id))
  {
    PendingStopsById(r, desired, p, started, id);
    ScheduledIff(r, desired, p, started, id);
    RegisteredIff(r, desired, p, started, id);
    FlaggedBuilds(r, desired, p, started, id);
  }

  lemma FlaggedBuilds(r: Registry, desired: map<string, StreamConfig>, p: Plan, started: nat -> bool, id: string)
    requires Plans(r, desired, p) && id in desired && !Stays(r, desired, id)
    ensures (exists k: nat :: FlaggedBuild(p, started, id, k))
      <==> !started(SecondBuild(p, id)) || (Moves(r, desired, id) && !started(FirstBuild(p, id)))
  {
    BuildPositions(r, desired, p, id);
    if k: nat :| FlaggedBuild(p, started, id, k) {
      BuildsOf(r, desired, p, id, k);
    }
    if !started(SecondBuild(p, id)) { assert FlaggedBuild(p, started, id, SecondBuild(p, id)); }
    if Moves(r, desired, id) && !started(FirstBuild(p, id)) { assert FlaggedBuild(p, started, id, FirstBuild(p, id)); }
  }

  // ---------------------------------------------------------------------------------------------
  // An example
  // ---------------------------------------------------------------------------------------------

  function ConfigAt(url: string): StreamConfig {
    StreamConfig(true, "cam", url, "", 0, "", "", 0, 0, [], None)
  }

  const RUNNING: Registry := Registry(
    map["cam" := 0], map[0 := Built(ConfigAt("rtsp://old"), true)], map["cam" := Entry(ConfigAt("rtsp://old"), 0)], 1)

  const OLD_CAM: map<string, StreamConfig> := map["cam" := ConfigAt("rtsp://old")]
  const NEW_CAM: map<string, StreamConfig> := map["cam" := ConfigAt("rtsp://new")]
  const NEW_URL: Plan := Plan(["cam"], [], ["cam"], ["cam"])

  lemma NewUrlIsPlanned()
    ensures Plans(RUNNING, NEW_CAM, NEW_URL) && Runs(RUNNING, OLD_CAM) && Moves(RUNNING, NEW_CAM, "cam")
    ensures FirstBuild(NEW_URL, "cam") == 0 && SecondBuild(NEW_URL, "cam") == 1
  {
    assert ConfigAt("rtsp://old").rtspUrl[7] == 'o' && ConfigAt("rtsp://new").rtspUrl[7] == 'n';
    assert Moves(RUNNING, NEW_CAM, "cam");
    assert Agrees(RUNNING, "cam", OLD_CAM["cam"]);
  }

  /** A stream gets a new url: its first new context is orphaned, although nothing goes wrong. */
  lemma ANewUrlOrphansAContext()
    ensures Plans(RUNNING, NEW_CAM, NEW_URL) && Runs(RUNNING, OLD_CAM)
    ensures (forall h: Handle :: !Orphan(RUNNING, h)) && Orphan(Applied(RUNNING, NEW_CAM, NEW_URL, k => true), 1)
  {
    NewUrlIsPlanned();
    OrphansOfABatch(RUNNING, NEW_CAM, NEW_URL, k => true, 1);
  }

  /** And the second of its two contexts is flagged while it is being built: it stays registered, but is
      never inferred on again. */
  lemma AStreamLosesItsEntry()
    ensures Plans(RUNNING, NEW_CAM, NEW_URL) && Runs(RUNNING, OLD_CAM)
    ensures var s := Applied(RUNNING, NEW_CAM, NEW_URL, k => k == 0); "cam" in s.streams && "cam" !in s.scheduler
  {
    NewUrlIsPlanned();
    RegisteredWithoutScheduling(RUNNING, OLD_CAM, NEW_CAM, NEW_URL, k => k == 0, "cam");
  }
}
