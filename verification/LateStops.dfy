/** Pipeline::requestAsyncStopStream (src/pipeline/Pipeline.cpp) beside the main loop: contexts ask to be
    stopped at any time, and the main loop serves the requests before its next batch. The scheduler forgets
    by stream id, whichever context the request came from. */
module LateStops {
  import opened Common
  import opened MergeRules
  import opened Reconcile

  /** The registry and pending_stop_streams_. */
  datatype Loop = Loop(registry: Registry, pending: seq<Handle>)

  /** A context that is stopped already asks for nothing. */
  predicate Asks(r: Registry, h: Handle) { h in r.contexts && !r.contexts[h].stopped }

  /** requestAsyncStopStream after its first check: the context is flagged, and no longer registered. */
  function Flag(r: Registry, h: Handle): Registry
    requires h in r.contexts
  {
    var c := r.contexts[h];
    r.(contexts := r.contexts[h := c.(stopped := true)],
       streams := if c.streamId in r.streams && r.streams[c.streamId] == h then r.streams - {c.streamId} else r.streams)
  }

  datatype Event = RequestStop(h: Handle) | ServeStops

  predicate PendingExist(l: Loop) { forall h :: h in l.pending ==> h in l.registry.contexts }

  function Step(l: Loop, e: Event): (m: Loop)
    requires PendingExist(l)
    ensures PendingExist(m) && m.registry.contexts.Keys == l.registry.contexts.Keys
  {
    match e
    case RequestStop(h) => if Asks(l.registry, h) then Loop(Flag(l.registry, h), l.pending + [h]) else l
    case ServeStops => Loop(StopAll(l.registry, l.pending), [])
  }

  function After(l: Loop, events: seq<Event>): (m: Loop)
    requires PendingExist(l)
    ensures PendingExist(m) && m.registry.contexts.Keys == l.registry.contexts.Keys
    decreases |events|
  {
    if events == [] then l else Step(After(l, events[..|events| - 1]), events[|events| - 1])
  }

  // ---------------------------------------------------------------------------------------------
  // What any interleaving of requests and serving comes to
  // ---------------------------------------------------------------------------------------------

  /** The contexts that have asked to be stopped, those that were pending at the start among them. */
  predicate Asked(l: Loop, events: seq<Event>, h: Handle) {
    h in l.pending || (Asks(l.registry, h) && RequestStop(h) in events)
  }

  /** Registered contexts run under their own ids, pending ones are stopped. */
  ghost predicate Orderly(l: Loop) {
    WellFormed(l.registry) && forall h :: h in l.pending ==> h in l.registry.contexts && l.registry.contexts[h].stopped
  }

  ghost predicate SameNames(r: Registry, s: Registry) {
    s.contexts.Keys == r.contexts.Keys && forall h :: h in r.contexts ==> s.contexts[h].streamId == r.contexts[h].streamId
  }

  /** Contexts and streams know of every request at once. */
  ghost predicate Known(l: Loop, events: seq<Event>, s: Registry) {
    && SameNames(l.registry, s) && s.next == l.registry.next
    && (forall h :: h in s.contexts ==> (s.contexts[h].stopped <==> l.registry.contexts[h].stopped || Asked(l, events, h)))
    && (forall id :: Registered(s, id) ==
          if id in l.registry.streams && !Asked(l, events, l.registry.streams[id]) then Registered(l.registry, id) else None)
  }

  predicate Named(r: Registry, handles: set<Handle>, id: string) {
    exists h :: h in handles && h in r.contexts && r.contexts[h].streamId == id
  }

  /** The scheduler knows of those that were served. */
  ghost predicate Forgotten(l: Loop, s: Registry, served: set<Handle>) {
    forall id :: Scheduled(s, id) == if Named(l.registry, served, id) then None else Scheduled(l.registry, id)
  }

  ghost predicate Split(l: Loop, events: seq<Event>, pending: seq<Handle>, served: set<Handle>) {
    forall h :: h in pending || h in served <==> Asked(l, events, h)
  }

  lemma AskedAfter(l: Loop, events: seq<Event>, e: Event, h: Handle)
    ensures Asked(l, events + [e], h) <==> Asked(l, events, h) || (Asks(l.registry, h) && e == RequestStop(h))
  {
  }

  /** A request that is heard is a new one; one that is not changes nothing. */
  lemma HeardIsNew(l: Loop, events: seq<Event>, s: Registry, h: Handle)
    requires Orderly(l) && Known(l, events, s)
    ensures Asks(s, h) <==> Asks(l.registry, h) && !Asked(l, events, h)
  {
  }

  lemma RequestIsKnown(l: Loop, events: seq<Event>, s: Registry, h: Handle)
    requires Orderly(l) && Known(l, events, s)
    ensures Known(l, events + [RequestStop(h)], if Asks(s, h) then Flag(s, h) else s)
  {
    HeardIsNew(l, events, s, h);
    forall x ensures Asked(l, events + [RequestStop(h)], x) <==> Asked(l, events, x) || (Asks(s, h) && x == h) {
      AskedAfter(l, events, RequestStop(h), x);
    }
    if Asks(s, h) {
      FlaggedById(l.registry, s, h);
    }
  }

  lemma FlaggedById(r: Registry, s: Registry, h: Handle)
    requires WellFormed(r) && SameNames(r, s) && h in s.contexts
    requires forall id :: id in s.streams ==> id in r.streams && s.streams[id] == r.streams[id]
    ensures SameNames(r, Flag(s, h)) && Flag(s, h).next == s.next && Flag(s, h).scheduler == s.scheduler
    ensures forall x :: x in s.contexts ==> (Flag(s, h).contexts[x].stopped <==> s.contexts[x].stopped || x == h)
    ensures forall id :: Registered(Flag(s, h), id) == if Registered(s, id) == Some(h) then None else Registered(s, id)
  {
    assert forall id :: id in s.streams && s.streams[id] == h ==> id == s.contexts[h].streamId;
  }

  lemma {:induction false} ServingIsKnown(l: Loop, events: seq<Event>, s: Registry, pending: seq<Handle>)
    requires Orderly(l) && Known(l, events, s) && forall h :: h in pending ==> h in s.contexts && Asked(l, events, h)
    ensures Known(l, events + [ServeStops], StopAll(s, pending))
  {
    forall h ensures Asked(l, events + [ServeStops], h) <==> Asked(l, events, h) {
      AskedAfter(l, events, ServeStops, h);
    }
    forall h | h in s.contexts
      ensures StopAll(s, pending).contexts[h].streamId == s.contexts[h].streamId
      ensures StopAll(s, pending).contexts[h].stopped <==> s.contexts[h].stopped || h in pending
    {
      StopAllEffect(s, pending, "", h);
    }
  }

  lemma {:induction false} ServingForgets(l: Loop, s: Registry, pending: seq<Handle>, served: set<Handle>)
    requires Forgotten(l, s, served) && SameNames(l.registry, s) && forall h :: h in pending ==> h in s.contexts
    ensures Forgotten(l, StopAll(s, pending), served + (set h | h in pending))
  {
    var all := served + (set h | h in pending);
    forall id ensures Scheduled(StopAll(s, pending), id) == if Named(l.registry, all, id) then None else Scheduled(l.registry, id) {
      StopAllEffect(s, pending, id, 0);
      NamesOrNamed(l.registry, s, pending, served, id);
    }
  }

  lemma NamesOrNamed(r: Registry, s: Registry, pending: seq<Handle>, served: set<Handle>, id: string)
    requires SameNames(r, s) && forall h :: h in pending ==> h in s.contexts
    ensures Named(r, served + (set h | h in pending), id) <==> Named(r, served, id) || Names(s, pending, id)
  {
    var all := served + (set h | h in pending);
    if h :| h in served && h in r.contexts && r.contexts[h].streamId == id { assert h in all; }
    if h :| h in pending && s.contexts[h].streamId == id { assert h in all; }
  }

  /** Requests and serving in any order: contexts and streams have heard all requests, the scheduler those that
      were served. */
  lemma {:induction false} AnyInterleaving(l: Loop, events: seq<Event>) returns (served: set<Handle>)
    requires Orderly(l)
    ensures var m := After(l, events);
      Known(l, events, m.registry) && Split(l, events, m.pending, served) && Forgotten(l, m.registry, served)
    decreases |events|
  {
    if events == [] {
      served := {};
    } else {
      var before, e := events[..|events| - 1], events[|events| - 1];
      served := AnyInterleaving(l, before);
      served := OneMoreEvent(l, before, e, After(l, before), served);
      assert events == before + [e];
    }
  }

  lemma OneMoreEvent(l: Loop, events: seq<Event>, e: Event, m: Loop, served: set<Handle>) returns (served': set<Handle>)
    requires Orderly(l) && PendingExist(m) && Known(l, events, m.registry)
    requires Split(l, events, m.pending, served) && Forgotten(l, m.registry, served)
    ensures var n := Step(m, e);
      Known(l, events + [e], n.registry) && Split(l, events + [e], n.pending, served') && Forgotten(l, n.registry, served')
  {
    forall h ensures Asked(l, events + [e], h) <==> Asked(l, events, h) || (Asks(l.registry, h) && e == RequestStop(h)) {
      AskedAfter(l, events, e, h);
    }
    match e
    case RequestStop(h) =>
      served' := served;
      RequestIsKnown(l, events, m.registry, h);
      HeardIsNew(l, events, m.registry, h);
    case ServeStops =>
      served' := served + (set h | h in m.pending);
      ServingIsKnown(l, events, m.registry, m.pending);
      ServingForgets(l, m.registry, m.pending, served);
  }

  lemma KnownIsWellFormed(l: Loop, events: seq<Event>, s: Registry)
    requires Orderly(l) && Known(l, events, s)
    ensures WellFormed(s)
  {
    forall id | id in s.streams
      ensures id in l.registry.streams && s.streams[id] == l.registry.streams[id] && !Asked(l, events, s.streams[id])
    {
      assert Registered(s, id) == Some(s.streams[id]);
    }
  }

  lemma {:induction false} RequestsKeepOrder(l: Loop, events: seq<Event>)
    requires Orderly(l)
    ensures Orderly(After(l, events))
  {
    var served := AnyInterleaving(l, events);
    KnownIsWellFormed(l, events, After(l, events).registry);
  }

  lemma StepKeepsOrder(l: Loop, e: Event)
    requires Orderly(l)
    ensures PendingExist(l) && Orderly(Step(l, e))
  {
    assert [e][..0] == [];
    RequestsKeepOrder(l, [e]);
    assert After(l, [e]) == Step(l, e);
  }

  // ---------------------------------------------------------------------------------------------
  // When the scheduler and the registered streams agree in the end
  // ---------------------------------------------------------------------------------------------

  function EntryHandle(e: Option<Entry>): Option<Handle> {
    match e case None => None case Some(entry) => Some(entry.bufferOf)
  }

  ghost predicate MatchedAt(r: Registry, id: string) { Registered(r, id) == EntryHandle(Scheduled(r, id)) }

  /** Every registered stream is scheduled with the buffer of its context, and nothing else is. */
  ghost predicate Matched(r: Registry) { forall id :: MatchedAt(r, id) }

  /** Has a context of this stream id asked to be stopped? */
  ghost predicate NameAsked(l: Loop, events: seq<Event>, id: string) {
    exists h :: Asked(l, events, h) && h in l.registry.contexts && l.registry.contexts[h].streamId == id
  }

  /** When everything is served: a stream is registered unless its own context asked, and scheduled unless any
      context of its name did. */
  lemma {:induction false} WhenAllIsServed(l: Loop, events: seq<Event>, id: string)
    requires Orderly(l) && After(l, events).pending == []
    ensures var r, s := l.registry, After(l, events).registry;
      && Registered(s, id) == (if id in r.streams && !Asked(l, events, r.streams[id]) then Registered(r, id) else None)
      && Scheduled(s, id) == (if NameAsked(l, events, id) then None else Scheduled(r, id))
  {
    var served := AnyInterleaving(l, events);
    assert Named(l.registry, served, id) <==> NameAsked(l, events, id);
  }

  lemma {:induction false} MatchedInTheEndAt(r: Registry, events: seq<Event>, id: string)
    requires WellFormed(r) && MatchedAt(r, id) && After(Loop(r, []), events).pending == []
    ensures var s := After(Loop(r, []), events).registry;
      MatchedAt(s, id) <==>
        (id in s.streams ==> forall h :: RequestStop(h) in events && Orphan(r, h) ==> r.contexts[h].streamId != id)
  {
    var l := Loop(r, []);
    WhenAllIsServed(l, events, id);
    var s := After(l, events).registry;
    assert Registered(s, id).Some? <==> id in s.streams;
    if id in r.streams && Asked(l, events, r.streams[id]) {
      assert NameAsked(l, events, id);
    }
    if id in s.streams {
      if h :| Asked(l, events, h) && h in r.contexts && r.contexts[h].streamId == id {
        assert Orphan(r, h) && RequestStop(h) in events;
      }
      if h :| RequestStop(h) in events && Orphan(r, h) && r.contexts[h].streamId == id {
        assert Asked(l, events, h);
      }
    }
  }

  /** From a registry in order, whatever is requested and served in whatever order: once all is served, streams
      and scheduler agree if and only if no orphaned context asked to be stopped whose stream id is still
      registered, with the context that took its place. */
  lemma {:induction false} MatchedInTheEndIff(r: Registry, events: seq<Event>)
    requires WellFormed(r) && Matched(r) && After(Loop(r, []), events).pending == []
    ensures var s := After(Loop(r, []), events).registry;
      Matched(s) <==> forall h :: RequestStop(h) in events && Orphan(r, h) ==> r.contexts[h].streamId !in s.streams
  {
    var s := After(Loop(r, []), events).registry;
    forall id ensures MatchedAt(s, id) <==>
      (id in s.streams ==> forall h :: RequestStop(h) in events && Orphan(r, h) ==> r.contexts[h].streamId != id)
    {
      MatchedInTheEndAt(r, events, id);
    }
  }

  // ---------------------------------------------------------------------------------------------
  // Requests after a batch
  // ---------------------------------------------------------------------------------------------

  /** What the main loop starts from after a batch: the contexts flagged while they were built are pending. */
  ghost function AfterBatch(r: Registry, desired: map<string, StreamConfig>, p: Plan, started: nat -> bool): (l: Loop)
    requires Plans(r, desired, p)
    ensures PendingExist(l)
  {
    FlaggedExist(r, desired, p, started);
    Loop(Applied(r, desired, p, started), Reconcile.Flagged(r.next, |p.Starts()|, started))
  }

  lemma RegisteredRuns(r: Registry, desired: map<string, StreamConfig>, p: Plan, started: nat -> bool, id: string)
    requires Plans(r, desired, p) && id in Applied(r, desired, p, started).streams
    ensures var s := Applied(r, desired, p, started); var h := s.streams[id];
      h in s.contexts && h < s.next && !s.contexts[h].stopped && s.contexts[h].streamId == id
  {
    if id !in desired {
      UndesiredIsGone(r, desired, p, started, id);
    } else if Stays(r, desired, id) {
      UnchangedTransportIsUndisturbed(r, desired, p, started, id);
    } else {
      RegisteredAsBuilt(r, desired, p, started, id);
      NewContexts(r, desired, p, started, LastStarted(p.Starts(), started, id).value);
    }
  }

  lemma BatchIsOrderly(r: Registry, desired: map<string, StreamConfig>, p: Plan, started: nat -> bool)
    requires Plans(r, desired, p)
    ensures Orderly(AfterBatch(r, desired, p, started))
  {
    var s := Applied(r, desired, p, started);
    forall h: Handle ensures h in s.contexts <==> h < s.next {
      StartAllContexts(Reduced(r, desired, p), desired, p.Starts(), started, h);
    }
    forall id | id in s.streams
      ensures s.streams[id] < s.next && !s.contexts[s.streams[id]].stopped && s.contexts[s.streams[id]].streamId == id
    {
      RegisteredRuns(r, desired, p, started, id);
    }
    forall h | h in Reconcile.Flagged(r.next, |p.Starts()|, started) ensures h in s.contexts && s.contexts[h].stopped {
      NewContexts(r, desired, p, started, h - r.next);
    }
  }

  /** Of every stream that moves both new contexts were flagged: above all, when nothing moves. */
  ghost predicate MovesComeToNothing(r: Registry, desired: map<string, StreamConfig>, p: Plan, started: nat -> bool)
    requires Plans(r, desired, p)
  {
    forall id :: Moves(r, desired, id) ==> !started(FirstBuild(p, id)) && !started(SecondBuild(p, id))
  }

  lemma BuiltIsMatched(r: Registry, desired: map<string, StreamConfig>, p: Plan, started: nat -> bool, id: string)
    requires Plans(r, desired, p) && id in desired && !Stays(r, desired, id)
    requires Moves(r, desired, id) ==> !started(FirstBuild(p, id))
    ensures MatchedAt(Applied(r, desired, p, started), id)
    ensures id in Applied(r, desired, p, started).streams ==> started(SecondBuild(p, id))
  {
    ScheduledAsBuilt(r, desired, p, started, id);
    BuiltOnceOrTwice(r, desired, p, started, id);
    RegisteredAfterBuilds(r, desired, p, started, id);
  }

  lemma BatchIsMatched(r: Registry, before: map<string, StreamConfig>, desired: map<string, StreamConfig>,
                       p: Plan, started: nat -> bool, id: string)
    requires Plans(r, desired, p) && Runs(r, before) && MovesComeToNothing(r, desired, p, started)
    ensures MatchedAt(Applied(r, desired, p, started), id)
  {
    if id !in desired {
      UndesiredIsGone(r, desired, p, started, id);
    } else if Stays(r, desired, id) {
      assert Agrees(r, id, before[id]);
      UnchangedTransportIsUndisturbed(r, desired, p, started, id);
    } else {
      BuiltIsMatched(r, desired, p, started, id);
    }
  }

  lemma NoPendingIsRegistered(r: Registry, desired: map<string, StreamConfig>, p: Plan, started: nat -> bool, h: Handle)
    requires Plans(r, desired, p) && MovesComeToNothing(r, desired, p, started)
    requires h in AfterBatch(r, desired, p, started).pending
    ensures h in Applied(r, desired, p, started).contexts
    ensures Applied(r, desired, p, started).contexts[h].streamId !in Applied(r, desired, p, started).streams
  {
    FlaggedContext(r, desired, p, started, h);
    var k := h - r.next;
    var id := p.Starts()[k];
    PlaceOfBuild(r, desired, p, k);
    BuiltIsMatched(r, desired, p, started, id);
  }

  /** In order, and nobody can take an entry away from a registered stream. */
  ghost predicate Sound(l: Loop) {
    && Orderly(l) && Matched(l.registry)
    && (forall h :: h in l.pending ==> l.registry.contexts[h].streamId !in l.registry.streams)
    && (forall h: Handle :: !Orphan(l.registry, h))
  }

  lemma BatchIsSound(r: Registry, before: map<string, StreamConfig>, desired: map<string, StreamConfig>,
                     p: Plan, started: nat -> bool)
    requires Plans(r, desired, p) && Runs(r, before) && MovesComeToNothing(r, desired, p, started)
    requires forall h: Handle :: !Orphan(r, h)
    ensures Sound(AfterBatch(r, desired, p, started))
  {
    var l := AfterBatch(r, desired, p, started);
    BatchIsOrderly(r, desired, p, started);
    forall id ensures MatchedAt(l.registry, id) { BatchIsMatched(r, before, desired, p, started, id); }
    forall h | h in l.pending ensures l.registry.contexts[h].streamId !in l.registry.streams {
      NoPendingIsRegistered(r, desired, p, started, h);
    }
    NothingOrphanedIff(r, desired, p, started);
  }

  lemma {:induction false} SoundStaysMatched(l: Loop, events: seq<Event>, id: string)
    requires Sound(l) && After(l, events).pending == []
    ensures MatchedAt(After(l, events).registry, id)
  {
    WhenAllIsServed(l, events, id);
    var r := l.registry;
    assert MatchedAt(r, id);
    if id in r.streams && Asked(l, events, r.streams[id]) {
      assert NameAsked(l, events, id);
    }
    if h :| Asked(l, events, h) && h in r.contexts && r.contexts[h].streamId == id && id in r.streams {
      assert !Orphan(r, h);
    }
  }

  /** Streams and scheduler agree once everything is served, whatever is requested meanwhile. */
  ghost predicate StopsAreSafe(l: Loop)
    requires PendingExist(l)
  {
    forall events :: After(l, events).pending == [] ==> Matched(After(l, events).registry)
  }

  /** A context that was orphaned takes its successor's entry away when it asks to be stopped. */
  lemma OrphanTakesTheEntry(l: Loop, h: Handle, g: Handle, id: string)
    requires Orderly(l) && Asks(l.registry, h) && l.registry.contexts[h].streamId == id
    requires Registered(l.registry, id) == Some(g) && g !in l.pending && g != h
    ensures !StopsAreSafe(l)
  {
    var events := [RequestStop(h), ServeStops];
    assert After(l, events) == Step(After(l, events[..1]), ServeStops);
    WhenAllIsServed(l, events, id);
    assert Asked(l, events, h) && NameAsked(l, events, id);
    assert !MatchedAt(After(l, events).registry, id);
  }

  lemma FirstContextRuns(r: Registry, desired: map<string, StreamConfig>, p: Plan, started: nat -> bool, k: nat)
    requires Plans(r, desired, p) && BuiltTwice(p, started, k)
    ensures var s := Applied(r, desired, p, started); Asks(s, r.next + k) && s.contexts[r.next + k].streamId == p.moves[k]
  {
    assert p.Starts()[k] == p.moves[k];
    NewContexts(r, desired, p, started, k);
  }

  lemma SecondContextIsRegistered(r: Registry, desired: map<string, StreamConfig>, p: Plan, started: nat -> bool, k: nat)
    requires Plans(r, desired, p) && BuiltTwice(p, started, k)
    ensures SecondBuild(p, p.moves[k]) != k
    ensures Registered(Applied(r, desired, p, started), p.moves[k]) == Some(r.next + SecondBuild(p, p.moves[k]))
  {
    assert p.Starts()[k] == p.moves[k];
    PlaceOfBuild(r, desired, p, k);
    RegisteredAfterBuilds(r, desired, p, started, p.moves[k]);
  }

  lemma BuiltTwiceIsUnsafe(r: Registry, desired: map<string, StreamConfig>, p: Plan, started: nat -> bool, k: nat)
    requires Plans(r, desired, p) && BuiltTwice(p, started, k)
    ensures !StopsAreSafe(AfterBatch(r, desired, p, started))
  {
    var l, second := AfterBatch(r, desired, p, started), SecondBuild(p, p.moves[k]);
    BatchIsOrderly(r, desired, p, started);
    FirstContextRuns(r, desired, p, started, k);
    SecondContextIsRegistered(r, desired, p, started, k);
    OrphanTakesTheEntry(l, r.next + k, r.next + second, p.moves[k]);
  }

  lemma OneFlagTakesTheEntry(r: Registry, before: map<string, StreamConfig>, desired: map<string, StreamConfig>,
                             p: Plan, started: nat -> bool, id: string)
    requires Plans(r, desired, p) && Runs(r, before)
    requires Moves(r, desired, id) && started(FirstBuild(p, id)) != started(SecondBuild(p, id))
    ensures !StopsAreSafe(AfterBatch(r, desired, p, started))
  {
    UnscheduledInTheEndIff(r, before, desired, p, started, id);
    UnmatchedWhenServed(AfterBatch(r, desired, p, started), AfterPendingStops(r, desired, p, started), id);
  }

  lemma UnmatchedWhenServed(l: Loop, s: Registry, id: string)
    requires PendingExist(l) && s == StopAll(l.registry, l.pending) && id in s.streams && id !in s.scheduler
    ensures !StopsAreSafe(l)
  {
    assert [ServeStops][..0] == [];
    assert After(l, [ServeStops]) == Loop(s, []);
    assert !MatchedAt(s, id);
  }

  /** After a batch, whatever contexts ask to be stopped later: streams and scheduler agree once all requests are
      served, if and only if of every stream whose transport changed both new contexts were flagged at once. */
  lemma LateStopsAreSafeIff(r: Registry, before: map<string, StreamConfig>, desired: map<string, StreamConfig>,
                            p: Plan, started: nat -> bool)
    requires Plans(r, desired, p) && Runs(r, before) && forall h: Handle :: !Orphan(r, h)
    ensures StopsAreSafe(AfterBatch(r, desired, p, started)) <==> MovesComeToNothing(r, desired, p, started)
  {
    var l := AfterBatch(r, desired, p, started);
    if MovesComeToNothing(r, desired, p, started) {
      BatchIsSound(r, before, desired, p, started);
      forall events | After(l, events).pending == [] ensures Matched(After(l, events).registry) {
        forall id ensures MatchedAt(After(l, events).registry, id) { SoundStaysMatched(l, events, id); }
      }
    } else {
      var id :| Moves(r, desired, id) && (started(FirstBuild(p, id)) || started(SecondBuild(p, id)));
      if started(FirstBuild(p, id)) && started(SecondBuild(p, id)) {
        NothingBuiltTwiceIff(r, desired, p, started);
        var k: nat :| BuiltTwice(p, started, k);
        BuiltTwiceIsUnsafe(r, desired, p, started, k);
      } else {
        OneFlagTakesTheEntry(r, before, desired, p, started, id);
      }
    }
  }

  // ---------------------------------------------------------------------------------------------
  // Requests between the last serving and the diff
  // ---------------------------------------------------------------------------------------------


  lemma {:induction false} UpdatesKeepNames(r: Registry, desired: map<string, StreamConfig>, ids: seq<string>)
    requires forall id :: id in ids ==> id in desired && id in r.streams && r.streams[id] in r.contexts
    ensures SameNames(r, UpdateAll(r, desired, ids))
    decreases |ids|
  {
    if ids != [] { UpdatesKeepNames(r, desired, ids[..|ids| - 1]); }
  }

  lemma {:induction false} StopsKeepNames(r: Registry, handles: seq<Handle>)
    requires forall h :: h in handles ==> h in r.contexts
    ensures SameNames(r, StopAll(r, handles))
  {
    forall h | h in r.contexts ensures StopAll(r, handles).contexts[h].streamId == r.contexts[h].streamId {
      StopAllEffect(r, handles, "", h);
    }
  }

  lemma OldContextKeepsItsName(r: Registry, desired: map<string, StreamConfig>, p: Plan, started: nat -> bool, h: Handle)
    requires Plans(r, desired, p) && h in r.contexts
    ensures var s := Applied(r, desired, p, started); h in s.contexts && s.contexts[h].streamId == r.contexts[h].streamId
  {
    var e, handles := Erase(r, p.stop), HandlesOf(r.streams, p.stop);
    StopsKeepNames(e, handles);
    UpdatesKeepNames(StopAll(e, handles), desired, p.update);
    StartAllContexts(Reduced(r, desired, p), desired, p.Starts(), started, h);
  }

  /** Every context that asks is a registered one. */
  ghost predicate NoOrphans(r: Registry) { forall h: Handle :: !Orphan(r, h) }

  lemma AskedIsRegistered(r: Registry, events: seq<Event>, h: Handle)
    requires WellFormed(r) && NoOrphans(r) && Asked(Loop(r, []), events, h)
    ensures h in r.contexts && r.contexts[h].streamId in r.streams && r.streams[r.contexts[h].streamId] == h
  {
    assert !Orphan(r, h);
  }

  lemma {:induction false} PendingNames(r: Registry, events: seq<Event>, desired: map<string, StreamConfig>, p: Plan, started: nat -> bool, id: string)
    requires WellFormed(r) && NoOrphans(r) && Plans(After(Loop(r, []), events).registry, desired, p)
    ensures var m := After(Loop(r, []), events); var s := Applied(m.registry, desired, p, started);
      && (forall h :: h in m.pending ==> h in s.contexts)
      && (Names(s, m.pending, id) <==> id in r.streams && r.streams[id] in m.pending)
  {
    var m := After(Loop(r, []), events);
    var s := Applied(m.registry, desired, p, started);
    var served := AnyInterleaving(Loop(r, []), events);
    forall h | h in m.pending
      ensures h in s.contexts && s.contexts[h].streamId in r.streams && r.streams[s.contexts[h].streamId] == h
    {
      OldContextKeepsItsName(m.registry, desired, p, started, h);
      AskedIsRegistered(r, events, h);
    }
  }

  lemma {:induction false} StayingIsScheduledAfterRequests(r: Registry, before: map<string, StreamConfig>, events: seq<Event>, id: string)
    requires WellFormed(r) && NoOrphans(r) && Runs(r, before) && id in After(Loop(r, []), events).registry.streams
    ensures var m := After(Loop(r, []), events);
      id in r.streams && r.streams[id] !in m.pending && Scheduled(m.registry, id).Some?
  {
    var l, m := Loop(r, []), After(Loop(r, []), events);
    var served := AnyInterleaving(l, events);
    assert Registered(m.registry, id).Some?;
    assert Agrees(r, id, before[id]);
    if h :| h in served && h in r.contexts && r.contexts[h].streamId == id {
      AskedIsRegistered(r, events, h);
    }
  }

  lemma {:induction false} AskedIsNotRegistered(r: Registry, events: seq<Event>, id: string)
    requires WellFormed(r) && id in r.streams && r.streams[id] in After(Loop(r, []), events).pending
    ensures id !in After(Loop(r, []), events).registry.streams
  {
    var served := AnyInterleaving(Loop(r, []), events);
    assert Registered(After(Loop(r, []), events).registry, id) == None;
  }

  lemma NamesJoin(r: Registry, hs: seq<Handle>, gs: seq<Handle>, id: string)
    requires (forall h :: h in hs ==> h in r.contexts) && forall h :: h in gs ==> h in r.contexts
    ensures (forall h :: h in hs + gs ==> h in r.contexts) && (Names(r, hs + gs, id) <==> Names(r, hs, id) || Names(r, gs, id))
  {
    if h :| h in hs && r.contexts[h].streamId == id { assert h in hs + gs; }
    if h :| h in gs && r.contexts[h].streamId == id { assert h in hs + gs; }
  }

  /** The registry after a batch and the serving that follows it, when some requests were still pending at the diff. */
  ghost function AfterStaleStops(m: Loop, desired: map<string, StreamConfig>, p: Plan, started: nat -> bool): Registry
    requires Plans(m.registry, desired, p)
    requires forall h :: h in m.pending ==> h in Applied(m.registry, desired, p, started).contexts
  {
    FlaggedExist(m.registry, desired, p, started);
    StopAll(Applied(m.registry, desired, p, started), m.pending + Reconcile.Flagged(m.registry.next, |p.Starts()|, started))
  }

  lemma ServedAfterBatch(m: Loop, desired: map<string, StreamConfig>, p: Plan, started: nat -> bool, id: string)
    requires Plans(m.registry, desired, p)
    requires forall h :: h in m.pending ==> h in Applied(m.registry, desired, p, started).contexts
    ensures var s, t := Applied(m.registry, desired, p, started), AfterStaleStops(m, desired, p, started);
      && (id in t.streams <==> id in s.streams)
      && (id in t.scheduler <==>
            id in s.scheduler && !Names(s, m.pending, id) && forall k: nat :: !FlaggedBuild(p, started, id, k))
  {
    var s, flagged := Applied(m.registry, desired, p, started), Reconcile.Flagged(m.registry.next, |p.Starts()|, started);
    FlaggedNames(m.registry, desired, p, started, id);
    NamesJoin(s, m.pending, flagged, id);
    StopAllEffect(s, m.pending + flagged, id, 0);
    assert Scheduled(AfterStaleStops(m, desired, p, started), id).Some? <==> id in AfterStaleStops(m, desired, p, started).scheduler;
    assert Scheduled(s, id).Some? <==> id in s.scheduler;
  }

  /** A request that is still pending at the diff is served when its stream may have been built again: in the end a
      registered stream lacks its scheduler entry if and only if its old context's request was still pending and the
      new context is good, or its transport changed and exactly one of its two contexts was flagged. */
  lemma {:induction false} StaleStopIff(r: Registry, before: map<string, StreamConfig>, events: seq<Event>, desired: map<string, StreamConfig>,
                     p: Plan, started: nat -> bool, id: string)
    requires WellFormed(r) && NoOrphans(r) && Runs(r, before) && Plans(After(Loop(r, []), events).registry, desired, p)
    ensures var m := After(Loop(r, []), events);
      forall h :: h in m.pending ==> h in Applied(m.registry, desired, p, started).contexts
    ensures var m := After(Loop(r, []), events); var t := AfterStaleStops(m, desired, p, started);
      id in t.streams && id !in t.scheduler <==>
        || (id in desired && id in r.streams && r.streams[id] in m.pending && started(SecondBuild(p, id)))
        || (Moves(m.registry, desired, id) && started(FirstBuild(p, id)) != started(SecondBuild(p, id)))
  {
    var m := After(Loop(r, []), events);
    PendingNames(r, events, desired, p, started, id);
    ServedAfterBatch(m, desired, p, started, id);
    if id !in desired {
      UndesiredIsGone(m.registry, desired, p, started, id);
    } else if Stays(m.registry, desired, id) {
      StayingIsScheduledAfterRequests(r, before, events, id);
      UnchangedTransportIsUndisturbed(m.registry, desired, p, started, id);
      NeverRebuilt(m.registry, desired, p, started, id);
    } else {
      ScheduledIff(m.registry, desired, p, started, id);
      RegisteredIff(m.registry, desired, p, started, id);
      FlaggedBuilds(m.registry, desired, p, started, id);
      if id in r.streams && r.streams[id] in m.pending {
        AskedIsNotRegistered(r, events, id);
      }
    }
  }

  /** A running stream's context asks to be stopped, the same configuration comes before that is served: the
      stream is built again, registered, and loses its scheduler entry when the old request is served. */
  lemma AStaleStopTakesTheEntry()
    ensures var m, p := After(Loop(RUNNING, []), [RequestStop(0)]), Plan([], [], [], ["cam"]);
      && Plans(m.registry, OLD_CAM, p) && (forall h :: h in m.pending ==> h in Applied(m.registry, OLD_CAM, p, k => true).contexts)
      && (var t := AfterStaleStops(m, OLD_CAM, p, k => true); "cam" in t.streams && "cam" !in t.scheduler)
  {
    var l, events, p := Loop(RUNNING, []), [RequestStop(0)], Plan([], [], [], ["cam"]);
    NewUrlIsPlanned();
    RequestsKeepOrder(l, events);
    assert events[..0] == [];
    var m := After(l, events);
    assert m == Loop(Flag(RUNNING, 0), [0]);
    assert forall id :: id !in m.registry.streams;
    assert Plans(m.registry, OLD_CAM, p);
    StaleStopIff(RUNNING, OLD_CAM, events, OLD_CAM, p, k => true, "cam");
  }

  /** A stream gets a new url, and its first new context asks to be stopped later: the second one, which is running,
      loses its scheduler entry. */
  lemma ALateStopTakesTheEntry()
    ensures Plans(RUNNING, NEW_CAM, NEW_URL) && !StopsAreSafe(AfterBatch(RUNNING, NEW_CAM, NEW_URL, k => true))
  {
    NewUrlIsPlanned();
    LateStopsAreSafeIff(RUNNING, OLD_CAM, NEW_CAM, NEW_URL, k => true);
  }
}
