/** DeduplicateAlarmPostprocessStep of src/detector/AlgoDetectorWorkflow.cpp: which detections become alarms. */
module AlarmDedup {
  import opened Common

  /** A detection, as far as deduplication looks at it; `payload` is the rest. */
  datatype Detection = Detection(objectId: nat, classId: nat, payload: int)

  /** Detections that are told apart: by track when there is one, else by class. */
  datatype Key = ByObject(id: nat) | ByClass(id: nat)

  function KeyOf(d: Detection, trackerEnabled: bool): Key {
    if trackerEnabled && d.objectId > 0 then ByObject(d.objectId) else ByClass(d.classId)
  }

  /** With the tracker on, detections of tracked objects are the same thing exactly when it is the same object; other
      detections exactly when they have the same class; and a tracked one is never the same thing as another. */
  lemma KeysTellApart(d: Detection, e: Detection, trackerEnabled: bool)
    ensures trackerEnabled && d.objectId > 0 && e.objectId > 0 ==>
      (KeyOf(d, trackerEnabled) == KeyOf(e, trackerEnabled) <==> d.objectId == e.objectId)
    ensures !trackerEnabled || (d.objectId == 0 && e.objectId == 0) ==>
      (KeyOf(d, trackerEnabled) == KeyOf(e, trackerEnabled) <==> d.classId == e.classId)
    ensures trackerEnabled && d.objectId > 0 && e.objectId == 0 ==> KeyOf(d, trackerEnabled) != KeyOf(e, trackerEnabled)
  {
  }

  /** Do two detections count as the same thing? */
  predicate SameThing(d: Detection, e: Detection, trackerEnabled: bool) {
    if trackerEnabled && (d.objectId > 0 || e.objectId > 0) then d.objectId == e.objectId else d.classId == e.classId
  }

  /** The two maps from key to the time of the last alarm. */
  datatype Memory = Memory(byObject: map<nat, int>, byClass: map<nat, int>)

  const EMPTY: Memory := Memory(map[], map[])

  function LastAlarm(m: Memory, k: Key): Option<int> {
    match k
    case ByObject(id) => if id in m.byObject then Some(m.byObject[id]) else None
    case ByClass(id) => if id in m.byClass then Some(m.byClass[id]) else None
  }

  function Remember(m: Memory, k: Key, now: int): Memory {
    match k
    case ByObject(id) => m.(byObject := m.byObject[id := now])
    case ByClass(id) => m.(byClass := m.byClass[id := now])
  }

  function PruneMap(m: map<nat, int>, before: int): map<nat, int> {
    map id | id in m && m[id] > before :: m[id]
  }

  function Prune(m: Memory, before: int): Memory {
    Memory(PruneMap(m.byObject, before), PruneMap(m.byClass, before))
  }

  /** One run of the step: the detections of a frame, its time, and the configuration then in force. */
  datatype Call = Call(detections: seq<Detection>, now: int, window: int, trackerEnabled: bool)

  /** Alarms at or before this time no longer suppress anything in the call. */
  function Cutoff(c: Call): int { c.now - c.window }

  predicate Keeps(m: Memory, k: Key, c: Call) {
    var last := LastAlarm(m, k);
    last.None? || c.now - last.value >= c.window
  }

  /** shouldKeepObject over the detections from position i on. */
  function Filter(m: Memory, c: Call, i: nat): (Memory, seq<Detection>)
    requires i <= |c.detections|
    decreases |c.detections| - i
  {
    if i == |c.detections| then (m, [])
    else
      var k := KeyOf(c.detections[i], c.trackerEnabled);
      if Keeps(m, k, c) then
        var rest := Filter(Remember(m, k, c.now), c, i + 1);
        (rest.0, [c.detections[i]] + rest.1)
      else
        Filter(m, c, i + 1)
  }

  /** run(): a frame without detections does not even prune. */
  function Run(m: Memory, c: Call): (Memory, seq<Detection>) {
    if c.detections == [] then (m, []) else Filter(Prune(m, Cutoff(c)), c, 0)
  }

  /** The same without ever pruning. */
  function RunKeepingAll(m: Memory, c: Call): (Memory, seq<Detection>) {
    Filter(m, c, 0)
  }

  // ---------------------------------------------------------------------------------------------
  // The step, imperatively
  // ---------------------------------------------------------------------------------------------

  const DEFAULT_INTERVAL_MS: int := 5000

  function WindowMs(alarmDedupIntervalS: int): (w: int)
    ensures w > 0
  {
    if alarmDedupIntervalS <= 0 then DEFAULT_INTERVAL_MS else alarmDedupIntervalS * 1000
  }

  method PruneEntries(m: map<nat, int>, before: int) returns (r: map<nat, int>)
    ensures r == PruneMap(m, before)
  {
    r := m;
    var rest := m.Keys;
    while exists id :: id in rest
      invariant rest <= m.Keys
      invariant forall id :: id in r <==> id in m && (id in rest || m[id] > before)
      invariant forall id :: id in r ==> r[id] == m[id]
      decreases |rest|
    {
      var id :| id in rest;
      rest := rest - {id};
      if m[id] <= before {
        r := r - {id};
      }
    }
  }

  class DeduplicateAlarmStep {
    var lastAlarmByObjectId: map<nat, int>
    var lastAlarmByClassId: map<nat, int>

    ghost function State(): Memory
      reads this
    {
      Memory(lastAlarmByObjectId, lastAlarmByClassId)
    }

    constructor ()
      ensures State() == EMPTY
    {
      lastAlarmByObjectId, lastAlarmByClassId := map[], map[];
    }

    method PruneExpiredEntries(now: int, window: int)
      modifies this
      ensures State() == Prune(old(State()), now - window)
    {
      var expiredBefore := now - window;
      lastAlarmByObjectId := PruneEntries(lastAlarmByObjectId, expiredBefore);
      lastAlarmByClassId := PruneEntries(lastAlarmByClassId, expiredBefore);
    }

    method ShouldKeepObject(d: Detection, c: Call) returns (keep: bool)
      modifies this
      ensures var k := KeyOf(d, c.trackerEnabled);
        && keep == Keeps(old(State()), k, c)
        && State() == if keep then Remember(old(State()), k, c.now) else old(State())
      ensures c.trackerEnabled && d.objectId > 0 ==>
        && (!keep <==> d.objectId in old(lastAlarmByObjectId) && c.now - old(lastAlarmByObjectId)[d.objectId] < c.window)
        && lastAlarmByClassId == old(lastAlarmByClassId)
      ensures !c.trackerEnabled || d.objectId == 0 ==>
        && (!keep <==> d.classId in old(lastAlarmByClassId) && c.now - old(lastAlarmByClassId)[d.classId] < c.window)
        && lastAlarmByObjectId == old(lastAlarmByObjectId)
    {
      if c.trackerEnabled && d.objectId > 0 {
        if d.objectId in lastAlarmByObjectId && c.now - lastAlarmByObjectId[d.objectId] < c.window {
          return false;
        }
        lastAlarmByObjectId := lastAlarmByObjectId[d.objectId := c.now];
        return true;
      }
      if d.classId in lastAlarmByClassId && c.now - lastAlarmByClassId[d.classId] < c.window {
        return false;
      }
      lastAlarmByClassId := lastAlarmByClassId[d.classId := c.now];
      return true;
    }

    /** run(): inferDoneMonoMs is the frame's own time when positive, else the clock is read. */
    method RunStep(detections: seq<Detection>, inferDoneMonoMs: int, clock: int, alarmDedupIntervalS: int, trackerEnabled: bool)
        returns (alarms: seq<Detection>)
      modifies this
      ensures var c := Call(detections, if inferDoneMonoMs > 0 then inferDoneMonoMs else clock,
                            WindowMs(alarmDedupIntervalS), trackerEnabled);
        (State(), alarms) == Run(old(State()), c)
    {
      if detections == [] {
        return [];
      }
      var now := if inferDoneMonoMs > 0 then inferDoneMonoMs else clock;
      var window := WindowMs(alarmDedupIntervalS);
      var c := Call(detections, now, window, trackerEnabled);
      PruneExpiredEntries(now, window);
      ghost var result := Run(old(State()), c);
      alarms := [];
      for i := 0 to |detections|
        invariant result.0 == Filter(State(), c, i).0
        invariant result.1 == alarms + Filter(State(), c, i).1
      {
        var keep := ShouldKeepObject(detections[i], c);
        if keep {
          alarms := alarms + [detections[i]];
        }
      }
      assert Filter(State(), c, |detections|) == (State(), []);
      assert alarms + [] == alarms;
      assert (State(), alarms) == result;
    }
  }

  // ---------------------------------------------------------------------------------------------
  // Pruning is invisible
  // ---------------------------------------------------------------------------------------------

  /** The decisions of a run of calls. */
  function Decisions(m: Memory, calls: seq<Call>): seq<seq<Detection>>
    decreases |calls|
  {
    if calls == [] then [] else [Run(m, calls[0]).1] + Decisions(Run(m, calls[0]).0, calls[1..])
  }

  function DecisionsKeepingAll(m: Memory, calls: seq<Call>): seq<seq<Detection>>
    decreases |calls|
  {
    if calls == [] then []
    else [RunKeepingAll(m, calls[0]).1] + DecisionsKeepingAll(RunKeepingAll(m, calls[0]).0, calls[1..])
  }

  /** Nothing is missing from p but alarms at or before `cutoff`. */
  ghost predicate SameButOld(p: Memory, full: Memory, cutoff: int) {
    forall k :: LastAlarm(p, k) == LastAlarm(full, k)
      || (LastAlarm(p, k) == None && LastAlarm(full, k).Some? && LastAlarm(full, k).value <= cutoff)
  }

  lemma RememberedIs(m: Memory, k: Key, now: int, j: Key)
    ensures LastAlarm(Remember(m, k, now), j) == if j == k then Some(now) else LastAlarm(m, j)
  {
  }

  lemma PruneForgetsOld(m: Memory, before: int, k: Key)
    ensures LastAlarm(Prune(m, before), k)
      == if LastAlarm(m, k).Some? && LastAlarm(m, k).value > before then LastAlarm(m, k) else None
  {
  }

  lemma {:induction false} FilterAgrees(p: Memory, full: Memory, c: Call, i: nat, cutoff: int)
    requires i <= |c.detections| && SameButOld(p, full, cutoff) && cutoff <= Cutoff(c)
    ensures Filter(p, c, i).1 == Filter(full, c, i).1
    ensures SameButOld(Filter(p, c, i).0, Filter(full, c, i).0, cutoff)
    decreases |c.detections| - i
  {
    if i < |c.detections| {
      var k := KeyOf(c.detections[i], c.trackerEnabled);
      assert LastAlarm(p, k) == LastAlarm(full, k) || LastAlarm(p, k) == None;
      if Keeps(p, k, c) {
        forall j ensures LastAlarm(Remember(p, k, c.now), j) == (if j == k then Some(c.now) else LastAlarm(p, j))
          && LastAlarm(Remember(full, k, c.now), j) == (if j == k then Some(c.now) else LastAlarm(full, j))
        {
          RememberedIs(p, k, c.now, j);
          RememberedIs(full, k, c.now, j);
        }
        FilterAgrees(Remember(p, k, c.now), Remember(full, k, c.now), c, i + 1, cutoff);
      } else {
        FilterAgrees(p, full, c, i + 1, cutoff);
      }
    }
  }

  /** The cutoffs of the calls that prune never go back. */
  predicate CutoffsAdvance(calls: seq<Call>, from: int)
    decreases |calls|
  {
    calls == []
    || (if calls[0].detections == [] then CutoffsAdvance(calls[1..], from)
        else from <= Cutoff(calls[0]) && CutoffsAdvance(calls[1..], Cutoff(calls[0])))
  }

  lemma {:induction false} PruningIsInvisibleFrom(p: Memory, full: Memory, calls: seq<Call>, cutoff: int)
    requires SameButOld(p, full, cutoff) && CutoffsAdvance(calls, cutoff)
    ensures Decisions(p, calls) == DecisionsKeepingAll(full, calls)
    decreases |calls|
  {
    if calls != [] {
      var c := calls[0];
      if c.detections == [] {
        PruningIsInvisibleFrom(p, full, calls[1..], cutoff);
      } else {
        forall k ensures LastAlarm(Prune(p, Cutoff(c)), k)
          == if LastAlarm(p, k).Some? && LastAlarm(p, k).value > Cutoff(c) then LastAlarm(p, k) else None
        {
          PruneForgetsOld(p, Cutoff(c), k);
        }
        FilterAgrees(Prune(p, Cutoff(c)), full, c, 0, Cutoff(c));
        PruningIsInvisibleFrom(Run(p, c).0, RunKeepingAll(full, c).0, calls[1..], Cutoff(c));
      }
    }
  }

  /** While cutoffs never go back, pruning changes no decision. With a fixed window this is to say that time
      does not go back. */
  lemma {:induction false} PruningIsInvisible(m: Memory, calls: seq<Call>, from: int)
    requires CutoffsAdvance(calls, from)
    ensures Decisions(m, calls) == DecisionsKeepingAll(m, calls)
  {
    PruningIsInvisibleFrom(m, m, calls, from);
  }

  lemma {:induction false} FilterOfOne(m: Memory, c: Call)
    requires |c.detections| == 1
    ensures var d := c.detections[0];
      var k := KeyOf(d, c.trackerEnabled);
      Filter(m, c, 0) == if Keeps(m, k, c) then (Remember(m, k, c.now), [d]) else (m, [])
  {
    assert Filter(m, c, 1) == (m, []);
    var d := c.detections[0];
    var k := KeyOf(d, c.trackerEnabled);
    var rest := Filter(Remember(m, k, c.now), c, 1);
    assert rest == (Remember(m, k, c.now), []) && [d] + rest.1 == [d];
  }

  /** A frame that shows one detection of the given class, which has no track. */
  predicate Probes(c: Call, classId: nat) { c.detections == [Detection(0, classId, 0)] }

  /** What one such frame does to the two memories, as far as class 0 is concerned. */
  lemma ProbeStep(p: Memory, full: Memory, c: Call, classId: nat)
    requires Probes(c, classId)
    ensures var k := ByClass(classId);
      && Run(p, c).1 == (if Keeps(Prune(p, Cutoff(c)), k, c) then c.detections else [])
      && RunKeepingAll(full, c).1 == (if Keeps(full, k, c) then c.detections else [])
    ensures var k := ByClass(classId);
      forall j :: j != k ==>
        LastAlarm(Run(p, c).0, j) == LastAlarm(Prune(p, Cutoff(c)), j) && LastAlarm(RunKeepingAll(full, c).0, j) == LastAlarm(full, j)
    ensures var k := ByClass(classId);
      && (Keeps(Prune(p, Cutoff(c)), k, c) ==> LastAlarm(Run(p, c).0, k) == Some(c.now))
      && (Keeps(full, k, c) ==> LastAlarm(RunKeepingAll(full, c).0, k) == Some(c.now))
  {
    var k, pruned := ByClass(classId), Prune(p, Cutoff(c));
    FilterOfOne(pruned, c);
    FilterOfOne(full, c);
    forall j ensures LastAlarm(Remember(pruned, k, c.now), j) == (if j == k then Some(c.now) else LastAlarm(pruned, j))
      && LastAlarm(Remember(full, k, c.now), j) == (if j == k then Some(c.now) else LastAlarm(full, j))
    {
      RememberedIs(pruned, k, c.now, j);
      RememberedIs(full, k, c.now, j);
    }
  }

  lemma {:induction false} LaterDifferenceShows(p: Memory, full: Memory, calls: seq<Call>)
    requires calls != []
    requires Decisions(Run(p, calls[0]).0, calls[1..]) != DecisionsKeepingAll(RunKeepingAll(full, calls[0]).0, calls[1..])
    ensures Decisions(p, calls) != DecisionsKeepingAll(full, calls)
  {
    assert Decisions(p, calls)[1..] == Decisions(Run(p, calls[0]).0, calls[1..]);
    assert DecisionsKeepingAll(full, calls)[1..] == DecisionsKeepingAll(RunKeepingAll(full, calls[0]).0, calls[1..]);
  }

  /** An alarm of class 0 that was forgotten, or will be at call j, although call n is less than a window
      after it: if other classes are detected until then, call n shows the difference. */
  lemma {:induction false} ForgottenShows(p: Memory, full: Memory, calls: seq<Call>, j: nat, n: nat)
    requires j <= n < |calls| && Probes(calls[n], 0) && forall x :: 0 <= x < n ==> Probes(calls[x], 1)
    requires LastAlarm(full, ByClass(0)).Some? && Cutoff(calls[n]) < LastAlarm(full, ByClass(0)).value
    requires LastAlarm(p, ByClass(0)) == None
      || (j < n && LastAlarm(p, ByClass(0)) == LastAlarm(full, ByClass(0)) && LastAlarm(full, ByClass(0)).value <= Cutoff(calls[j]))
    ensures Decisions(p, calls) != DecisionsKeepingAll(full, calls)
    decreases n
  {
    var c := calls[0];
    PruneForgetsOld(p, Cutoff(c), ByClass(0));
    ProbeStep(p, full, c, if n == 0 then 0 else 1);
    if n == 0 {
      assert Decisions(p, calls)[0] == c.detections && DecisionsKeepingAll(full, calls)[0] == [];
    } else {
      ForgottenShows(Run(p, c).0, RunKeepingAll(full, c).0, calls[1..], if j == 0 then 0 else j - 1, n - 1);
      LaterDifferenceShows(p, full, calls);
    }
  }

  /** The same when the alarm is first raised, by call i. */
  lemma {:induction false} RaisedThenForgottenShows(p: Memory, full: Memory, calls: seq<Call>, i: nat, j: nat, n: nat)
    requires i < j < n < |calls| && forall x :: 0 <= x <= n ==> Probes(calls[x], if x == i || x == n then 0 else 1)
    requires LastAlarm(p, ByClass(0)) == None && LastAlarm(full, ByClass(0)) == None
    requires Cutoff(calls[n]) < calls[i].now <= Cutoff(calls[j])
    ensures Decisions(p, calls) != DecisionsKeepingAll(full, calls)
    decreases i
  {
    var c := calls[0];
    PruneForgetsOld(p, Cutoff(c), ByClass(0));
    ProbeStep(p, full, c, if i == 0 then 0 else 1);
    if i == 0 {
      ForgottenShows(Run(p, c).0, RunKeepingAll(full, c).0, calls[1..], j - 1, n - 1);
    } else {
      RaisedThenForgottenShows(Run(p, c).0, RunKeepingAll(full, c).0, calls[1..], i - 1, j - 1, n - 1);
    }
    LaterDifferenceShows(p, full, calls);
  }

  /** An alarm at the first cutoff is pruned by a call about something else, and missed by the second. */
  lemma PruningShows(now1: int, window1: int, now2: int, window2: int)
    requires now1 - window1 > now2 - window2
    ensures var m, calls := Memory(map[], map[0 := now1 - window1]),
        [Call([Detection(0, 1, 0)], now1, window1, false), Call([Detection(0, 0, 0)], now2, window2, false)];
      Decisions(m, calls) != DecisionsKeepingAll(m, calls)
  {
    var m := Memory(map[], map[0 := now1 - window1]);
    var calls := [Call([Detection(0, 1, 0)], now1, window1, false), Call([Detection(0, 0, 0)], now2, window2, false)];
    ForgottenShows(m, m, calls, 0, 1);
  }

  // ---------------------------------------------------------------------------------------------
  // Exactly when pruning is invisible
  // ---------------------------------------------------------------------------------------------

  /** When a call happens and what configuration is then in force: all of it but the detections. */
  datatype Moment = Moment(now: int, window: int, trackerEnabled: bool)

  function CutoffAt(x: Moment): int { x.now - x.window }

  /** The calls at these moments, for these detections. */
  function CallsAt(moments: seq<Moment>, frames: seq<seq<Detection>>): (r: seq<Call>)
    requires |frames| == |moments|
    ensures |r| == |moments|
    ensures forall i :: 0 <= i < |r| ==> r[i] == Call(frames[i], moments[i].now, moments[i].window, moments[i].trackerEnabled)
  {
    seq(|moments|, i requires 0 <= i < |moments| =>
      Call(frames[i], moments[i].now, moments[i].window, moments[i].trackerEnabled))
  }

  /** Pruning changes no decision from this memory on, whatever is detected in the frames that are not empty. */
  ghost predicate Invisible(m: Memory, moments: seq<Moment>) {
    forall frames: seq<seq<Detection>> :: |frames| == |moments| && (forall i :: 0 <= i < |frames| ==> frames[i] != [])
      ==> Decisions(m, CallsAt(moments, frames)) == DecisionsKeepingAll(m, CallsAt(moments, frames))
  }

  /** An alarm at time t that one call forgets is of no use to the later ones either. */
  predicate Settles(t: int, calls: seq<Call>) {
    forall j, n :: 0 <= j < n < |calls| && t <= Cutoff(calls[j]) ==> t <= Cutoff(calls[n])
  }

  ghost predicate AllSettle(m: Memory, calls: seq<Call>) {
    forall k :: LastAlarm(m, k).Some? ==> Settles(LastAlarm(m, k).value, calls)
  }

  predicate TimesSettle(calls: seq<Call>) {
    forall i :: 0 <= i < |calls| ==> Settles(calls[i].now, calls[i + 1..])
  }

  function LowestCutoff(calls: seq<Call>): (low: int)
    requires calls != []
    ensures forall i :: 0 <= i < |calls| ==> low <= Cutoff(calls[i])
    ensures exists i :: 0 <= i < |calls| && low == Cutoff(calls[i])
  {
    if |calls| == 1 then Cutoff(calls[0])
    else
      assert forall i :: 0 <= i < |calls| - 1 ==> calls[1..][i] == calls[i + 1];
      Min(Cutoff(calls[0]), LowestCutoff(calls[1..]))
  }

  lemma SettlesLater(t: int, calls: seq<Call>)
    requires calls != [] && Settles(t, calls)
    ensures Settles(t, calls[1..])
  {
    assert forall i :: 0 <= i < |calls| - 1 ==> calls[1..][i] == calls[i + 1];
  }

  lemma TimesSettleLater(calls: seq<Call>)
    requires calls != [] && TimesSettle(calls)
    ensures TimesSettle(calls[1..]) && Settles(calls[0].now, calls[1..])
  {
    forall i | 0 <= i < |calls| - 1 ensures Settles(calls[1..][i].now, calls[1..][i + 1..]) {
      assert calls[1..][i + 1..] == calls[i + 2..] && Settles(calls[i + 1].now, calls[i + 1 + 1..]);
    }
  }

  /** Pruning forgets only what is older than all cutoffs to come. */
  lemma {:induction false} PruningSettled(p: Memory, full: Memory, calls: seq<Call>)
    requires calls != [] && AllSettle(full, calls) && SameButOld(p, full, LowestCutoff(calls))
    ensures SameButOld(Prune(p, Cutoff(calls[0])), full, LowestCutoff(calls))
  {
    forall k ensures LastAlarm(Prune(p, Cutoff(calls[0])), k) == LastAlarm(full, k)
      || (LastAlarm(Prune(p, Cutoff(calls[0])), k) == None && LastAlarm(full, k).Some?
          && LastAlarm(full, k).value <= LowestCutoff(calls))
    {
      PruneForgetsOld(p, Cutoff(calls[0]), k);
      if LastAlarm(full, k).Some? { assert Settles(LastAlarm(full, k).value, calls); }
    }
  }

  lemma {:induction false} FilterKeepsOrSetsNow(m: Memory, c: Call, i: nat, k: Key)
    requires i <= |c.detections|
    ensures LastAlarm(Filter(m, c, i).0, k) == LastAlarm(m, k) || LastAlarm(Filter(m, c, i).0, k) == Some(c.now)
    decreases |c.detections| - i
  {
    if i < |c.detections| {
      var d := KeyOf(c.detections[i], c.trackerEnabled);
      RememberedIs(m, d, c.now, k);
      FilterKeepsOrSetsNow(if Keeps(m, d, c) then Remember(m, d, c.now) else m, c, i + 1, k);
    }
  }

  lemma StillSettles(full: Memory, calls: seq<Call>)
    requires calls != [] && AllSettle(full, calls) && TimesSettle(calls)
    ensures AllSettle(RunKeepingAll(full, calls[0]).0, calls[1..])
  {
    TimesSettleLater(calls);
    forall k | LastAlarm(RunKeepingAll(full, calls[0]).0, k).Some?
      ensures Settles(LastAlarm(RunKeepingAll(full, calls[0]).0, k).value, calls[1..])
    {
      FilterKeepsOrSetsNow(full, calls[0], 0, k);
      if LastAlarm(full, k).Some? { SettlesLater(LastAlarm(full, k).value, calls); }
    }
  }

  lemma {:induction false} LaterLowest(calls: seq<Call>)
    requires |calls| > 1
    ensures LowestCutoff(calls) <= LowestCutoff(calls[1..])
  {
  }

  lemma {:induction false} SettledRunsAgree(p: Memory, full: Memory, calls: seq<Call>)
    requires forall i :: 0 <= i < |calls| ==> calls[i].detections != []
    requires AllSettle(full, calls) && TimesSettle(calls)
    requires calls != [] ==> SameButOld(p, full, LowestCutoff(calls))
    ensures Decisions(p, calls) == DecisionsKeepingAll(full, calls)
    decreases |calls|
  {
    if calls != [] {
      var c, low := calls[0], LowestCutoff(calls);
      PruningSettled(p, full, calls);
      FilterAgrees(Prune(p, Cutoff(c)), full, c, 0, low);
      StillSettles(full, calls);
      TimesSettleLater(calls);
      if |calls| > 1 { LaterLowest(calls); }
      SettledRunsAgree(Run(p, c).0, RunKeepingAll(full, c).0, calls[1..]);
    }
  }

  /** The frames that tell: class 0 where asked, class 1 elsewhere. */
  function ProbeFrames(n: nat, i: int, j: int): (r: seq<seq<Detection>>)
    ensures |r| == n && forall x :: 0 <= x < n ==> r[x] == [Detection(0, if x == i || x == j then 0 else 1, 0)]
  {
    seq(n, x => [Detection(0, if x == i || x == j then 0 else 1, 0)])
  }

  lemma AdvancingCutoffsSettle(m: Memory, moments: seq<Moment>)
    requires forall i, j :: 0 <= i < j < |moments| ==> CutoffAt(moments[i]) <= CutoffAt(moments[j])
    ensures Invisible(m, moments)
  {
    forall frames: seq<seq<Detection>> | |frames| == |moments| && (forall i :: 0 <= i < |frames| ==> frames[i] != [])
      ensures Decisions(m, CallsAt(moments, frames)) == DecisionsKeepingAll(m, CallsAt(moments, frames))
    {
      SettledRunsAgree(m, m, CallsAt(moments, frames));
    }
  }

  predicate NeverBack(moments: seq<Moment>) {
    forall i :: 0 < i < |moments| ==> CutoffAt(moments[i - 1]) <= CutoffAt(moments[i])
  }

  lemma {:induction false} NeverBackIsMonotone(moments: seq<Moment>, i: nat, j: nat)
    requires NeverBack(moments) && i <= j < |moments|
    ensures CutoffAt(moments[i]) <= CutoffAt(moments[j])
  {
    if i < j { NeverBackIsMonotone(moments, i, j - 1); }
  }

  /** Over any sequence of calls, pruning changes no decision whatever is remembered at the start and
      detected on the way, if and only if no cutoff is before the one preceding it. A window that is
      enlarged by a new configuration can set the cutoff back. */
  lemma PruningIsInvisibleIff(moments: seq<Moment>)
    ensures (forall m :: Invisible(m, moments)) <==> NeverBack(moments)
  {
    if NeverBack(moments) {
      forall i, j | 0 <= i < j < |moments| ensures CutoffAt(moments[i]) <= CutoffAt(moments[j]) {
        NeverBackIsMonotone(moments, i, j);
      }
      forall m ensures Invisible(m, moments) {
        AdvancingCutoffsSettle(m, moments);
      }
    } else {
      var i :| 0 < i < |moments| && CutoffAt(moments[i - 1]) > CutoffAt(moments[i]);
      var m, frames := Memory(map[], map[0 := CutoffAt(moments[i - 1])]), ProbeFrames(|moments|, i, i);
      ForgottenShows(m, m, CallsAt(moments, frames), i - 1, i);
      assert !Invisible(m, moments);
    }
  }

  /** Call j forgets an alarm raised by call i, and call n would have needed it. */
  predicate ForgetsTooEarly(moments: seq<Moment>, i: nat, j: nat, n: nat) {
    i < j < n < |moments| && CutoffAt(moments[n]) < moments[i].now <= CutoffAt(moments[j])
  }

  /** For a step that starts with no memory, pruning changes no decision whatever is detected, if and only
      if no call forgets an alarm of an earlier one that a later one needs. Time may go back. */
  lemma PruningIsInvisibleFromStartIff(moments: seq<Moment>)
    ensures Invisible(EMPTY, moments) <==> forall i: nat, j: nat, n: nat :: !ForgetsTooEarly(moments, i, j, n)
  {
    if i: nat, j: nat, n: nat :| ForgetsTooEarly(moments, i, j, n) {
      var frames := ProbeFrames(|moments|, i, n);
      RaisedThenForgottenShows(EMPTY, EMPTY, CallsAt(moments, frames), i, j, n);
      assert !Invisible(EMPTY, moments);
    } else {
      forall frames: seq<seq<Detection>> | |frames| == |moments| && (forall i :: 0 <= i < |frames| ==> frames[i] != [])
        ensures Decisions(EMPTY, CallsAt(moments, frames)) == DecisionsKeepingAll(EMPTY, CallsAt(moments, frames))
      {
        NothingForgottenTooEarly(moments, CallsAt(moments, frames));
        SettledRunsAgree(EMPTY, EMPTY, CallsAt(moments, frames));
      }
    }
  }

  lemma NothingForgottenTooEarly(moments: seq<Moment>, calls: seq<Call>)
    requires |calls| == |moments|
    requires forall i :: 0 <= i < |calls| ==> calls[i].now == moments[i].now && calls[i].window == moments[i].window
    requires forall i: nat, j: nat, n: nat :: !ForgetsTooEarly(moments, i, j, n)
    ensures TimesSettle(calls)
  {
    forall i | 0 <= i < |calls| ensures Settles(calls[i].now, calls[i + 1..]) {
      var later := calls[i + 1..];
      forall j, n | 0 <= j < n < |later| && calls[i].now <= Cutoff(later[j]) ensures calls[i].now <= Cutoff(later[n]) {
        assert !ForgetsTooEarly(moments, i, i + 1 + j, i + 1 + n);
      }
    }
  }

  // ---------------------------------------------------------------------------------------------
  // What is decided
  // ---------------------------------------------------------------------------------------------

  /** An alarm that was raised. */
  datatype Alarm = Alarm(key: Key, time: int)

  /** The rule: a detection becomes an alarm unless its key raised one less than a window ago. */
  ghost predicate Suppressed(log: seq<Alarm>, k: Key, c: Call) {
    exists a :: a in log && a.key == k && c.now - a.time < c.window
  }

  ghost function FilterByLog(log: seq<Alarm>, c: Call, i: nat): (seq<Alarm>, seq<Detection>)
    requires i <= |c.detections|
    decreases |c.detections| - i
  {
    if i == |c.detections| then (log, [])
    else
      var k := KeyOf(c.detections[i], c.trackerEnabled);
      if Suppressed(log, k, c) then FilterByLog(log, c, i + 1)
      else
        var rest := FilterByLog(log + [Alarm(k, c.now)], c, i + 1);
        (rest.0, [c.detections[i]] + rest.1)
  }

  ghost function DecisionsByLog(log: seq<Alarm>, calls: seq<Call>): seq<seq<Detection>>
    decreases |calls|
  {
    if calls == [] then []
    else [FilterByLog(log, calls[0], 0).1] + DecisionsByLog(FilterByLog(log, calls[0], 0).0, calls[1..])
  }

  /** The memory knows the latest alarm of every key, except that alarms at or before `cutoff` may be
      forgotten; none is later than `now`. */
  ghost predicate Summarizes(m: Memory, log: seq<Alarm>, cutoff: int, now: int) {
    && (forall k :: LastAlarm(m, k).Some? ==> Alarm(k, LastAlarm(m, k).value) in log)
    && (forall a :: a in log ==> a.time <= now)
    && (forall a :: a in log ==>
          match LastAlarm(m, a.key) case None => a.time <= cutoff case Some(t) => a.time <= t)
  }

  lemma SummarizesDecides(m: Memory, log: seq<Alarm>, c: Call, k: Key, now: int)
    requires Summarizes(m, log, Cutoff(c), now)
    ensures Keeps(m, k, c) <==> !Suppressed(log, k, c)
  {
  }

  lemma SummarizesOneMore(m: Memory, log: seq<Alarm>, c: Call, k: Key)
    requires Summarizes(m, log, Cutoff(c), c.now)
    ensures Summarizes(Remember(m, k, c.now), log + [Alarm(k, c.now)], Cutoff(c), c.now)
  {
    forall j ensures LastAlarm(Remember(m, k, c.now), j) == if j == k then Some(c.now) else LastAlarm(m, j) {
      RememberedIs(m, k, c.now, j);
    }
    assert forall a :: a in log + [Alarm(k, c.now)] <==> a in log || a == Alarm(k, c.now);
  }

  lemma {:induction false} FilterFollowsTheRule(m: Memory, log: seq<Alarm>, c: Call, i: nat)
    requires i <= |c.detections| && Summarizes(m, log, Cutoff(c), c.now)
    ensures Filter(m, c, i).1 == FilterByLog(log, c, i).1
    ensures Summarizes(Filter(m, c, i).0, FilterByLog(log, c, i).0, Cutoff(c), c.now)
    decreases |c.detections| - i
  {
    if i < |c.detections| {
      var k := KeyOf(c.detections[i], c.trackerEnabled);
      SummarizesDecides(m, log, c, k, c.now);
      if Keeps(m, k, c) {
        SummarizesOneMore(m, log, c, k);
        FilterFollowsTheRule(Remember(m, k, c.now), log + [Alarm(k, c.now)], c, i + 1);
      } else {
        FilterFollowsTheRule(m, log, c, i + 1);
      }
    }
  }

  /** Neither time nor cutoffs go back. */
  predicate TimeAdvances(calls: seq<Call>, cutoff: int, now: int)
    decreases |calls|
  {
    calls == []
    || (if calls[0].detections == [] then TimeAdvances(calls[1..], cutoff, now)
        else cutoff <= Cutoff(calls[0]) && now <= calls[0].now && TimeAdvances(calls[1..], Cutoff(calls[0]), calls[0].now))
  }

  lemma PruningSummarizes(m: Memory, log: seq<Alarm>, cutoff: int, now: int, c: Call)
    requires Summarizes(m, log, cutoff, now) && cutoff <= Cutoff(c) && now <= c.now
    ensures Summarizes(Prune(m, Cutoff(c)), log, Cutoff(c), c.now)
  {
    forall k ensures LastAlarm(Prune(m, Cutoff(c)), k)
      == if LastAlarm(m, k).Some? && LastAlarm(m, k).value > Cutoff(c) then LastAlarm(m, k) else None
    {
      PruneForgetsOld(m, Cutoff(c), k);
    }
  }

  lemma {:induction false} RunsFollowTheRuleFrom(m: Memory, log: seq<Alarm>, calls: seq<Call>, cutoff: int, now: int)
    requires Summarizes(m, log, cutoff, now) && TimeAdvances(calls, cutoff, now)
    ensures Decisions(m, calls) == DecisionsByLog(log, calls)
    decreases |calls|
  {
    if calls != [] {
      var c := calls[0];
      if c.detections == [] {
        RunsFollowTheRuleFrom(m, log, calls[1..], cutoff, now);
      } else {
        PruningSummarizes(m, log, cutoff, now, c);
        FilterFollowsTheRule(Prune(m, Cutoff(c)), log, c, 0);
        RunsFollowTheRuleFrom(Run(m, c).0, FilterByLog(log, c, 0).0, calls[1..], Cutoff(c), c.now);
      }
    }
  }

  /** Over any run in which neither time nor cutoffs go back, the step decides by the rule over everything
      that ever happened, although it remembers one pruned time per key. */
  lemma {:induction false} RunsFollowTheRule(calls: seq<Call>, cutoff: int, now: int)
    requires TimeAdvances(calls, cutoff, now)
    ensures Decisions(EMPTY, calls) == DecisionsByLog([], calls)
  {
    RunsFollowTheRuleFrom(EMPTY, [], calls, cutoff, now);
  }

  // ---------------------------------------------------------------------------------------------
  // Spacing of the alarms the step raises
  // ---------------------------------------------------------------------------------------------

  /** The alarms of one call, by key and time. */
  function AlarmsOf(c: Call, kept: seq<Detection>): (r: seq<Alarm>)
    ensures |r| == |kept|
    ensures forall i :: 0 <= i < |r| ==> r[i] == Alarm(KeyOf(kept[i], c.trackerEnabled), c.now)
  {
    seq(|kept|, i requires 0 <= i < |kept| => Alarm(KeyOf(kept[i], c.trackerEnabled), c.now))
  }

  /** Everything a run of calls raises. */
  function AlarmsRaised(m: Memory, calls: seq<Call>): seq<Alarm>
    decreases |calls|
  {
    if calls == [] then []
    else AlarmsOf(calls[0], Run(m, calls[0]).1) + AlarmsRaised(Run(m, calls[0]).0, calls[1..])
  }

  /** Alarms of one key are at least w apart. */
  ghost predicate Spaced(log: seq<Alarm>, w: int) {
    forall i, j :: 0 <= i < j < |log| && log[i].key == log[j].key ==> log[j].time - log[i].time >= w
  }

  /** None of the alarms is in the future, and the memory knows the latest of each key or that all of them
      are at least w old. */
  ghost predicate Remembers(m: Memory, log: seq<Alarm>, w: int, now: int) {
    && (forall a :: a in log ==> a.time <= now)
    && (forall a :: a in log ==>
          match LastAlarm(m, a.key) case None => now - a.time >= w case Some(t) => a.time <= t)
  }

  /** Forgetting what is a window old is harmless. */
  lemma PruningRemembers(m: Memory, log: seq<Alarm>, w: int, now: int, c: Call)
    requires Remembers(m, log, w, now) && now <= c.now && w <= c.window
    ensures Remembers(Prune(m, Cutoff(c)), log, w, c.now)
  {
    forall k ensures LastAlarm(Prune(m, Cutoff(c)), k)
      == if LastAlarm(m, k).Some? && LastAlarm(m, k).value > Cutoff(c) then LastAlarm(m, k) else None
    {
      PruneForgetsOld(m, Cutoff(c), k);
    }
  }

  lemma OneMoreAlarm(m: Memory, log: seq<Alarm>, w: int, c: Call, k: Key)
    requires Remembers(m, log, w, c.now) && Spaced(log, w) && w <= c.window && Keeps(m, k, c)
    ensures Remembers(Remember(m, k, c.now), log + [Alarm(k, c.now)], w, c.now) && Spaced(log + [Alarm(k, c.now)], w)
  {
    forall j ensures LastAlarm(Remember(m, k, c.now), j) == if j == k then Some(c.now) else LastAlarm(m, j) {
      RememberedIs(m, k, c.now, j);
    }
    assert forall a :: a in log + [Alarm(k, c.now)] <==> a in log || a == Alarm(k, c.now);
    forall i | 0 <= i < |log| && log[i].key == k ensures c.now - log[i].time >= w {
      assert log[i] in log;
    }
  }

  lemma {:induction false} FilterIsSpaced(m: Memory, log: seq<Alarm>, w: int, c: Call, i: nat)
    requires i <= |c.detections| && Remembers(m, log, w, c.now) && Spaced(log, w) && w <= c.window
    ensures Remembers(Filter(m, c, i).0, log + AlarmsOf(c, Filter(m, c, i).1), w, c.now)
    ensures Spaced(log + AlarmsOf(c, Filter(m, c, i).1), w)
    decreases |c.detections| - i
  {
    if i == |c.detections| {
      assert log + AlarmsOf(c, []) == log;
    } else {
      var d := c.detections[i];
      var k := KeyOf(d, c.trackerEnabled);
      if Keeps(m, k, c) {
        OneMoreAlarm(m, log, w, c, k);
        FilterIsSpaced(Remember(m, k, c.now), log + [Alarm(k, c.now)], w, c, i + 1);
        var rest := Filter(Remember(m, k, c.now), c, i + 1).1;
        assert AlarmsOf(c, [d] + rest) == [Alarm(k, c.now)] + AlarmsOf(c, rest);
        assert log + AlarmsOf(c, [d] + rest) == log + [Alarm(k, c.now)] + AlarmsOf(c, rest);
      } else {
        FilterIsSpaced(m, log, w, c, i + 1);
      }
    }
  }

  /** Time does not go back between calls with detections. */
  predicate ClockAdvances(calls: seq<Call>, now: int)
    decreases |calls|
  {
    calls == []
    || (if calls[0].detections == [] then ClockAdvances(calls[1..], now)
        else now <= calls[0].now && ClockAdvances(calls[1..], calls[0].now))
  }

  lemma {:induction false} RunsAreSpacedFrom(m: Memory, log: seq<Alarm>, calls: seq<Call>, w: int, now: int)
    requires Remembers(m, log, w, now) && Spaced(log, w) && ClockAdvances(calls, now)
    requires forall i :: 0 <= i < |calls| ==> w <= calls[i].window
    ensures Spaced(log + AlarmsRaised(m, calls), w)
    decreases |calls|
  {
    if calls == [] {
      assert log + [] == log;
    } else {
      var c := calls[0];
      var raised := AlarmsOf(c, Run(m, c).1);
      if c.detections == [] {
        assert raised == [] && log + raised == log;
        RunsAreSpacedFrom(m, log, calls[1..], w, now);
      } else {
        PruningRemembers(m, log, w, now, c);
        FilterIsSpaced(Prune(m, Cutoff(c)), log, w, c, 0);
        RunsAreSpacedFrom(Run(m, c).0, log + raised, calls[1..], w, c.now);
      }
      assert log + (raised + AlarmsRaised(Run(m, c).0, calls[1..])) == log + raised + AlarmsRaised(Run(m, c).0, calls[1..]);
    }
  }

  /** Over any run in which time does not go back, however the window changes, two alarms of one key are at
      least the smallest window in force apart. A call thus raises at most one alarm per key. */
  lemma {:induction false} AlarmsAreSpaced(calls: seq<Call>, w: int, now: int)
    requires ClockAdvances(calls, now) && forall i :: 0 <= i < |calls| ==> w <= calls[i].window
    ensures Spaced(AlarmsRaised(EMPTY, calls), w)
  {
    RunsAreSpacedFrom(EMPTY, [], calls, w, now);
    assert [] + AlarmsRaised(EMPTY, calls) == AlarmsRaised(EMPTY, calls);
  }

  // ---------------------------------------------------------------------------------------------
  // One frame, in terms of its detections
  // ---------------------------------------------------------------------------------------------

  /** Does an earlier detection among the first i that became an alarm count as the same thing as d? */
  ghost predicate RaisedBefore(c: Call, alarms: seq<Detection>, d: Detection) {
    exists j :: 0 <= j < |alarms| && SameThing(alarms[j], d, c.trackerEnabled)
  }

  lemma SameThingIff(d: Detection, e: Detection, trackerEnabled: bool)
    ensures SameThing(d, e, trackerEnabled) <==> KeyOf(d, trackerEnabled) == KeyOf(e, trackerEnabled)
  {
  }

  /** What a memory says after the alarms of one frame: exactly the things raised are known from now. */
  ghost predicate KnowsNow(m: Memory, c: Call, alarms: seq<Detection>) {
    forall d :: Keeps(m, KeyOf(d, c.trackerEnabled), c) <==> !RaisedBefore(c, alarms, d)
  }

  lemma KnowsOneMore(m: Memory, c: Call, alarms: seq<Detection>, d: Detection)
    requires KnowsNow(m, c, alarms) && c.window > 0
    ensures KnowsNow(Remember(m, KeyOf(d, c.trackerEnabled), c.now), c, alarms + [d])
  {
    var k := KeyOf(d, c.trackerEnabled);
    forall e ensures Keeps(Remember(m, k, c.now), KeyOf(e, c.trackerEnabled), c) <==> !RaisedBefore(c, alarms + [d], e) {
      RememberedIs(m, k, c.now, KeyOf(e, c.trackerEnabled));
      SameThingIff(d, e, c.trackerEnabled);
      if j :| 0 <= j < |alarms| && SameThing(alarms[j], e, c.trackerEnabled) { assert (alarms + [d])[j] == alarms[j]; }
      if RaisedBefore(c, alarms + [d], e) && !SameThing(d, e, c.trackerEnabled) {
        var j :| 0 <= j < |alarms + [d]| && SameThing((alarms + [d])[j], e, c.trackerEnabled);
        assert (alarms + [d])[j] == alarms[j];
      }
      assert (alarms + [d])[|alarms|] == d;
    }
  }

  /** The detections that are the first of their thing in a frame, in order. */
  ghost function FirstOfEach(c: Call, ds: seq<Detection>): seq<Detection> {
    if ds == [] then []
    else
      var front := FirstOfEach(c, ds[..|ds| - 1]);
      if RaisedBefore(c, front, ds[|ds| - 1]) then front else front + [ds[|ds| - 1]]
  }

  lemma {:induction false} FilterFrom(m: Memory, c: Call, i: nat)
    requires i <= |c.detections| && c.window > 0 && KnowsNow(m, c, FirstOfEach(c, c.detections[..i]))
    ensures FirstOfEach(c, c.detections[..i]) + Filter(m, c, i).1 == FirstOfEach(c, c.detections)
    decreases |c.detections| - i
  {
    if i == |c.detections| {
      assert c.detections[..i] == c.detections;
    } else {
      var d, front := c.detections[i], FirstOfEach(c, c.detections[..i]);
      assert c.detections[..i + 1][..i] == c.detections[..i];
      if Keeps(m, KeyOf(d, c.trackerEnabled), c) {
        KnowsOneMore(m, c, front, d);
        FilterFrom(Remember(m, KeyOf(d, c.trackerEnabled), c.now), c, i + 1);
        assert front + [d] + Filter(Remember(m, KeyOf(d, c.trackerEnabled), c.now), c, i + 1).1 == front + Filter(m, c, i).1;
      } else {
        FilterFrom(m, c, i + 1);
      }
    }
  }

  /** A step that starts without memory raises of its first frame the first detection of each thing, tracked objects
      being told apart by their ids and everything else by its class, and nothing else. */
  lemma {:induction false} FirstFrameRaisesEachThingOnce(c: Call)
    requires c.window > 0
    ensures Run(EMPTY, c).1 == FirstOfEach(c, c.detections)
  {
    assert c.detections[..0] == [];
    assert FirstOfEach(c, []) == [];
    if c.detections != [] {
      assert Prune(EMPTY, Cutoff(c)) == EMPTY;
      FilterFrom(EMPTY, c, 0);
      assert [] + Filter(EMPTY, c, 0).1 == Filter(EMPTY, c, 0).1;
    }
  }

  /** With an interval of at least s seconds configured all along, the alarms of one key are at least 1000 s
      milliseconds apart; without a positive interval, five seconds. */
  lemma {:induction false} AlarmsAreSecondsApart(calls: seq<Call>, intervals: seq<int>, s: int, now: int)
    requires ClockAdvances(calls, now) && |intervals| == |calls|
    requires forall i :: 0 <= i < |calls| ==> calls[i].window == WindowMs(intervals[i])
    requires (forall i :: 0 <= i < |calls| ==> 0 < s <= intervals[i]) || (s == 5 && forall i :: 0 <= i < |calls| ==> intervals[i] <= 0)
    ensures Spaced(AlarmsRaised(EMPTY, calls), 1000 * s)
  {
    AlarmsAreSpaced(calls, 1000 * s, now);
  }

  /** The same detection twice becomes an alarm the second time exactly when the interval has passed by then: the
      configured seconds, or five when they are not positive. */
  lemma RepeatedAfterTheInterval(d: Detection, t: int, later: int, s: int, trackerEnabled: bool)
    ensures var first, second := Call([d], t, WindowMs(s), trackerEnabled), Call([d], later, WindowMs(s), trackerEnabled);
      Decisions(EMPTY, [first, second]) == [[d], if later - t >= (if s > 0 then 1000 * s else 5000) then [d] else []]
  {
    var first, second := Call([d], t, WindowMs(s), trackerEnabled), Call([d], later, WindowMs(s), trackerEnabled);
    var k := KeyOf(d, trackerEnabled);
    assert Prune(EMPTY, Cutoff(first)) == EMPTY;
    FilterOfOne(EMPTY, first);
    var m := Remember(EMPTY, k, t);
    assert Run(EMPTY, first) == (m, [d]);
    RememberedIs(EMPTY, k, t, k);
    PruneForgetsOld(m, Cutoff(second), k);
    FilterOfOne(Prune(m, Cutoff(second)), second);
    assert [first, second][1..] == [second] && [second][1..] == [];
    assert Decisions(m, [second]) == [Run(m, second).1] + Decisions(Run(m, second).0, []);
  }
}
