/** Round-robin choice of the next stream to infer on (src/pipeline/InferScheduler.cpp), as values. */
module SchedulerModel {
  import opened Common

  type StreamId = string

  /** The scheduler's own fields; buffers and configurations do not affect the choice. */
  datatype Sched = Sched(order: seq<StreamId>, inflight: map<StreamId, bool>, cursor: nat)

  predicate Distinct<T(==)>(s: seq<T>) {
    forall i, j :: 0 <= i < j < |s| ==> s[i] != s[j]
  }

  /** order lists each entry once, and the cursor points into it. */
  ghost predicate WellFormed(s: Sched) {
    && Distinct(s.order)
    && (forall id :: id in s.inflight <==> id in s.order)
    && (if s.order == [] then s.cursor == 0 else s.cursor < |s.order|)
  }

  function Upsert(s: Sched, id: StreamId): Sched {
    s.(inflight := s.inflight[id := id in s.inflight && s.inflight[id]],
       order := if id in s.order then s.order else s.order + [id])
  }

  function Drop(order: seq<StreamId>, id: StreamId): (r: seq<StreamId>)
    ensures |r| <= |order|
    ensures forall x :: x in r <==> x in order && x != id
  {
    if order == [] then []
    else
      assert order == order[..|order| - 1] + [order[|order| - 1]];
      Drop(order[..|order| - 1], id) + (if order[|order| - 1] == id then [] else [order[|order| - 1]])
  }

  function Remove(s: Sched, id: StreamId): Sched {
    var order := Drop(s.order, id);
    s.(inflight := s.inflight - {id}, order := order, cursor := if s.cursor >= |order| then 0 else s.cursor)
  }

  /** completeTask and cancelTask alike: the frame id they are given is ignored. */
  function Finish(s: Sched, id: StreamId): Sched {
    if id in s.inflight then s.(inflight := s.inflight[id := false]) else s
  }

  function At(cursor: nat, offset: nat, total: nat): (r: nat)
    requires cursor < total && offset < total
    ensures r < total
  {
    if cursor + offset < total then cursor + offset else cursor + offset - total
  }

  function After(index: nat, total: nat): (r: nat)
    requires index < total
    ensures r < total
  {
    if index + 1 < total then index + 1 else 0
  }

  lemma WrapsOnce(x: nat, total: nat)
    requires 0 < total <= x < 2 * total
    ensures x % total == x - total
  {
    assert x / total == 1;
  }

  lemma FitsAlready(x: nat, total: nat)
    requires x < total
    ensures x % total == x
  {
  }

  /** The source computes both with the remainder operator. */
  lemma AtIsModulo(cursor: nat, offset: nat, total: nat)
    requires cursor < total && offset < total
    ensures At(cursor, offset, total) == (cursor + offset) % total
    ensures After(cursor, total) == (cursor + 1) % total
  {
    if cursor + offset >= total { WrapsOnce(cursor + offset, total); } else { FitsAlready(cursor + offset, total); }
    if cursor + 1 >= total { WrapsOnce(cursor + 1, total); } else { FitsAlready(cursor + 1, total); }
  }

  function PickFrom(order: seq<StreamId>, cursor: nat, ready: set<StreamId>, offset: nat): (r: Option<nat>)
    requires cursor < |order| && offset <= |order|
    ensures r.Some? ==> offset <= r.value < |order| && order[At(cursor, r.value, |order|)] in ready
    decreases |order| - offset
  {
    if offset == |order| then None
    else if order[At(cursor, offset, |order|)] in ready then Some(offset)
    else PickFrom(order, cursor, ready, offset + 1)
  }

  /** It is the first one: no ready stream is passed by. */
  lemma {:induction false} PickFromIsFirst(order: seq<StreamId>, cursor: nat, ready: set<StreamId>, offset: nat, o: nat)
    requires cursor < |order| && offset <= o < |order| && order[At(cursor, o, |order|)] in ready
    ensures PickFrom(order, cursor, ready, offset).Some? && PickFrom(order, cursor, ready, offset).value <= o
    decreases |order| - offset
  {
    if offset < o { PickFromIsFirst(order, cursor, ready, offset + 1, o); }
  }

  /** The first i streams from the cursor on are not ready. */
  predicate Scanned(order: seq<StreamId>, cursor: nat, ready: set<StreamId>, i: nat) {
    cursor < |order| && i <= |order| && PickFrom(order, cursor, ready, 0) == PickFrom(order, cursor, ready, i)
  }

  lemma {:induction false} ScanStep(order: seq<StreamId>, cursor: nat, ready: set<StreamId>, i: nat)
    requires Scanned(order, cursor, ready, i)
    ensures i == |order| ==> PickFrom(order, cursor, ready, 0).None?
    ensures i < |order| && order[At(cursor, i, |order|)] in ready ==> PickFrom(order, cursor, ready, 0) == Some(i)
    ensures i < |order| && order[At(cursor, i, |order|)] !in ready ==> Scanned(order, cursor, ready, i + 1)
  {
  }

  /** The position of the first ready stream at or after the cursor, cyclically. */
  function Pick(order: seq<StreamId>, cursor: nat, ready: set<StreamId>): (r: Option<nat>)
    requires order == [] || cursor < |order|
    ensures r.Some? ==> r.value < |order| && order[r.value] in ready
  {
    if order == [] then None
    else match PickFrom(order, cursor, ready, 0) case None => None case Some(o) => Some(At(cursor, o, |order|))
  }

  function Acquire(s: Sched, ready: set<StreamId>): (Sched, Option<StreamId>)
    requires s.order == [] || s.cursor < |s.order|
  {
    match Pick(s.order, s.cursor, ready)
    case None => (s, None)
    case Some(i) => (s.(inflight := s.inflight[s.order[i] := true], cursor := After(i, |s.order|)), Some(s.order[i]))
  }

  lemma {:induction false} AcquireAt(s: Sched, ready: set<StreamId>, o: nat)
    requires s.order != [] && s.cursor < |s.order| && PickFrom(s.order, s.cursor, ready, 0) == Some(o)
    ensures var i := At(s.cursor, o, |s.order|);
      Acquire(s, ready) == (s.(inflight := s.inflight[s.order[i] := true], cursor := After(i, |s.order|)), Some(s.order[i]))
  {
  }

  /** An acquisition serves a ready stream if there is one, flags it and nobody else, and leaves the cursor at the
      stream after it; otherwise it changes nothing. */
  lemma AcquireServesReady(s: Sched, ready: set<StreamId>) returns (i: nat)
    requires WellFormed(s)
    ensures Acquire(s, ready).1.None? ==> Acquire(s, ready).0 == s && forall id :: id in s.order ==> id !in ready
    ensures Acquire(s, ready).1.Some? ==> var id := Acquire(s, ready).1.value;
      && id in ready && i < |s.order| && s.order[i] == id
      && Acquire(s, ready).0 == s.(inflight := s.inflight[id := true], cursor := (i + 1) % |s.order|)
  {
    i := 0;
    if Acquire(s, ready).1.Some? {
      i := Pick(s.order, s.cursor, ready).value;
      AtIsModulo(i, 0, |s.order|);
    } else {
      forall id | id in s.order ensures id !in ready {
        assert s.order[At(s.cursor, Distance(s, id), |s.order|)] == id;
        if id in ready { PickFromIsFirst(s.order, s.cursor, ready, 0, Distance(s, id)); }
      }
    }
  }

  lemma {:induction false} DropKeepsDistinct(order: seq<StreamId>, id: StreamId)
    requires Distinct(order)
    ensures Distinct(Drop(order, id))
  {
    if order != [] {
      DropKeepsDistinct(order[..|order| - 1], id);
      var d := Drop(order[..|order| - 1], id);
      forall i | 0 <= i < |d| ensures d[i] != order[|order| - 1] {
        assert d[i] in d;
      }
    }
  }

  /** Dropping an id leaves the others in their order. */
  lemma {:induction false} DropJoins(a: seq<StreamId>, b: seq<StreamId>, id: StreamId)
    ensures Drop(a + b, id) == Drop(a, id) + Drop(b, id)
    decreases |b|
  {
    if b == [] {
      assert a + b == a;
    } else {
      assert (a + b)[..|a + b| - 1] == a + b[..|b| - 1];
      DropJoins(a, b[..|b| - 1], id);
    }
  }

  datatype Op = OpUpsert(id: StreamId) | OpRemove(id: StreamId) | OpFinish(id: StreamId) | OpAcquire(ready: set<StreamId>)

  function Apply(s: Sched, op: Op): Sched
    requires s.order == [] || s.cursor < |s.order|
  {
    match op
    case OpUpsert(id) => Upsert(s, id)
    case OpRemove(id) => Remove(s, id)
    case OpFinish(id) => Finish(s, id)
    case OpAcquire(ready) => Acquire(s, ready).0
  }

  /** Whatever is called in whatever order, order_ stays duplicate-free, lists exactly the entries, and
      the cursor stays in range. */
  lemma OperationsKeepWellFormed(s: Sched, op: Op)
    requires WellFormed(s)
    ensures WellFormed(Apply(s, op))
  {
    if op.OpRemove? {
      DropKeepsDistinct(s.order, op.id);
    }
  }

  // ---------------------------------------------------------------------------------------------
  // Bounded bypass
  // ---------------------------------------------------------------------------------------------

  function IndexOf(order: seq<StreamId>, id: StreamId): (r: nat)
    requires id in order
    ensures r < |order| && order[r] == id
  {
    if order[0] == id then 0 else 1 + IndexOf(order[1..], id)
  }

  /** How many streams the cursor passes before it reaches id. */
  function Distance(s: Sched, id: StreamId): (d: nat)
    requires id in s.order && s.cursor < |s.order|
    ensures d < |s.order| && s.order[At(s.cursor, d, |s.order|)] == id
  {
    var i := IndexOf(s.order, id);
    if i >= s.cursor then i - s.cursor else i + |s.order| - s.cursor
  }

  lemma DistanceIsUnique(s: Sched, id: StreamId, d: nat)
    requires Distinct(s.order) && id in s.order && s.cursor < |s.order| && d < |s.order|
    requires s.order[At(s.cursor, d, |s.order|)] == id
    ensures d == Distance(s, id)
  {
    assert At(s.cursor, d, |s.order|) == At(s.cursor, Distance(s, id), |s.order|);
  }

  lemma NextCursor(cursor: nat, o: nat, n: nat)
    requires cursor < n && o < n
    ensures After(At(cursor, o, n), n) == if o + 1 < n then At(cursor, o + 1, n) else cursor
  {
  }

  lemma AtShift(cursor: nat, o: nat, d: nat, n: nat)
    requires cursor < n && o < d < n
    ensures At(At(cursor, o + 1, n), d - o - 1, n) == At(cursor, d, n)
  {
  }

  /** An acquisition that passes a ready stream by serves another one and comes strictly closer to it. */
  lemma AcquireComesCloser(s: Sched, id: StreamId, ready: set<StreamId>)
    requires WellFormed(s) && id in s.order && id in ready
    ensures Acquire(s, ready).1.Some?
    ensures Acquire(s, ready).0.order == s.order && Acquire(s, ready).0.cursor < |s.order|
    ensures Acquire(s, ready).1 != Some(id) ==> Distance(Acquire(s, ready).0, id) < Distance(s, id)
  {
    var n, d := |s.order|, Distance(s, id);
    PickFromIsFirst(s.order, s.cursor, ready, 0, d);
    var o := PickFrom(s.order, s.cursor, ready, 0).value;
    NextCursor(s.cursor, o, n);
    if o < d {
      AtShift(s.cursor, o, d, n);
      DistanceIsUnique(Acquire(s, ready).0, id, d - o - 1);
    }
  }

  function RunOps(s: Sched, ops: seq<Op>): (r: Sched)
    requires WellFormed(s)
    ensures WellFormed(r)
  {
    if ops == [] then s
    else
      OperationsKeepWellFormed(RunOps(s, ops[..|ops| - 1]), ops[|ops| - 1]);
      Apply(RunOps(s, ops[..|ops| - 1]), ops[|ops| - 1])
  }

  function Acquisitions(ops: seq<Op>): nat {
    if ops == [] then 0 else Acquisitions(ops[..|ops| - 1]) + (if ops[|ops| - 1].OpAcquire? then 1 else 0)
  }

  predicate Serves(s: Sched, ops: seq<Op>, i: nat, id: StreamId)
    requires WellFormed(s) && i < |ops|
  {
    ops[i].OpAcquire? && Acquire(RunOps(s, ops[..i]), ops[i].ready).1 == Some(id)
  }

  lemma {:induction false} UnservedComesCloser(s: Sched, ops: seq<Op>, id: StreamId)
    requires WellFormed(s) && id in s.order
    requires forall i :: 0 <= i < |ops| ==> !ops[i].OpRemove? && (ops[i].OpUpsert? ==> ops[i].id in s.order)
    requires forall i :: 0 <= i < |ops| && ops[i].OpAcquire? ==> id in ops[i].ready
    requires forall i :: 0 <= i < |ops| ==> !Serves(s, ops, i, id)
    ensures RunOps(s, ops).order == s.order
    ensures Distance(RunOps(s, ops), id) + Acquisitions(ops) <= Distance(s, id)
  {
    if ops != [] {
      var init, last := ops[..|ops| - 1], ops[|ops| - 1];
      forall i | 0 <= i < |init| ensures !Serves(s, init, i, id) {
        assert init[..i] == ops[..i] && !Serves(s, ops, i, id);
      }
      UnservedComesCloser(s, init, id);
      if last.OpAcquire? {
        assert !Serves(s, ops, |ops| - 1, id);
        AcquireComesCloser(RunOps(s, init), id, last.ready);
      }
    }
  }

  /** Round robin is fair: while the set of streams stays put, a stream that is ready whenever the
      scheduler looks is served within |order| acquisitions. */
  lemma {:induction false} BoundedBypass(s: Sched, ops: seq<Op>, id: StreamId)
    requires WellFormed(s) && id in s.order
    requires forall i :: 0 <= i < |ops| ==> !ops[i].OpRemove? && (ops[i].OpUpsert? ==> ops[i].id in s.order)
    requires forall i :: 0 <= i < |ops| && ops[i].OpAcquire? ==> id in ops[i].ready
    requires Acquisitions(ops) >= |s.order|
    ensures exists i :: 0 <= i < |ops| && Serves(s, ops, i, id)
  {
    if forall i :: 0 <= i < |ops| ==> !Serves(s, ops, i, id) {
      UnservedComesCloser(s, ops, id);
    }
  }
}
