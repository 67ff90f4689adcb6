/** The outgoing path end to end: producers push into the bounded queue, the send loop pops and writes in
    pieces, the receiver reads in pieces. Payloads are named by their position in the push log. */
module SocketRuns {
  import opened Common
  import opened Bytes
  import opened SocketFraming

  datatype Link = Link(
    pushed: seq<Payload>,      // everything pushed, in order
    queue: seq<int>,           // push positions waiting
    taken: seq<int>,           // popped by the send loop
    dropped: seq<int>,         // evicted; drop_count_ is its length
    pending: seq<Byte>,        // what the current sendRaw still has to write
    wire: seq<Byte>,           // written, not yet read
    partial: seq<Byte>,        // read of the frame being received
    delivered: seq<Payload>,   // handed to the callback
    broken: bool)              // the receiver gave up on the connection

  datatype Event = Push(p: Payload) | Pop | Send(n: nat) | Recv(n: nat)

  /** How many bytes the receiver's current readAll still wants. */
  function Wanted(partial: seq<Byte>): int {
    if |partial| < 4 then 4 - |partial|
    else if |partial| < 8 then 8 - |partial|
    else 8 + FromBe32(partial[4..8]) - |partial|
  }

  predicate HeadIsFine(partial: seq<Byte>)
    requires |partial| >= 8
  {
    FromBe32(partial[..4]) == MAGIC && 1 <= FromBe32(partial[4..8]) <= MAX_FRAME_SIZE
  }

  /** One send or recv moves at least one byte and at most what is asked for. */
  predicate Enabled(s: Link, e: Event, maxSize: nat) {
    match e
    case Push(p) => Deliverable(p)
    case Pop => s.pending == [] && s.queue != []
    case Send(n) => 1 <= n <= |s.pending|
    case Recv(n) => !s.broken && 1 <= n <= |s.wire| && n <= Wanted(s.partial)
  }

  function Take(s: Link): Link
    requires s.queue != []
  {
    var k := s.queue[0];
    s.(queue := s.queue[1..], taken := s.taken + [k],
       pending := if 0 <= k < |s.pushed| then Frame(s.pushed[k]) else [])
  }

  function Append(s: Link, p: Payload, maxSize: nat): Link {
    if |s.queue| >= maxSize && s.queue != [] then
      s.(pushed := s.pushed + [p], queue := s.queue[1..] + [|s.pushed|], dropped := s.dropped + [s.queue[0]])
    else
      s.(pushed := s.pushed + [p], queue := s.queue + [|s.pushed|])
  }

  function Receive(s: Link, n: nat): Link
    requires n <= |s.wire|
  {
    var partial, wire := s.partial + s.wire[..n], s.wire[n..];
    if |partial| < 8 then s.(partial := partial, wire := wire)
    else if !HeadIsFine(partial) then s.(partial := partial, wire := wire, broken := true)
    else if Wanted(partial) == 0 then s.(partial := [], wire := wire, delivered := s.delivered + [partial[8..]])
    else s.(partial := partial, wire := wire)
  }

  function Apply(s: Link, e: Event, maxSize: nat): Link
    requires Enabled(s, e, maxSize)
  {
    match e
    case Push(p) => Append(s, p, maxSize)
    case Pop => Take(s)
    case Send(n) => s.(pending := s.pending[n..], wire := s.wire + s.pending[..n])
    case Recv(n) => Receive(s, n)
  }

  const START: Link := Link([], [], [], [], [], [], [], [], false)

  // ---------------------------------------------------------------------------------------------
  // Invariants
  // ---------------------------------------------------------------------------------------------

  /** The queue holds the latest pushes; every earlier one was taken or dropped, once, in order. */
  ghost predicate Partitioned(s: Link, maxSize: nat) {
    var first := |s.pushed| - |s.queue|;
    && first >= 0 && |s.queue| <= maxSize && s.queue == Range(first, |s.pushed|)
    && |s.taken| + |s.dropped| == first
    && (forall k :: 0 <= k < first ==> k in s.taken || k in s.dropped)
    && StrictlyIncreasing(s.taken) && StrictlyIncreasing(s.dropped)
    && (forall i :: 0 <= i < |s.taken| ==> 0 <= s.taken[i] < first && s.taken[i] !in s.dropped)
    && (forall i :: 0 <= i < |s.dropped| ==> 0 <= s.dropped[i] < first)
  }

  function Payloads(pushed: seq<Payload>, ks: seq<int>): (r: seq<Payload>)
    requires forall i :: 0 <= i < |ks| ==> 0 <= ks[i] < |pushed|
    ensures |r| == |ks| && forall i :: 0 <= i < |ks| ==> r[i] == pushed[ks[i]]
  {
    seq(|ks|, i requires 0 <= i < |ks| => pushed[ks[i]])
  }

  ghost predicate AllDeliverable(ps: seq<Payload>) { forall k :: 0 <= k < |ps| ==> Deliverable(ps[k]) }

  /** The receiver is in the middle of a frame, or between two. */
  ghost predicate Midway(partial: seq<Byte>) {
    |partial| >= 8 ==> HeadIsFine(partial) && Wanted(partial) > 0
  }

  /** The bytes under way are exactly the frames of what was taken and not yet delivered. */
  ghost predicate Faithful(s: Link, sent: seq<Payload>) {
    && !s.broken && Midway(s.partial) && AllDeliverable(sent)
    && s.delivered <= sent
    && s.partial + s.wire + s.pending == Stream(sent[|s.delivered|..])
  }

  ghost predicate Inv(s: Link, maxSize: nat) {
    && Partitioned(s, maxSize) && AllDeliverable(s.pushed)
    && Faithful(s, Payloads(s.pushed, s.taken))
  }

  // ---------------------------------------------------------------------------------------------
  // Every step keeps them
  // ---------------------------------------------------------------------------------------------

  lemma {:induction false} StreamAppends(ps: seq<Payload>, p: Payload)
    ensures Stream(ps + [p]) == Stream(ps) + Frame(p)
  {
    if ps == [] {
      assert Stream([p]) == Frame(p) + Stream([p][1..]) && [] + [p] == [p];
    } else {
      StreamAppends(ps[1..], p);
      assert (ps + [p])[1..] == ps[1..] + [p];
    }
  }

  lemma PushPartitions(s: Link, p: Payload, maxSize: nat)
    requires Partitioned(s, maxSize) && maxSize >= 1
    ensures Partitioned(Append(s, p, maxSize), maxSize)
  {
    var t := Append(s, p, maxSize);
    assert t.queue == Range(|t.pushed| - |t.queue|, |t.pushed|);
    if |s.queue| >= maxSize {
      var k := s.queue[0];
      assert k == |s.pushed| - |s.queue|;
      assert forall j :: j in t.dropped <==> j in s.dropped || j == k;
    }
  }

  lemma PushKeepsInv(s: Link, p: Payload, maxSize: nat)
    requires Inv(s, maxSize) && maxSize >= 1 && Deliverable(p)
    ensures Inv(Append(s, p, maxSize), maxSize)
  {
    var t := Append(s, p, maxSize);
    PushPartitions(s, p, maxSize);
    assert Payloads(t.pushed, t.taken) == Payloads(s.pushed, s.taken);
  }

  lemma PopPartitions(s: Link, maxSize: nat)
    requires Partitioned(s, maxSize) && s.queue != []
    ensures Partitioned(Take(s), maxSize)
  {
    var t, k := Take(s), s.queue[0];
    assert k == |s.pushed| - |s.queue|;
    assert t.queue == Range(|t.pushed| - |t.queue|, |t.pushed|);
    assert forall j :: j in t.taken <==> j in s.taken || j == k;
  }

  /** On the payloads themselves the queue behaves as ThreadSafeQueue.Push and Pop promise. */
  lemma QueueStepsAreTheQueues(s: Link, p: Payload, maxSize: nat)
    requires Partitioned(s, maxSize) && maxSize >= 1
    ensures var held, t := Payloads(s.pushed, s.queue), Append(s, p, maxSize);
      && (forall i :: 0 <= i < |t.queue| ==> 0 <= t.queue[i] < |t.pushed|)
      && Payloads(t.pushed, t.queue) == (if |held| == maxSize then held[1..] else held) + [p]
      && |t.dropped| == |s.dropped| + (if |held| == maxSize then 1 else 0)
    ensures s.queue != [] ==>
      Payloads(s.pushed, Take(s).queue) == Payloads(s.pushed, s.queue)[1..]
      && Take(s).pending == Frame(Payloads(s.pushed, s.queue)[0])
  {
    PushPartitions(s, p, maxSize);
  }

  /** One more frame behind what is under way. */
  lemma PopKeepsFaith(s: Link, sent: seq<Payload>, p: Payload)
    requires Faithful(s, sent) && s.pending == [] && Deliverable(p)
    ensures Faithful(s.(pending := Frame(p)), sent + [p])
  {
    var later := sent[|s.delivered|..];
    assert (sent + [p])[|s.delivered|..] == later + [p];
    StreamAppends(later, p);
    assert s.partial + s.wire + [] == s.partial + s.wire;
  }

  lemma PopKeepsInv(s: Link, maxSize: nat)
    requires Inv(s, maxSize) && s.pending == [] && s.queue != []
    ensures Inv(Take(s), maxSize)
  {
    var k := s.queue[0];
    assert k == |s.pushed| - |s.queue|;
    PopPartitions(s, maxSize);
    PopKeepsFaith(s, Payloads(s.pushed, s.taken), s.pushed[k]);
    assert Payloads(s.pushed, s.taken + [k]) == Payloads(s.pushed, s.taken) + [s.pushed[k]];
  }

  lemma SendKeepsBytes(partial: seq<Byte>, wire: seq<Byte>, pending: seq<Byte>, n: nat)
    requires n <= |pending|
    ensures partial + (wire + pending[..n]) + pending[n..] == partial + wire + pending
  {
  }

  /** Enough of a frame shows its header. */
  lemma HeadShows(x: seq<Byte>, rest: seq<Byte>, p: Payload, tail: seq<Byte>)
    requires |x| >= 8 && x + rest == Frame(p) + tail && Deliverable(p)
    ensures HeadIsFine(x) && Wanted(x) == 8 + |p| - |x|
    ensures |x| == 8 + |p| ==> x[8..] == p && rest == tail
  {
    var s := Frame(p) + tail;
    HeadReads(p, tail);
    assert x[..4] == s[..4] && x[4..8] == s[4..8];
    if |x| == 8 + |p| {
      assert x == s[..8 + |p|] == Frame(p);
      assert rest == s[8 + |p|..] == tail;
    }
  }

  lemma ReceiveKeepsFaith(s: Link, sent: seq<Payload>, n: nat)
    requires Faithful(s, sent) && 1 <= n <= |s.wire| && n <= Wanted(s.partial)
    ensures Faithful(Receive(s, n), sent)
  {
    var later := sent[|s.delivered|..];
    var x, rest := s.partial + s.wire[..n], s.wire[n..] + s.pending;
    assert x + rest == s.partial + s.wire + s.pending;
    assert later != [];
    assert Stream(later) == Frame(later[0]) + Stream(later[1..]);
    assert Deliverable(later[0]);
    assert x + s.wire[n..] + s.pending == x + rest;
    if |s.partial| >= 8 {
      HeadShows(s.partial, s.wire + s.pending, later[0], Stream(later[1..]));
    }
    if |x| >= 8 {
      HeadShows(x, rest, later[0], Stream(later[1..]));
      if Wanted(x) == 0 {
        assert sent[|s.delivered| + 1..] == later[1..];
        assert [] + s.wire[n..] + s.pending == rest;
      }
    }
  }

  lemma StepKeepsInv(s: Link, e: Event, maxSize: nat)
    requires Inv(s, maxSize) && maxSize >= 1 && Enabled(s, e, maxSize)
    ensures Inv(Apply(s, e, maxSize), maxSize)
  {
    match e
    case Push(p) => PushKeepsInv(s, p, maxSize);
    case Pop => PopKeepsInv(s, maxSize);
    case Send(n) => SendKeepsBytes(s.partial, s.wire, s.pending, n);
    case Recv(n) => ReceiveKeepsFaith(s, Payloads(s.pushed, s.taken), n);
  }

  // ---------------------------------------------------------------------------------------------
  // Runs
  // ---------------------------------------------------------------------------------------------

  ghost predicate Reaches(from: Link, es: seq<Event>, to: Link, maxSize: nat)
    decreases |es|
  {
    if es == [] then from == to
    else Enabled(from, es[0], maxSize) && Reaches(Apply(from, es[0], maxSize), es[1..], to, maxSize)
  }

  lemma {:induction false} RunKeepsInv(from: Link, es: seq<Event>, to: Link, maxSize: nat)
    requires Inv(from, maxSize) && maxSize >= 1 && Reaches(from, es, to, maxSize)
    ensures Inv(to, maxSize)
    decreases |es|
  {
    if es != [] {
      StepKeepsInv(from, es[0], maxSize);
      RunKeepsInv(Apply(from, es[0], maxSize), es[1..], to, maxSize);
    }
  }

  ghost predicate InFlight(s: Link) { s.partial != [] || s.wire != [] || s.pending != [] }

  /** However pushes, pops, sends and receives interleave and however the bytes are cut: what is delivered is
      an initial part of what was taken from the queue, all of it once nothing is under way, in push order
      and without repetition; and every push is delivered or under way, queued, or counted as dropped. */
  lemma {:induction false} DeliveryIsExact(es: seq<Event>, s: Link, maxSize: nat)
    requires maxSize >= 1 && Reaches(START, es, s, maxSize)
    ensures forall i :: 0 <= i < |s.taken| ==> 0 <= s.taken[i] < |s.pushed|
    ensures StrictlyIncreasing(s.taken) && s.delivered <= Payloads(s.pushed, s.taken) && !s.broken
    ensures !InFlight(s) ==> s.delivered == Payloads(s.pushed, s.taken)
    ensures |s.pushed| == |s.taken| + |s.queue| + |s.dropped|
    ensures !InFlight(s) ==> |s.pushed| == |s.delivered| + |s.queue| + |s.dropped|
  {
    StartKeeps(maxSize);
    RunKeepsInv(START, es, s, maxSize);
    var sent := Payloads(s.pushed, s.taken);
    if |s.delivered| < |sent| {
      StreamIsNotEmpty(sent[|s.delivered|..]);
    }
  }

  lemma StartKeeps(maxSize: nat)
    ensures Inv(START, maxSize)
  {
    assert Range(0, 0) == [];
    assert Payloads([], []) == [];
  }

  lemma {:induction false} StreamIsNotEmpty(ps: seq<Payload>)
    requires ps != []
    ensures |Stream(ps)| >= 8
  {
  }

  /** Each push has exactly one fate. */
  lemma {:induction false} EveryPushHasOneFate(es: seq<Event>, s: Link, maxSize: nat, k: int)
    requires maxSize >= 1 && Reaches(START, es, s, maxSize) && 0 <= k < |s.pushed|
    ensures k in s.queue <==> k !in s.taken && k !in s.dropped
    ensures k in s.taken ==> k !in s.dropped
  {
    StartKeeps(maxSize);
    RunKeepsInv(START, es, s, maxSize);
    var first := |s.pushed| - |s.queue|;
    if k >= first {
      assert s.queue[k - first] == k;
    }
  }
}
