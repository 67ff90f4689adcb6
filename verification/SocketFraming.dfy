/** The framing of src/ipc/SocketSender.cpp: what is written for a payload, and what a reader makes of a byte
    stream, under any splitting of the stream into reads and writes. */
module SocketFraming {
  import opened Common
  import opened Bytes

  const MAGIC: U32 := 0xDEADBEEF
  const MAX_FRAME_SIZE: int := 4 * 1024 * 1024

  type Payload = seq<Byte>

  /** The length goes through a 32-bit cast. */
  function LengthField(p: Payload): U32 { |p| % 0x1_0000_0000 }

  function Head(p: Payload): (r: seq<Byte>)
    ensures |r| == 8
  {
    BeU32(MAGIC) + BeU32(LengthField(p))
  }

  function Frame(p: Payload): seq<Byte> { Head(p) + p }

  /** Everything written for a list of payloads. */
  function Stream(ps: seq<Payload>): seq<Byte> {
    if ps == [] then [] else Frame(ps[0]) + Stream(ps[1..])
  }

  // ---------------------------------------------------------------------------------------------
  // The loops over send and recv
  // ---------------------------------------------------------------------------------------------

  /** writeAll: sends(k) is what the k-th send returns, at most what is left. */
  method WriteAll(wire: seq<Byte>, buf: seq<Byte>, sends: nat -> int) returns (ok: bool, sent: seq<Byte>)
    ensures ok ==> sent == wire + buf
    ensures !ok ==> exists k :: 0 <= k < |buf| && sent == wire + buf[..k]
  {
    sent := wire;
    var done, k := 0, 0;
    while done < |buf|
      invariant 0 <= done <= |buf| && sent == wire + buf[..done]
      decreases |buf| - done
    {
      var n := sends(k);
      if n <= 0 {
        return false, sent;
      }
      n := Min(n, |buf| - done);
      assert buf[..done + n] == buf[..done] + buf[done..done + n];
      sent := sent + buf[done..done + n];
      done := done + n;
      k := k + 1;
    }
    assert buf[..done] == buf;
    return true, sent;
  }

  /** sendRaw: sends(j) is for its j-th writeAll. */
  method SendRaw(wire: seq<Byte>, data: Payload, sends: nat -> nat -> int) returns (ok: bool, sent: seq<Byte>)
    ensures ok ==> sent == wire + Frame(data)
    ensures !ok ==> exists k :: 0 <= k < |Frame(data)| && sent == wire + Frame(data)[..k]
  {
    var magic, length := BeU32(MAGIC), BeU32(LengthField(data));
    ok, sent := WriteAll(wire, magic, sends(0));
    if !ok {
      ghost var k :| 0 <= k < |magic| && sent == wire + magic[..k];
      assert Frame(data)[..k] == magic[..k];
      return;
    }
    ok, sent := WriteAll(sent, length, sends(1));
    if !ok {
      ghost var k :| 0 <= k < |length| && sent == wire + magic + length[..k];
      assert Frame(data)[..4 + k] == magic + length[..k];
      return;
    }
    ok, sent := WriteAll(sent, data, sends(2));
    if !ok {
      ghost var k :| 0 <= k < |data| && sent == wire + magic + length + data[..k];
      assert Frame(data)[..8 + k] == magic + length + data[..k];
    }
  }

  /** readAll: of the bytes that still arrive before the peer closes, recvs(k) says how many the k-th recv
      returns, at least one while there are any. The outcome does not depend on it. */
  method ReadAll(incoming: seq<Byte>, len: nat, recvs: nat -> nat) returns (ok: bool, buf: seq<Byte>, rest: seq<Byte>)
    ensures ok <==> |incoming| >= len
    ensures ok ==> buf == incoming[..len] && rest == incoming[len..]
  {
    buf, rest := [], incoming;
    var k := 0;
    while |buf| < len
      invariant |buf| <= len && incoming == buf + rest
      decreases len - |buf|
    {
      if rest == [] {
        return false, buf, rest;
      }
      var n := Max(1, Min(recvs(k), Min(len - |buf|, |rest|)));
      buf, rest := buf + rest[..n], rest[n..];
      k := k + 1;
    }
    return true, buf, rest;
  }

  // ---------------------------------------------------------------------------------------------
  // The receive loop
  // ---------------------------------------------------------------------------------------------

  /** What one connection delivers of the bytes that arrive on it; reading stops at the first bad header. */
  function Deframe(s: seq<Byte>): seq<Payload>
    decreases |s|
  {
    if |s| < 8 || FromBe32(s[..4]) != MAGIC then []
    else
      var length := FromBe32(s[4..8]);
      if length == 0 || length > MAX_FRAME_SIZE || |s| - 8 < length then []
      else [s[8..8 + length]] + Deframe(s[8 + length..])
  }

  /** One round of recvLoop: reads a frame, or finds that there is none to deliver. */
  method RecvFrame(incoming: seq<Byte>, call: nat, recvs: nat -> nat -> nat) returns (ok: bool, buf: Payload, rest: seq<Byte>)
    ensures ok ==> |rest| < |incoming| && Deframe(incoming) == [buf] + Deframe(rest)
    ensures !ok ==> Deframe(incoming) == []
  {
    var magic, length;
    buf := [];
    ok, magic, rest := ReadAll(incoming, 4, recvs(call));
    if !ok {
      return;
    }
    ok, length, rest := ReadAll(rest, 4, recvs(call + 1));
    if !ok {
      return;
    }
    assert magic == incoming[..4] && length == incoming[4..8] && rest == incoming[8..];
    if FromBe32(magic) != MAGIC {
      return false, buf, rest;
    }
    if FromBe32(length) == 0 || FromBe32(length) > MAX_FRAME_SIZE {
      return false, buf, rest;
    }
    ok, buf, rest := ReadAll(rest, FromBe32(length), recvs(call + 2));
    if ok {
      assert buf == incoming[8..8 + FromBe32(length)] && rest == incoming[8 + FromBe32(length)..];
    }
  }

  /** recvLoop on one connection: recvs(j) is for its j-th readAll. */
  method RecvLoop(incoming: seq<Byte>, recvs: nat -> nat -> nat) returns (delivered: seq<Payload>)
    ensures delivered == Deframe(incoming)
  {
    delivered := [];
    var rest := incoming;
    var call: nat := 0;
    while true
      invariant Deframe(incoming) == delivered + Deframe(rest)
      decreases |rest|
    {
      var ok, buf;
      ok, buf, rest := RecvFrame(rest, call, recvs);
      if !ok {
        return;
      }
      delivered := delivered + [buf];
      call := call + 3;
    }
  }

  predicate Deliverable(p: Payload) { 1 <= |p| <= MAX_FRAME_SIZE }

  lemma HeadReads(p: Payload, rest: seq<Byte>)
    ensures var s := Frame(p) + rest;
      FromBe32(s[..4]) == MAGIC && FromBe32(s[4..8]) == LengthField(p) && s[8..] == p + rest
  {
    var s := Frame(p) + rest;
    assert s[..4] == BeU32(MAGIC) && s[4..8] == BeU32(LengthField(p));
    BeRoundTrip(0, MAGIC);
    BeRoundTrip(0, LengthField(p));
  }

  lemma {:induction false} DeframesFirst(p: Payload, rest: seq<Byte>)
    requires Deliverable(p)
    ensures Deframe(Frame(p) + rest) == [p] + Deframe(rest)
  {
    HeadReads(p, rest);
    assert LengthField(p) == |p|;
    var s := Frame(p) + rest;
    assert s[8..8 + |p|] == p && s[8 + |p|..] == rest;
  }

  /** A payload that is empty or too long is not delivered: either the connection ends there or, when the
      cast cut its length, something else is delivered. */
  lemma {:induction false} UndeliverableFirst(p: Payload, rest: seq<Byte>)
    requires !Deliverable(p)
    ensures var d := Deframe(Frame(p) + rest); d == [] || d[0] != p
    ensures |p| < 0x1_0000_0000 ==> Deframe(Frame(p) + rest) == []
  {
    HeadReads(p, rest);
  }

  /** A frame is the bytes DE AD BE EF, the length in four bytes, most significant first, and the payload. */
  lemma FrameMeans(p: Payload)
    requires |p| < 0x1_0000_0000
    ensures |Frame(p)| == 8 + |p| && Frame(p)[..4] == [0xDE, 0xAD, 0xBE, 0xEF] && Frame(p)[8..] == p
    ensures var a: int, b: int, c: int, d: int := Frame(p)[4], Frame(p)[5], Frame(p)[6], Frame(p)[7];
      0x100_0000 * a + 0x1_0000 * b + 0x100 * c + d == |p|
  {
    HeadReads(p, []);
    assert Frame(p) + [] == Frame(p);
    BigEndian(0, MAGIC, 0xDE, 0xAD, 0xBE, 0xEF);
    var f := Frame(p);
    assert f[4..8] == BeU32(LengthField(p)) && f[..4] == BeU32(MAGIC);
    BigEndian(0, LengthField(p), f[4], f[5], f[6], f[7]);
    assert f[4..8] == [f[4], f[5], f[6], f[7]];
  }

  /** What was sent is what is delivered, whatever follows on the wire, if and only if every payload has 1
      byte to 4 MiB. */
  lemma {:induction false} DeliveredExactlyIff(ps: seq<Payload>)
    ensures Deframe(Stream(ps)) == ps <==> forall k :: 0 <= k < |ps| ==> 1 <= |ps[k]| <= 4194304
  {
    if ps != [] {
      DeliveredExactlyIff(ps[1..]);
      if Deliverable(ps[0]) {
        DeframesFirst(ps[0], Stream(ps[1..]));
        assert ps == [ps[0]] + ps[1..];
      } else {
        UndeliverableFirst(ps[0], Stream(ps[1..]));
      }
    }
  }

  /** The payloads before the first undeliverable one arrive. */
  lemma {:induction false} DeliveredBefore(ps: seq<Payload>, n: nat)
    requires n <= |ps| && forall k :: 0 <= k < n ==> Deliverable(ps[k])
    ensures ps[..n] <= Deframe(Stream(ps))
  {
    if n > 0 {
      assert forall k :: 0 <= k < n - 1 ==> ps[1..][k] == ps[k + 1];
      DeliveredBefore(ps[1..], n - 1);
      DeframesFirst(ps[0], Stream(ps[1..]));
      PrefixAfterFirst(ps, n, Deframe(Stream(ps[1..])));
    }
  }

  lemma PrefixAfterFirst(ps: seq<Payload>, n: nat, rest: seq<Payload>)
    requires 0 < n <= |ps| && ps[1..][..n - 1] <= rest
    ensures ps[..n] <= [ps[0]] + rest
  {
    assert ps[..n] == [ps[0]] + ps[1..][..n - 1];
  }
}
