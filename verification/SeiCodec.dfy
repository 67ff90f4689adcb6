/** The byte-level part of src/stream/SeiInjector.cpp: emulation prevention, ff-coded lengths and SEI NAL
    units; and a reader for them written from the standards: ITU-T H.264 sections 7.3.1, 7.4.1 and
    7.3.2.3.1, ITU-T H.265 sections 7.3.1.1, 7.4.2 and 7.3.5. */
module SeiCodec {
  import opened Common
  import opened Bytes

  // ---------------------------------------------------------------------------------------------
  // Emulation prevention
  // ---------------------------------------------------------------------------------------------

  /** The escaped form of rbsp when `zeros` zero bytes (at most two count) were just written. */
  function Escape(zeros: nat, rbsp: seq<Byte>): seq<Byte>
    decreases |rbsp|
  {
    if rbsp == [] then []
    else if zeros >= 2 && rbsp[0] <= 3 then
      [3, rbsp[0]] + Escape(if rbsp[0] == 0 then 1 else 0, rbsp[1..])
    else
      [rbsp[0]] + Escape(if rbsp[0] == 0 then zeros + 1 else 0, rbsp[1..])
  }

  lemma {:induction false} EscapeOneMore(ebsp: seq<Byte>, zeros: nat, byte: Byte, rest: seq<Byte>)
    ensures ebsp + Escape(zeros, [byte] + rest) ==
      if zeros >= 2 && byte <= 3 then ebsp + [3] + [byte] + Escape(if byte == 0 then 1 else 0, rest)
      else ebsp + [byte] + Escape(if byte == 0 then zeros + 1 else 0, rest)
  {
    assert ([byte] + rest)[1..] == rest;
  }

  method ToEbsp(rbsp: seq<Byte>) returns (ebsp: seq<Byte>)
    ensures ebsp == Escape(0, rbsp)
  {
    ebsp := [];
    var zeroCount: nat := 0;
    var i := 0;
    while i < |rbsp|
      invariant 0 <= i <= |rbsp|
      invariant Escape(0, rbsp) == ebsp + Escape(zeroCount, rbsp[i..])
    {
      var byte := rbsp[i];
      ghost var rest := rbsp[i + 1..];
      assert rbsp[i..] == [byte] + rest;
      EscapeOneMore(ebsp, zeroCount, byte, rest);
      if zeroCount >= 2 && byte <= 3 {
        ebsp := ebsp + [3];
        zeroCount := 0;
      }
      ebsp := ebsp + [byte];
      if byte == 0 {
        zeroCount := zeroCount + 1;
      } else {
        zeroCount := 0;
      }
      i := i + 1;
    }
  }

  /** The nal_unit loop of the standards: after two zero bytes, a byte equal to three is dropped. */
  function Unescape(ebsp: seq<Byte>): seq<Byte> {
    if ebsp == [] then []
    else if |ebsp| >= 3 && ebsp[0] == 0 && ebsp[1] == 0 && ebsp[2] == 3 then [0, 0] + Unescape(ebsp[3..])
    else [ebsp[0]] + Unescape(ebsp[1..])
  }

  function Zeros(n: nat): seq<Byte> { seq(n, _ => 0) }

  lemma {:induction false} UnescapeCopies(x: Byte, s: seq<Byte>)
    requires x != 0 || |s| < 2 || s[0] != 0 || s[1] != 3
    ensures Unescape([x] + s) == [x] + Unescape(s)
  {
    assert ([x] + s)[1..] == s;
  }

  lemma {:induction false} UnescapeDrops(s: seq<Byte>)
    ensures Unescape([0, 0, 3] + s) == [0, 0] + Unescape(s)
  {
    assert ([0, 0, 3] + s)[3..] == s;
  }

  lemma {:induction false} UnescapeOnlyZeros(zeros: nat)
    requires zeros <= 2
    ensures Unescape(Zeros(zeros) + Escape(zeros, [])) == Zeros(zeros) + []
  {
    UnescapeCopies(0, []);
    UnescapeCopies(0, [0]);
    assert Zeros(1) + Escape(1, []) == [0] + [];
    assert Zeros(2) + Escape(2, []) == [0] + [0];
    assert Zeros(0) + Escape(0, []) == [];
  }

  /** A zero byte that is copied joins the zeros before it. */
  lemma EscapeOfZero(zeros: nat, rbsp: seq<Byte>)
    requires zeros < 2 && rbsp != [] && rbsp[0] == 0
    ensures Zeros(zeros) + Escape(zeros, rbsp) == Zeros(zeros + 1) + Escape(zeros + 1, rbsp[1..])
    ensures Zeros(zeros + 1) + rbsp[1..] == Zeros(zeros) + rbsp
  {
    assert Zeros(zeros + 1) == Zeros(zeros) + [0];
    assert rbsp == [0] + rbsp[1..];
    assert Escape(zeros, rbsp) == [0] + Escape(zeros + 1, rbsp[1..]);
    Associative(Zeros(zeros), [0], Escape(zeros + 1, rbsp[1..]));
    Associative(Zeros(zeros), [0], rbsp[1..]);
  }

  lemma {:induction false} UnescapeEscapeFrom(zeros: nat, rbsp: seq<Byte>)
    requires zeros <= 2
    ensures Unescape(Zeros(zeros) + Escape(zeros, rbsp)) == Zeros(zeros) + rbsp
    decreases |rbsp|, 5 - zeros
  {
    if rbsp == [] {
      UnescapeOnlyZeros(zeros);
    } else if zeros == 2 && rbsp[0] <= 3 {
      UnescapeInserted(rbsp);
    } else if rbsp[0] == 0 {
      EscapeOfZero(zeros, rbsp);
      UnescapeEscapeFrom(zeros + 1, rbsp[1..]);
    } else {
      UnescapeNonZero(zeros, rbsp);
    }
  }

  lemma {:induction false} UnescapeInserted(rbsp: seq<Byte>)
    requires rbsp != [] && rbsp[0] <= 3
    ensures Unescape(Zeros(2) + Escape(2, rbsp)) == Zeros(2) + rbsp
    decreases |rbsp|, 2
  {
    var z := if rbsp[0] == 0 then 1 else 0;
    var tail := [rbsp[0]] + Escape(z, rbsp[1..]);
    assert Zeros(2) + Escape(2, rbsp) == [0, 0, 3] + tail;
    UnescapeDrops(tail);
    UnescapeByte(rbsp[0], z, rbsp[1..]);
    assert rbsp == [rbsp[0]] + rbsp[1..];
  }

  lemma {:induction false} UnescapeNonZero(zeros: nat, rbsp: seq<Byte>)
    requires zeros <= 2 && rbsp != [] && rbsp[0] != 0 && (zeros == 2 ==> rbsp[0] > 3)
    ensures Unescape(Zeros(zeros) + Escape(zeros, rbsp)) == Zeros(zeros) + rbsp
    decreases |rbsp|, 2
  {
    var tail := [rbsp[0]] + Escape(0, rbsp[1..]);
    assert Escape(zeros, rbsp) == tail;
    UnescapeByte(rbsp[0], 0, rbsp[1..]);
    UnescapeZerosBefore(zeros, tail);
    assert rbsp == [rbsp[0]] + rbsp[1..];
  }

  lemma {:induction false} UnescapeZerosBefore(zeros: nat, tail: seq<Byte>)
    requires zeros <= 2 && tail != [] && tail[0] != 0 && (zeros == 2 ==> tail[0] != 3)
    ensures Unescape(Zeros(zeros) + tail) == Zeros(zeros) + Unescape(tail)
  {
    if zeros == 0 {
      assert Zeros(0) + tail == tail && Zeros(0) + Unescape(tail) == Unescape(tail);
    } else {
      UnescapeCopies(0, tail);
      if zeros == 2 {
        UnescapeCopies(0, [0] + tail);
        assert Zeros(2) + tail == [0] + ([0] + tail) && Zeros(2) + Unescape(tail) == [0] + ([0] + Unescape(tail));
      } else {
        assert Zeros(1) + tail == [0] + tail && Zeros(1) + Unescape(tail) == [0] + Unescape(tail);
      }
    }
  }

  /** One byte in front, zero or not, when the escape state says so. */
  lemma {:induction false} UnescapeByte(b: Byte, z: nat, rest: seq<Byte>)
    requires z == if b == 0 then 1 else 0
    ensures Unescape([b] + Escape(z, rest)) == [b] + rest
    decreases |rest|, 9
  {
    if b == 0 {
      assert [b] + Escape(z, rest) == Zeros(1) + Escape(1, rest);
      UnescapeEscapeFrom(1, rest);
    } else {
      assert ([b] + Escape(0, rest))[1..] == Escape(0, rest) == Zeros(0) + Escape(0, rest);
      UnescapeEscapeFrom(0, rest);
      assert Zeros(0) + rest == rest;
    }
  }

  /** The standards' removal of emulation prevention inverts toEbsp for every byte string. */
  lemma {:induction false} UnescapeInvertsEscape(rbsp: seq<Byte>)
    ensures Unescape(Escape(0, rbsp)) == rbsp
  {
    UnescapeEscapeFrom(0, rbsp);
    assert Zeros(0) + Escape(0, rbsp) == Escape(0, rbsp) && Zeros(0) + rbsp == rbsp;
  }

  /** What section 7.4.1 of H.264 and 7.4.2.1 of H.265 ask of the bytes inside a NAL unit: no 000000,
      000001 or 000002, and 000003 only in front of a byte of at most 3. */
  predicate Conforming(s: seq<Byte>) {
    forall i :: 0 <= i < |s| ==> OkAt(s, i)
  }

  predicate OkAt(s: seq<Byte>, i: nat)
    requires i < |s|
  {
    i + 2 < |s| && s[i] == 0 && s[i + 1] == 0 ==> s[i + 2] > 3 || (s[i + 2] == 3 && i + 3 < |s| && s[i + 3] <= 3)
  }

  /** In front of a conforming string, anything conforms that has no two zeros meeting it. */
  lemma ConformingPrefix(front: seq<Byte>, tail: seq<Byte>)
    requires Conforming(tail) && forall i :: 0 <= i < |front| ==> OkAt(front + tail, i)
    ensures Conforming(front + tail)
  {
    forall i | |front| <= i < |front + tail| ensures OkAt(front + tail, i) {
      assert OkAt(tail, i - |front|);
    }
  }

  lemma {:induction false} ConformsAfterInserted(b: Byte, z: nat, rest: seq<Byte>)
    requires b <= 3 && z == (if b == 0 then 1 else 0) && Conforming(Zeros(z) + Escape(z, rest))
    ensures Conforming([0, 0, 3] + ([b] + Escape(z, rest)))
  {
    assert b == 0 ==> [b] + Escape(z, rest) == Zeros(1) + Escape(1, rest);
    if b != 0 {
      assert Zeros(0) + Escape(0, rest) == Escape(0, rest);
      ConformingPrefix([b], Escape(0, rest));
    }
    ConformingPrefix([0, 0, 3], [b] + Escape(z, rest));
  }

  lemma {:induction false} EscapeConformsFrom(zeros: nat, rbsp: seq<Byte>)
    requires zeros <= 2
    ensures Conforming(Zeros(zeros) + Escape(zeros, rbsp))
    decreases |rbsp|
  {
    if rbsp != [] {
      var b, rest := rbsp[0], rbsp[1..];
      var whole := Zeros(zeros) + Escape(zeros, rbsp);
      if zeros == 2 && b <= 3 {
        var z := if b == 0 then 1 else 0;
        EscapeConformsFrom(z, rest);
        ConformsAfterInserted(b, z, rest);
        assert whole == [0, 0, 3] + ([b] + Escape(z, rest));
      } else if b == 0 {
        EscapeConformsFrom(zeros + 1, rest);
        EscapeOfZero(zeros, rbsp);
      } else {
        EscapeConformsFrom(0, rest);
        assert Zeros(0) + Escape(0, rest) == Escape(0, rest);
        assert whole == (Zeros(zeros) + [b]) + Escape(0, rest);
        ConformingPrefix(Zeros(zeros) + [b], Escape(0, rest));
      }
    }
  }

  /** toEbsp never lets a start code, or anything else a decoder would misread, appear inside a NAL unit. */
  lemma {:induction false} EscapeConforms(rbsp: seq<Byte>)
    ensures Conforming(Escape(0, rbsp))
  {
    EscapeConformsFrom(0, rbsp);
    assert Zeros(0) + Escape(0, rbsp) == Escape(0, rbsp);
  }

  lemma {:induction false} EscapeGrowth(zeros: nat, rbsp: seq<Byte>)
    requires zeros <= 2
    ensures |rbsp| <= |Escape(zeros, rbsp)| && 2 * |Escape(zeros, rbsp)| <= 3 * |rbsp| + zeros
    ensures rbsp != [] ==> Escape(zeros, rbsp)[|Escape(zeros, rbsp)| - 1] == rbsp[|rbsp| - 1]
    decreases |rbsp|
  {
    if rbsp != [] {
      var z := if rbsp[0] != 0 then 0 else if zeros >= 2 then 1 else zeros + 1;
      EscapeGrowth(z, rbsp[1..]);
    }
  }

  /** At most one byte in three is inserted, the last byte is kept. */
  lemma {:induction false} EscapeIsShort(rbsp: seq<Byte>)
    ensures |rbsp| <= |Escape(0, rbsp)| && 2 * |Escape(0, rbsp)| <= 3 * |rbsp|
    ensures rbsp != [] ==> Escape(0, rbsp)[|Escape(0, rbsp)| - 1] == rbsp[|rbsp| - 1]
  {
    EscapeGrowth(0, rbsp);
  }

  // ---------------------------------------------------------------------------------------------
  // SEI messages
  // ---------------------------------------------------------------------------------------------

  /** A payload type or size as sei_message codes it: 255s, then the rest. */
  function FfCoded(v: nat): seq<Byte> {
    if v >= 255 then [255] + FfCoded(v - 255) else [v]
  }

  method AppendSeiLength(rbsp: seq<Byte>, value: nat) returns (out: seq<Byte>)
    ensures out == rbsp + FfCoded(value)
  {
    out := rbsp;
    var v := value;
    while v >= 255
      invariant out + FfCoded(v) == rbsp + FfCoded(value)
    {
      out := out + [255];
      v := v - 255;
    }
    out := out + [v];
  }

  /** Reads a ff-coded value; the standard's ff_byte loop. */
  function ReadFf(s: seq<Byte>): Option<(nat, seq<Byte>)> {
    if s == [] then None
    else if s[0] == 255 then
      match ReadFf(s[1..]) case None => None case Some(r) => Some((255 + r.0, r.1))
    else Some((s[0], s[1..]))
  }

  lemma {:induction false} ReadsFfCoded(v: nat, rest: seq<Byte>)
    ensures ReadFf(FfCoded(v) + rest) == Some((v, rest))
  {
    if v >= 255 {
      ReadsFfCoded(v - 255, rest);
      assert (FfCoded(v) + rest)[1..] == FfCoded(v - 255) + rest;
    }
  }

  datatype SeiMessage = SeiMessage(payloadType: nat, payload: seq<Byte>)

  /** One sei_message followed by rbsp_trailing_bits. */
  function ReadSeiRbsp(rbsp: seq<Byte>): Option<SeiMessage> {
    match ReadFf(rbsp)
    case None => None
    case Some(t) =>
      match ReadFf(t.1)
      case None => None
      case Some(n) =>
        if |n.1| == n.0 + 1 && n.1[n.0] == 0x80 then Some(SeiMessage(t.0, n.1[..n.0])) else None
  }

  function SeiRbsp(payload: seq<Byte>): (r: seq<Byte>)
    ensures r != [] && r[|r| - 1] == 0x80
  {
    FfCoded(5) + FfCoded(|payload|) + payload + [0x80]
  }

  datatype Codec = H264 | H265

  const PREFIX_SEI_NUT: int := 39

  function SeiHeader(codec: Codec): seq<Byte> {
    match codec case H264 => [6] case H265 => [PREFIX_SEI_NUT * 2, 1]
  }

  function SeiNal(codec: Codec, payload: seq<Byte>): seq<Byte> {
    SeiHeader(codec) + Escape(0, SeiRbsp(payload))
  }

  /** buildH264SeiNal and buildH265SeiNal. */
  method BuildSeiNal(codec: Codec, payload: seq<Byte>) returns (nal: seq<Byte>)
    ensures nal == SeiNal(codec, payload)
  {
    var rbsp := AppendSeiLength([], 5);
    rbsp := AppendSeiLength(rbsp, |payload|);
    rbsp := rbsp + payload;
    rbsp := rbsp + [0x80];
    var ebsp := ToEbsp(rbsp);
    assert [] + FfCoded(5) == FfCoded(5);
    nal := match codec case H264 => [6] case H265 => [PREFIX_SEI_NUT * 2, 1];
    nal := nal + ebsp;
  }

  /** A decoder's view of a NAL unit: header, emulation prevention removed, SEI message read. For H.264
      nal_unit_type is the low five bits of the first byte, 6 for SEI; for H.265 it is bits 1 to 6 of a
      two-byte header, 39 for prefix SEI, and the temporal id must not be zero. */
  function ReadSeiNal(codec: Codec, nal: seq<Byte>): Option<SeiMessage> {
    match codec
    case H264 =>
      if |nal| >= 1 && nal[0] < 128 && nal[0] % 32 == 6 then ReadSeiRbsp(Unescape(nal[1..])) else None
    case H265 =>
      if |nal| >= 2 && nal[0] < 128 && nal[0] / 2 == 39 && nal[1] % 8 != 0
      then ReadSeiRbsp(Unescape(nal[2..])) else None
  }

  /** A decoder reads back payload type 5 (user data unregistered) and exactly the payload. */
  lemma SeiNalReadsBack(codec: Codec, payload: seq<Byte>)
    ensures ReadSeiNal(codec, SeiNal(codec, payload)) == Some(SeiMessage(5, payload))
  {
    var nal, header := SeiNal(codec, payload), SeiHeader(codec);
    assert nal[|header|..] == Escape(0, SeiRbsp(payload));
    UnescapeInvertsEscape(SeiRbsp(payload));
    var afterType := FfCoded(|payload|) + (payload + [0x80]);
    assert SeiRbsp(payload) == FfCoded(5) + afterType;
    ReadsFfCoded(5, afterType);
    ReadsFfCoded(|payload|, payload + [0x80]);
    assert (payload + [0x80])[..|payload|] == payload;
  }

  /** The whole NAL unit, header included, is free of start codes and does not end in a zero byte. */
  lemma SeiNalConforms(codec: Codec, payload: seq<Byte>)
    ensures Conforming(SeiNal(codec, payload)) && |SeiNal(codec, payload)| >= 2
    ensures SeiNal(codec, payload)[|SeiNal(codec, payload)| - 1] == 0x80
  {
    var header, body := SeiHeader(codec), Escape(0, SeiRbsp(payload));
    EscapeConforms(SeiRbsp(payload));
    EscapeIsShort(SeiRbsp(payload));
    ConformingPrefix(header, body);
  }
}
