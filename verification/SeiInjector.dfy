/** MspSeiInjector::inject of src/stream/SeiInjector.cpp and the two framings it writes, with the splitting
    of a byte stream into NAL units that Annex B of ITU-T H.264 and H.265 prescribes. */
module SeiInjector {
  import opened Common
  import opened Bytes
  import opened SeiCodec
  import opened MspPayload

  // ---------------------------------------------------------------------------------------------
  // Annex B
  // ---------------------------------------------------------------------------------------------

  predicate StartsWith001(s: seq<Byte>) { |s| >= 3 && s[0] == 0 && s[1] == 0 && s[2] == 1 }

  /** isAnnexB: a guess from the first bytes. */
  predicate IsAnnexB(s: seq<Byte>) {
    |s| >= 4 && (StartsWith001(s) || (s[0] == 0 && s[1] == 0 && s[2] == 0 && s[3] == 1))
  }

  /** The bytes 000000 or 000001 end a NAL unit. */
  predicate EndsNal(s: seq<Byte>) { |s| >= 3 && s[0] == 0 && s[1] == 0 && s[2] <= 1 }

  /** Where the first start code prefix 000001 is, or |s|. */
  function FindStart(s: seq<Byte>): (k: nat)
    ensures k <= |s| && (k < |s| ==> StartsWith001(s[k..]))
    ensures forall j :: 0 <= j < k ==> !StartsWith001(s[j..])
  {
    if s == [] || StartsWith001(s) then 0
    else
      var k := FindStart(s[1..]);
      assert s[1..][k..] == s[1 + k..];
      assert forall j :: 1 <= j <= k ==> s[j..] == s[1..][j - 1..];
      1 + k
  }

  /** Where the NAL unit that starts at the front of s ends. */
  function FindEnd(s: seq<Byte>): (k: nat)
    ensures k <= |s| && (k < |s| ==> EndsNal(s[k..]))
    ensures forall j :: 0 <= j < k ==> !EndsNal(s[j..])
  {
    if s == [] || EndsNal(s) then 0
    else
      var k := FindEnd(s[1..]);
      assert s[1..][k..] == s[1 + k..];
      assert forall j :: 1 <= j <= k ==> s[j..] == s[1..][j - 1..];
      1 + k
  }

  /** The NAL units of a byte stream. */
  function Split(s: seq<Byte>): seq<seq<Byte>>
    decreases |s|
  {
    var k := FindStart(s);
    if k == |s| then []
    else
      var body := s[k + 3..];
      [body[..FindEnd(body)]] + Split(body[FindEnd(body)..])
  }

  const START_CODE: seq<Byte> := [0, 0, 0, 1]

  lemma {:induction false} FindStartIs(s: seq<Byte>, k: nat)
    requires k < |s| && StartsWith001(s[k..]) && forall j :: 0 <= j < k ==> !StartsWith001(s[j..])
    ensures FindStart(s) == k
  {
    var f := FindStart(s);
    assert f <= k;
    assert StartsWith001(s[f..]);
  }

  lemma {:induction false} FindEndIs(s: seq<Byte>, k: nat)
    requires k < |s| && EndsNal(s[k..]) && forall j :: 0 <= j < k ==> !EndsNal(s[j..])
    ensures FindEnd(s) == k
  {
    var f := FindEnd(s);
    assert f <= k;
    assert EndsNal(s[f..]);
  }

  /** A conforming NAL unit that does not end in zero, framed with a start code in front of a stream that
      begins with a start code, is the first unit of the result; the rest is what the stream held. */
  lemma {:induction false} SplitsInFront(nal: seq<Byte>, stream: seq<Byte>)
    requires Conforming(nal) && nal != [] && nal[|nal| - 1] != 0 && IsAnnexB(stream)
    ensures Split(START_CODE + nal + stream) == [nal] + Split(stream)
  {
    var s, body := START_CODE + nal + stream, nal + stream;
    assert s[1..] == [0, 0, 1] + body;
    assert !StartsWith001(s[0..]);
    FindStartIs(s, 1);
    assert s[1 + 3..] == body;
    forall j | 0 <= j < |nal| ensures !EndsNal(body[j..]) {
      assert OkAt(nal, j);
    }
    assert body[|nal|..] == stream && EndsNal(stream);
    FindEndIs(body, |nal|);
    assert body[..|nal|] == nal;
  }

  // ---------------------------------------------------------------------------------------------
  // Length prefixes
  // ---------------------------------------------------------------------------------------------

  function Pow256(n: nat): (p: nat)
    ensures p >= 1
  {
    if n == 0 then 1 else 256 * Pow256(n - 1)
  }

  /** The low n bytes of v, most significant first. */
  function BeBytes(v: nat, n: nat): (r: seq<Byte>)
    ensures |r| == n
    decreases n
  {
    if n == 0 then [] else BeBytes(v / 256, n - 1) + [v % 256]
  }

  function FromBe(s: seq<Byte>): nat {
    if s == [] then 0 else
      var last: int := s[|s| - 1];
      256 * FromBe(s[..|s| - 1]) + last
  }

  lemma {:induction false} NothingShiftsIn(v: nat, n: nat)
    requires n <= 4 && v < Pow256(n)
    ensures v / Pow256(n) == 0
  {
    assert Pow256(1) == 256 && Pow256(2) == 0x1_0000 && Pow256(3) == 0x100_0000 && Pow256(4) == 0x1_0000_0000;
  }

  lemma ShiftByOneMore(v: nat, k: nat)
    requires k < 4
    ensures v / Pow256(k) / 256 == v / Pow256(k + 1)
  {
    assert Pow256(1) == 256 && Pow256(2) == 0x1_0000 && Pow256(3) == 0x100_0000 && Pow256(4) == 0x1_0000_0000;
  }

  method AppendNalLength(start: seq<Byte>, value: nat, nalLengthSize: nat) returns (out: seq<Byte>)
    requires nalLengthSize <= 4 && value < Pow256(nalLengthSize)
    ensures out == start + BeBytes(value, nalLengthSize)
  {
    out := start;
    NothingShiftsIn(value, nalLengthSize);
    ghost var done: seq<Byte> := [];
    var k := nalLengthSize;
    while k > 0
      invariant 0 <= k <= nalLengthSize
      invariant out == start + done && done == BeBytes(value / Pow256(k), nalLengthSize - k)
    {
      k := k - 1;
      ShiftByOneMore(value, k);
      out := out + [value / Pow256(k) % 256];
      done := done + [value / Pow256(k) % 256];
    }
  }

  lemma {:induction false} FromBeBytes(v: nat, n: nat)
    requires v < Pow256(n)
    ensures FromBe(BeBytes(v, n)) == v
  {
    if n > 0 {
      FromBeBytes(v / 256, n - 1);
      assert BeBytes(v, n)[..n - 1] == BeBytes(v / 256, n - 1);
    }
  }

  /** toLengthPrefixedNal; the empty result means "cannot be expressed". */
  function LengthPrefixed(nal: seq<Byte>, nalLengthSize: int): seq<Byte> {
    if 1 <= nalLengthSize <= 4 && |nal| < Pow256(nalLengthSize) then BeBytes(|nal|, nalLengthSize) + nal else []
  }

  method ToLengthPrefixedNal(nal: seq<Byte>, nalLengthSize: int) returns (out: seq<Byte>)
    ensures out == LengthPrefixed(nal, nalLengthSize)
  {
    if nalLengthSize < 1 || nalLengthSize > 4 {
      return [];
    }
    var maxNalSize := if nalLengthSize == 4 then 0xFFFF_FFFF else Pow256(nalLengthSize) - 1;
    assert Pow256(4) == 0x1_0000_0000;
    if |nal| > maxNalSize {
      return [];
    }
    out := AppendNalLength([], |nal|, nalLengthSize);
    out := out + nal;
  }

  /** The NAL units of a length-prefixed packet, if it is well formed. */
  function Parse(s: seq<Byte>, lengthSize: nat): Option<seq<seq<Byte>>>
    requires lengthSize >= 1
    decreases |s|
  {
    if s == [] then Some([])
    else if |s| < lengthSize then None
    else
      var n := FromBe(s[..lengthSize]);
      if |s| - lengthSize < n then None
      else
        match Parse(s[lengthSize + n..], lengthSize)
        case None => None
        case Some(rest) => Some([s[lengthSize..lengthSize + n]] + rest)
  }

  lemma {:induction false} ParsesInFront(nal: seq<Byte>, lengthSize: nat, rest: seq<Byte>)
    requires lengthSize >= 1 && |nal| < Pow256(lengthSize) && Parse(rest, lengthSize).Some?
    ensures Parse(BeBytes(|nal|, lengthSize) + nal + rest, lengthSize) == Some([nal] + Parse(rest, lengthSize).value)
  {
    var prefix := BeBytes(|nal|, lengthSize);
    var s := prefix + nal + rest;
    FromBeBytes(|nal|, lengthSize);
    assert s[..lengthSize] == prefix && s[lengthSize..lengthSize + |nal|] == nal;
    assert s[lengthSize + |nal|..] == rest;
  }

  // ---------------------------------------------------------------------------------------------
  // inject
  // ---------------------------------------------------------------------------------------------

  function ToAnnexBNal(nal: seq<Byte>): seq<Byte> { START_CODE + nal }

  predicate HasItems(c: Context) { c.bboxes != [] || c.texts != [] }

  function SeiNalOf(codec: Codec, c: Context): seq<Byte> { SeiNal(codec, Payload(c)) }

  /** The SEI NAL unit in the source's framing. */
  function Framed(source: seq<Byte>, codec: Codec, nalLengthSize: int, c: Context): seq<Byte> {
    if IsAnnexB(source) then ToAnnexBNal(SeiNalOf(codec, c)) else LengthPrefixed(SeiNalOf(codec, c), nalLengthSize)
  }

  lemma HasItemsIff(c: Context)
    ensures HasItems(c) <==> KeptItems(c) != []
  {
    KeepsSomethingIff(c);
  }

  /** inject, with the success of the packet allocation and of av_packet_copy_props as inputs. A missing
      packet or one without data is None or empty. A context with a box or a text is injected: what goes out is for
      an Annex B receiver one unit with the kept items and then the source's own units, and for a receiver of
      length-prefixed units likewise. Without either the source goes out as it is. */
  method Inject(source: Option<seq<Byte>>, codec: Codec, nalLengthSize: int, c: Context, packetAllocated: bool, propsCopied: bool)
      returns (ok: bool, output: Option<seq<Byte>>)
    ensures ok <==>
      source.Some? && source.value != [] && (HasItems(c) ==> Framed(source.value, codec, nalLengthSize, c) != [] && packetAllocated && propsCopied)
    ensures ok && HasItems(c) ==> output == Some(Framed(source.value, codec, nalLengthSize, c) + source.value)
    ensures !(ok && HasItems(c)) ==> output == source
    ensures KeptItems(c) == [] ==> output == source
    ensures ok && KeptItems(c) != [] && IsAnnexB(source.value) ==> InjectedInAnnexB(source.value, output.value, codec, c)
    ensures ok && KeptItems(c) != [] && !IsAnnexB(source.value) ==>
      1 <= nalLengthSize <= 4 && InjectedWithLength(source.value, output.value, codec, nalLengthSize, c)
  {
    HasItemsIff(c);
    if source.None? || source.value == [] {
      return false, source;
    }
    if c.bboxes == [] && c.texts == [] {
      return true, source;
    }
    InjectionIsRead(source.value, codec, nalLengthSize, c);
    var payload := BuildMspV1UserDataPayload(c);
    var seiNalUnit := BuildSeiNal(codec, payload);
    var seiNal;
    if IsAnnexB(source.value) {
      seiNal := ToAnnexBNal(seiNalUnit);
    } else {
      seiNal := ToLengthPrefixedNal(seiNalUnit, nalLengthSize);
    }
    if seiNal == [] {
      return false, source;
    }
    if !packetAllocated {
      return false, source;
    }
    var data := seiNal + source.value;
    if !propsCopied {
      return false, source;
    }
    return true, Some(data);
  }

  /** A decoder of the SEI NAL unit gets the user data message with exactly the kept items. */
  predicate CarriesTheItems(nal: seq<Byte>, codec: Codec, c: Context) {
    var message := ReadSeiNal(codec, nal);
    message.Some? && message.value.payloadType == 5 && ReadPayload(message.value.payload) == Some(KeptItems(c))
  }

  lemma SeiNalCarriesTheItems(codec: Codec, c: Context)
    ensures CarriesTheItems(SeiNalOf(codec, c), codec, c)
  {
    SeiNalReadsBack(codec, Payload(c));
    PayloadReadsBack(c);
  }

  /** Annex B sources, both codecs: a splitter finds the SEI unit and then the source's own units, unchanged
      and in order, and a decoder of the first unit reads the kept items. */
  lemma {:induction false} AnnexBInjection(source: seq<Byte>, codec: Codec, nalLengthSize: int, c: Context)
    requires IsAnnexB(source)
    ensures var units := Split(Framed(source, codec, nalLengthSize, c) + source);
      units != [] && units[1..] == Split(source) && CarriesTheItems(units[0], codec, c)
  {
    var nal := SeiNalOf(codec, c);
    SeiNalConforms(codec, Payload(c));
    SplitsInFront(nal, source);
    SeiNalCarriesTheItems(codec, c);
    assert ([nal] + Split(source))[1..] == Split(source);
  }

  /** Length-prefixed sources: a parser with the same length size finds the SEI unit and then the source's
      own units if and only if the source does not look like Annex B. */
  lemma {:induction false} LengthPrefixedInjection(source: seq<Byte>, codec: Codec, nalLengthSize: int, c: Context)
    requires 1 <= nalLengthSize <= 4 && Parse(source, nalLengthSize).Some?
    requires |SeiNalOf(codec, c)| < Pow256(nalLengthSize)
    ensures Parse(Framed(source, codec, nalLengthSize, c) + source, nalLengthSize)
         == Some([SeiNalOf(codec, c)] + Parse(source, nalLengthSize).value)
      <==> !IsAnnexB(source)
    ensures CarriesTheItems(SeiNalOf(codec, c), codec, c)
  {
    var nal := SeiNalOf(codec, c);
    SeiNalCarriesTheItems(codec, c);
    if IsAnnexB(source) {
      SeiNalConforms(codec, Payload(c));
      StartCodeReadAsLength(nal + source, nalLengthSize);
      assert START_CODE + nal + source == START_CODE + (nal + source);
    } else {
      ParsesInFront(nal, nalLengthSize, source);
    }
  }

  predicate InjectedInAnnexB(source: seq<Byte>, output: seq<Byte>, codec: Codec, c: Context) {
    var units := Split(output);
    units != [] && units[1..] == Split(source) && CarriesTheItems(units[0], codec, c)
  }

  predicate InjectedWithLength(source: seq<Byte>, output: seq<Byte>, codec: Codec, nalLengthSize: nat, c: Context)
    requires nalLengthSize >= 1
  {
    var units := Parse(output, nalLengthSize);
    Parse(source, nalLengthSize).Some? ==>
      units.Some? && units.value != [] && units.value[1..] == Parse(source, nalLengthSize).value
      && CarriesTheItems(units.value[0], codec, c)
  }

  /** What a receiver gets from the framed unit in front of the source. */
  lemma InjectionIsRead(source: seq<Byte>, codec: Codec, nalLengthSize: int, c: Context)
    ensures var framed := Framed(source, codec, nalLengthSize, c);
      && (IsAnnexB(source) ==> InjectedInAnnexB(source, framed + source, codec, c))
      && (!IsAnnexB(source) && framed != [] ==>
            1 <= nalLengthSize <= 4 && InjectedWithLength(source, framed + source, codec, nalLengthSize, c))
  {
    if IsAnnexB(source) {
      AnnexBInjection(source, codec, nalLengthSize, c);
    } else if Framed(source, codec, nalLengthSize, c) != [] && Parse(source, nalLengthSize).Some? {
      LengthPrefixedInjection(source, codec, nalLengthSize, c);
    }
  }

  /** Taken as a length, a start code announces a unit of at most one byte. */
  lemma {:induction false} StartCodeReadAsLength(rest: seq<Byte>, nalLengthSize: nat)
    requires 1 <= nalLengthSize <= 4
    ensures var units := Parse(START_CODE + rest, nalLengthSize);
      units.None? || (units.value != [] && |units.value[0]| <= 1)
  {
    var s := START_CODE + rest;
    assert s[..nalLengthSize] == START_CODE[..nalLengthSize];
    StartCodeValue(nalLengthSize);
  }

  lemma StartCodeValue(n: nat)
    requires 1 <= n <= 4
    ensures FromBe(START_CODE[..n]) <= 1
  {
    assert START_CODE[..1] == [0] && START_CODE[..2] == [0, 0] && START_CODE[..3] == [0, 0, 0];
    assert FromBe([0]) == 0;
    assert [0, 0][..1] == [0] && FromBe([0, 0]) == 0;
    assert [0, 0, 0][..2] == [0, 0] && FromBe([0, 0, 0]) == 0;
    assert START_CODE[..4] == START_CODE && START_CODE[..3] == [0, 0, 0] && FromBe(START_CODE) == 1;
  }

  lemma {:induction false} FromBeOfFew(s: seq<Byte>)
    requires 1 <= |s| <= 4
    ensures var v0: int := s[0];
      && (|s| == 1 ==> FromBe(s) == v0)
      && (|s| == 2 ==> FromBe(s) == 256 * v0 + s[1])
      && (|s| == 3 ==> FromBe(s) == 256 * (256 * v0 + s[1]) + s[2])
      && (|s| == 4 ==> FromBe(s) == 256 * (256 * (256 * v0 + s[1]) + s[2]) + s[3])
  {
    var last: int := s[|s| - 1];
    if |s| > 1 {
      FromBeOfFew(s[..|s| - 1]);
      assert forall i :: 0 <= i < |s| - 1 ==> s[..|s| - 1][i] == s[i];
    } else {
      assert s[..0] == [];
    }
    assert FromBe(s) == 256 * FromBe(s[..|s| - 1]) + last;
  }

  /** Lengths of the leading units whose prefixes spell a start code. */
  predicate SpellsStartCode(units: seq<seq<Byte>>, lengthSize: nat) {
    && units != []
    && match lengthSize
       case 4 => |units[0]| == 1 || 256 <= |units[0]| < 512
       case 3 => |units[0]| == 1 || (units[0] == [] && |units| > 1 && 0x1_0000 <= |units[1]| < 0x2_0000)
       case 2 => units[0] == [] && |units| > 1 && (|units[1]| == 1 || 256 <= |units[1]| < 512)
       case _ => units[0] == [] && |units| > 2 && units[1] == []
                 && (|units[2]| == 1 || (units[2] == [] && |units| > 3 && |units[3]| == 1))
  }

  /** One unit of a well-formed packet. */
  lemma {:induction false} ParsesFirst(s: seq<Byte>, lengthSize: nat)
    requires lengthSize >= 1 && s != [] && Parse(s, lengthSize).Some?
    ensures |s| >= lengthSize && |s| - lengthSize >= FromBe(s[..lengthSize])
    ensures var n, units := FromBe(s[..lengthSize]), Parse(s, lengthSize).value;
      && units != [] && |units[0]| == n
      && Parse(s[lengthSize + n..], lengthSize) == Some(units[1..])
      && (units[1..] == [] <==> s[lengthSize + n..] == [])
  {
    var n := FromBe(s[..lengthSize]);
    var tail := s[lengthSize + n..];
    var rest := Parse(tail, lengthSize);
    ConsIs(s[lengthSize..lengthSize + n], rest.value);
    ParsesToNothing(tail, lengthSize);
  }

  lemma ConsIs(unit: seq<Byte>, rest: seq<seq<Byte>>)
    ensures ([unit] + rest)[0] == unit && ([unit] + rest)[1..] == rest
  {
  }

  lemma {:induction false} ParsesToNothing(s: seq<Byte>, lengthSize: nat)
    requires lengthSize >= 1 && Parse(s, lengthSize).Some?
    ensures Parse(s, lengthSize).value == [] <==> s == []
  {
  }

  /** The first unit of a well-formed packet, and what follows it when it is empty. */
  lemma {:induction false} Peel(s: seq<Byte>, lengthSize: nat) returns (units: seq<seq<Byte>>)
    requires 1 <= lengthSize <= 4 && Parse(s, lengthSize).Some?
    ensures Parse(s, lengthSize) == Some(units) && (units == [] <==> s == [])
    ensures units != [] ==> |s| >= lengthSize + |units[0]| && |units[0]| == FromBe(s[..lengthSize])
    ensures units != [] && units[0] == [] ==> Parse(s[lengthSize..], lengthSize) == Some(units[1..])
  {
    units := Parse(s, lengthSize).value;
    if s != [] {
      ParsesFirst(s, lengthSize);
      FromBeOfFew(s[..lengthSize]);
    }
  }

  lemma {:induction false} SpelledByFour(s: seq<Byte>)
    requires s != [] && Parse(s, 4).Some?
    ensures IsAnnexB(s) <==> SpellsStartCode(Parse(s, 4).value, 4)
  {
    var units := Peel(s, 4);
    FromBeOfFew(s[..4]);
  }

  lemma {:induction false} SpelledByThree(s: seq<Byte>)
    requires s != [] && Parse(s, 3).Some?
    ensures IsAnnexB(s) <==> SpellsStartCode(Parse(s, 3).value, 3)
  {
    var units := Peel(s, 3);
    FromBeOfFew(s[..3]);
    if units[0] == [] && |s| > 3 {
      var rest := Peel(s[3..], 3);
      FromBeOfFew(s[3..][..3]);
    }
  }

  lemma {:induction false} SpelledByTwo(s: seq<Byte>)
    requires s != [] && Parse(s, 2).Some?
    ensures IsAnnexB(s) <==> SpellsStartCode(Parse(s, 2).value, 2)
  {
    var units := Peel(s, 2);
    FromBeOfFew(s[..2]);
    if units[0] == [] && |s| > 2 {
      var rest := Peel(s[2..], 2);
      FromBeOfFew(s[2..][..2]);
    }
  }

  /** With one-byte lengths: after an empty unit, does 1, or 0 and 1, follow? */
  lemma {:induction false} SpelledLater(s: seq<Byte>)
    requires Parse(s, 1).Some?
    ensures var units := Parse(s, 1).value;
      && (s != [] && s[0] == 1 <==> units != [] && |units[0]| == 1) && (s != [] && s[0] == 1 ==> |s| >= 2)
      && (s != [] && s[0] == 0 <==> units != [] && units[0] == [])
      && (s != [] && s[0] == 0 ==> Parse(s[1..], 1) == Some(units[1..]))
  {
    var units := Peel(s, 1);
    if s != [] { FromBeOfFew(s[..1]); }
  }

  lemma {:induction false} SpelledByOne(s: seq<Byte>)
    requires s != [] && Parse(s, 1).Some?
    ensures IsAnnexB(s) <==> SpellsStartCode(Parse(s, 1).value, 1)
  {
    SpelledLater(s);
    if s[0] == 0 {
      SpelledLater(s[1..]);
      if |s| > 1 && s[1] == 0 {
        SpelledLater(s[1..][1..]);
        if |s| > 2 && s[2] == 0 {
          SpelledLater(s[1..][1..][1..]);
        }
      }
    }
  }

  /** A well-formed length-prefixed packet is mistaken for Annex B exactly when the lengths of its first
      units spell a start code; with the usual four-byte lengths, when its first unit has 1 byte or 256 to
      511 bytes. */
  lemma {:induction false} WhenLengthsLookLikeStartCodes(source: seq<Byte>, nalLengthSize: nat)
    requires 1 <= nalLengthSize <= 4 && Parse(source, nalLengthSize).Some?
    ensures IsAnnexB(source) <==> SpellsStartCode(Parse(source, nalLengthSize).value, nalLengthSize)
  {
    if source != [] {
      match nalLengthSize
      case 4 => SpelledByFour(source);
      case 3 => SpelledByThree(source);
      case 2 => SpelledByTwo(source);
      case _ => SpelledByOne(source);
    }
  }

  /** A packet of one 256-byte unit is one. */
  lemma APacketIsMistaken()
    ensures var unit: seq<Byte> := seq(256, _ => 7);
      Parse([0, 0, 1, 0] + unit, 4) == Some([unit]) && IsAnnexB([0, 0, 1, 0] + unit)
  {
    var unit: seq<Byte> := seq(256, _ => 7);
    assert BeBytes(256, 4) == [0, 0, 1, 0];
    assert Pow256(4) == 0x1_0000_0000;
    ParsesInFront(unit, 4, []);
    assert [0, 0, 1, 0] + unit + [] == [0, 0, 1, 0] + unit && [unit] + [] == [unit];
  }

  lemma {:induction false} FfCodedLength(v: nat)
    ensures |FfCoded(v)| == v / 255 + 1
  {
    if v >= 255 { FfCodedLength(v - 255); }
  }

  lemma {:induction false} ItemsAreShort(items: seq<Item>)
    requires forall k :: 0 <= k < |items| ==> Fits(items[k])
    ensures SizeOfItems(items) <= 257 * |items|
  {
    if items != [] { ItemsAreShort(items[1..]); }
  }

  lemma SeiNalIsShort(codec: Codec, c: Context)
    ensures |SeiNalOf(codec, c)| < 0x100_0000
  {
    var payload := Payload(c);
    PayloadReadsBack(c);
    ItemsAreShort(KeptItems(c));
    FfCodedLength(5);
    FfCodedLength(|payload|);
    EscapeIsShort(SeiRbsp(payload));
  }

  lemma ShortNalFits(nal: seq<Byte>, nalLengthSize: int)
    requires |nal| < 0x100_0000 && 3 <= nalLengthSize <= 4
    ensures LengthPrefixed(nal, nalLengthSize) != []
  {
    assert Pow256(3) == 0x100_0000 && Pow256(4) == 0x1_0000_0000;
  }

  /** Lengths of three or four bytes can always express the SEI unit, so that only a failed allocation makes
      inject give up on a packet with items. */
  lemma SeiNalAlwaysFits(source: seq<Byte>, codec: Codec, nalLengthSize: int, c: Context)
    requires IsAnnexB(source) || 3 <= nalLengthSize <= 4
    ensures Framed(source, codec, nalLengthSize, c) != []
  {
    if !IsAnnexB(source) {
      SeiNalIsShort(codec, c);
      ShortNalFits(SeiNalOf(codec, c), nalLengthSize);
    }
  }
}
