/** The MSP V1 payload builder of src/stream/SeiInjector.cpp, and a reader written from section 4.4 of
    docs/metadata-over-sei-protocol.txt. Floating-point inputs are modelled as reals. */
module MspPayload {
  import opened Common
  import opened Bytes

  datatype DetectionObject = DetectionObject(
    objectId: U32, className: seq<Byte>, confidence: real, cx: real, cy: real, width: real, height: real, angle: real)

  datatype TextOsd = TextOsd(
    flags: Byte, style: Byte, x: real, y: real, width: real, height: real, text: seq<Byte>,
    reserved: Byte, textColor: U32, bgColor: U32)

  datatype Context = Context(bboxes: seq<DetectionObject>, texts: seq<TextOsd>)

  // ---------------------------------------------------------------------------------------------
  // Quantization (section 4.4.6)
  // ---------------------------------------------------------------------------------------------

  function Clamp(v: real): real { if v < 0.0 then 0.0 else if v > 1.0 then 1.0 else v }

  /** std::round on a non-negative number. */
  function Round(v: real): int
    requires v >= 0.0
  {
    (v + 0.5).Floor
  }

  function UnitToU16(v: real): U16 { Round(Clamp(v) * 65535.0) }

  function UnitToU8(v: real): Byte { Round(Clamp(v) * 255.0) }

  /** std::fmod(a, 360) brought into [0, 360). */
  function Normalize(a: real): (r: real)
    ensures 0.0 <= r < 360.0
  {
    var truncated := if a >= 0.0 then (a / 360.0).Floor as real else -((-a / 360.0).Floor as real);
    var rest := a - 360.0 * truncated;
    if rest < 0.0 then rest + 360.0 else rest
  }

  function AngleToU16(a: real): U16 { Round(Normalize(a) / 360.0 * 65535.0) }

  function Distance(a: real, b: real): (d: real)
    ensures d >= a - b && d >= b - a
  {
    if a >= b then a - b else b - a
  }

  /** Clamping takes the nearest number from 0 to 1. */
  lemma ClampIsNearest(v: real, x: real)
    requires 0.0 <= x <= 1.0
    ensures 0.0 <= Clamp(v) <= 1.0 && Distance(v, Clamp(v)) <= Distance(v, x)
    ensures Clamp(x) == x
  {
  }

  /** Normalizing takes off a whole number of turns. */
  lemma NormalizeIsModulo(a: real) returns (turns: int)
    ensures a == Normalize(a) + 360.0 * turns as real && 0.0 <= Normalize(a) < 360.0
  {
    turns := if a >= 0.0 then (a / 360.0).Floor else -(-a / 360.0).Floor;
    if a - 360.0 * turns as real < 0.0 { turns := turns - 1; }
  }

  /** A receiver that dequantizes as documented is off by at most half a step from the clamped value, and
      encoding the dequantized value again gives the same code. */
  lemma UnitCodesAreFaithful(v: real, q: U16, c: Byte)
    ensures Distance(UnitToU16(v) as real / 65535.0, Clamp(v)) <= 0.5 / 65535.0
    ensures Distance(UnitToU8(v) as real / 255.0, Clamp(v)) <= 0.5 / 255.0
    ensures UnitToU16(q as real / 65535.0) == q && UnitToU8(c as real / 255.0) == c
  {
    assert Clamp(q as real / 65535.0) == q as real / 65535.0 && Clamp(c as real / 255.0) == c as real / 255.0;
    assert (q as real / 65535.0) * 65535.0 == q as real;
    assert (c as real / 255.0) * 255.0 == c as real;
    assert (q as real + 0.5).Floor == q && (c as real + 0.5).Floor == c;
  }

  function AngleFromU16(q: U16): real { q as real / 65535.0 * 360.0 }

  /** Angles survive the same round trip except the top code 65535, which stands for 360 degrees, lies
      outside the documented range [0, 360) and comes back as 0. */
  lemma AngleCodesAreFaithful(a: real, q: U16)
    ensures Distance(AngleFromU16(AngleToU16(a)), Normalize(a)) <= 180.0 / 65535.0
    ensures AngleFromU16(q) < 360.0 <==> q != 65535
    ensures AngleToU16(AngleFromU16(q)) == q <==> q != 65535
  {
    var n := Normalize(a);
    var scaled := n / 360.0 * 65535.0;
    assert AngleToU16(a) as real - 0.5 <= scaled <= AngleToU16(a) as real + 0.5;
    assert AngleFromU16(q) / 360.0 * 65535.0 == q as real;
    assert (q as real + 0.5).Floor == q;
    if q == 65535 {
      assert AngleFromU16(q) == 360.0 && (360.0 / 360.0).Floor == 1;
    } else {
      assert 0.0 <= AngleFromU16(q) / 360.0 < 1.0;
      assert (AngleFromU16(q) / 360.0).Floor == 0;
    }
  }

  /** Which angles are sent as a value inside the documented range: all but those that round up to 360. */
  lemma AngleStaysInRangeIff(a: real)
    ensures AngleFromU16(AngleToU16(a)) < 360.0 <==> Normalize(a) / 360.0 * 65535.0 < 65534.5
  {
    AngleCodesAreFaithful(a, AngleToU16(a));
  }

  /** 359.999 degrees is read back as 360. */
  lemma AnAngleLeavesTheRange()
    ensures Normalize(359.999) == 359.999 && AngleFromU16(AngleToU16(359.999)) == 360.0
  {
    assert (359.999 / 360.0).Floor == 0;
    assert 359.999 / 360.0 * 65535.0 >= 65534.5;
    AngleStaysInRangeIff(359.999);
    AngleCodesAreFaithful(0.0, AngleToU16(359.999));
    assert AngleToU16(359.999) == 65535;
  }

  // ---------------------------------------------------------------------------------------------
  // Items on the wire
  // ---------------------------------------------------------------------------------------------

  const BBOX_FIXED: nat := 18
  const TEXT_FIXED: nat := 20
  const UNKNOWN: seq<Byte> := [117, 110, 107, 110, 111, 119, 110]

  datatype Item =
    | Bbox(id: U16, confidence: Byte, cx: U16, cy: U16, w: U16, h: U16, angle: U16, distance: U32, name: seq<Byte>)
    | Text(flags: Byte, style: Byte, x: U16, y: U16, tw: U16, th: U16, reserved: Byte, textColor: U32, bgColor: U32, text: seq<Byte>)

  /** The documented size of the item's payload. */
  function ItemSize(i: Item): nat {
    match i
    case Bbox(_, _, _, _, _, _, _, _, name) => BBOX_FIXED + |name|
    case Text(_, _, _, _, _, _, _, _, _, text) => TEXT_FIXED + |text|
  }

  /** Items whose size field fits its byte. */
  predicate Fits(i: Item) { ItemSize(i) <= 255 }

  function Cut(s: seq<Byte>, n: nat): (r: seq<Byte>)
    ensures |r| == Min(|s|, n) && r <= s
  {
    if |s| <= n then s else s[..n]
  }

  /** What a detection says on the wire: the id saturates, the name is at most 237 bytes and never empty. */
  function BboxOf(o: DetectionObject): (i: Item)
    ensures Fits(i) && i.Bbox? && 1 <= |i.name| <= 237
    ensures o.className != [] ==> i.name <= o.className && |i.name| == Min(|o.className|, 237)
  {
    var name := if o.className == [] then UNKNOWN else o.className;
    Bbox(Min(o.objectId, 65535), UnitToU8(o.confidence), UnitToU16(o.cx), UnitToU16(o.cy), UnitToU16(o.width),
         UnitToU16(o.height), AngleToU16(o.angle), 0, Cut(name, 255 - BBOX_FIXED))
  }

  function TextOf(t: TextOsd): (i: Item)
    ensures Fits(i) && i.Text? && i.text <= t.text && |i.text| == Min(|t.text|, 235)
  {
    Text(t.flags, t.style, UnitToU16(t.x), UnitToU16(t.y), UnitToU16(t.width), UnitToU16(t.height), t.reserved,
         t.textColor, t.bgColor, Cut(t.text, 255 - TEXT_FIXED))
  }

  /** The fixed fields of an item's payload, in wire order. */
  function ItemHead(i: Item): (r: seq<Byte>)
    requires Fits(i)
    ensures |r| == if i.Bbox? then BBOX_FIXED else TEXT_FIXED
  {
    match i
    case Bbox(id, confidence, cx, cy, w, h, angle, distance, name) =>
      BeU16(id) + [|name|] + [confidence] + BeU16(cx) + BeU16(cy) + BeU16(w) + BeU16(h) + BeU16(angle) + BeU32(distance)
    case Text(flags, style, x, y, w, h, reserved, textColor, bgColor, text) =>
      [flags] + [style] + BeU16(x) + BeU16(y) + BeU16(w) + BeU16(h) + [|text|] + [reserved] + BeU32(textColor) + BeU32(bgColor)
  }

  function ItemTail(i: Item): seq<Byte> {
    match i
    case Bbox(_, _, _, _, _, _, _, _, name) => name
    case Text(_, _, _, _, _, _, _, _, _, text) => text
  }

  function ItemType(i: Item): Byte { if i.Bbox? then 1 else 2 }

  /** item_type, item_size, item_payload. */
  function ItemBytes(i: Item): (r: seq<Byte>)
    requires Fits(i)
    ensures |r| == 2 + ItemSize(i)
  {
    [ItemType(i)] + [ItemSize(i)] + (ItemHead(i) + ItemTail(i))
  }

  /** std::vector::insert at the end; `start` is what the vector held and `done` what was appended since. */
  method Append(out: seq<Byte>, bytes: seq<Byte>, ghost start: seq<Byte>, ghost done: seq<Byte>) returns (r: seq<Byte>)
    requires out == start + done
    ensures r == start + (done + bytes)
  {
    r := out + bytes;
  }

  method AppendMspBboxItem(payload: seq<Byte>, o: DetectionObject) returns (out: seq<Byte>)
    ensures out == payload + ItemBytes(BboxOf(o))
  {
    var fullName := if o.className == [] then UNKNOWN else o.className;
    var length := Min(|fullName|, 255 - BBOX_FIXED);
    out := payload + [1];
    out := out + [BBOX_FIXED + length];
    ghost var start, head := out, BeU16(Min(o.objectId, 65535));
    out := out + BeU16(Min(o.objectId, 65535));
    out := Append(out, [length], start, head);
    head := head + [length];
    out := Append(out, [UnitToU8(o.confidence)], start, head);
    head := head + [UnitToU8(o.confidence)];
    out := Append(out, BeU16(UnitToU16(o.cx)), start, head);
    head := head + BeU16(UnitToU16(o.cx));
    out := Append(out, BeU16(UnitToU16(o.cy)), start, head);
    head := head + BeU16(UnitToU16(o.cy));
    out := Append(out, BeU16(UnitToU16(o.width)), start, head);
    head := head + BeU16(UnitToU16(o.width));
    out := Append(out, BeU16(UnitToU16(o.height)), start, head);
    head := head + BeU16(UnitToU16(o.height));
    out := Append(out, BeU16(AngleToU16(o.angle)), start, head);
    head := head + BeU16(AngleToU16(o.angle));
    out := Append(out, BeU32(0), start, head);
    head := head + BeU32(0);
    assert head == ItemHead(BboxOf(o));
    out := Append(out, fullName[..length], start, head);
    assert fullName[..length] == ItemTail(BboxOf(o));
    AppendedItem(payload, BboxOf(o));
  }

  lemma AppendedItem(payload: seq<Byte>, i: Item)
    requires Fits(i)
    ensures payload + [ItemType(i)] + [ItemSize(i)] + (ItemHead(i) + ItemTail(i)) == payload + ItemBytes(i)
  {
    var body := ItemHead(i) + ItemTail(i);
    assert payload + [ItemType(i)] + [ItemSize(i)] + body == payload + ([ItemType(i)] + [ItemSize(i)] + body);
  }

  method AppendMspTextOsdItem(payload: seq<Byte>, t: TextOsd) returns (out: seq<Byte>)
    ensures out == payload + ItemBytes(TextOf(t))
  {
    var length := Min(|t.text|, 255 - TEXT_FIXED);
    out := payload + [2];
    out := out + [TEXT_FIXED + length];
    ghost var start, head := out, [t.flags];
    out := out + [t.flags];
    out := Append(out, [t.style], start, head);
    head := head + [t.style];
    out := Append(out, BeU16(UnitToU16(t.x)), start, head);
    head := head + BeU16(UnitToU16(t.x));
    out := Append(out, BeU16(UnitToU16(t.y)), start, head);
    head := head + BeU16(UnitToU16(t.y));
    out := Append(out, BeU16(UnitToU16(t.width)), start, head);
    head := head + BeU16(UnitToU16(t.width));
    out := Append(out, BeU16(UnitToU16(t.height)), start, head);
    head := head + BeU16(UnitToU16(t.height));
    out := Append(out, [length], start, head);
    head := head + [length];
    out := Append(out, [t.reserved], start, head);
    head := head + [t.reserved];
    out := Append(out, BeU32(t.textColor), start, head);
    head := head + BeU32(t.textColor);
    out := Append(out, BeU32(t.bgColor), start, head);
    head := head + BeU32(t.bgColor);
    assert head == ItemHead(TextOf(t));
    out := Append(out, t.text[..length], start, head);
    assert t.text[..length] == ItemTail(TextOf(t));
    AppendedItem(payload, TextOf(t));
  }

  // ---------------------------------------------------------------------------------------------
  // The payload
  // ---------------------------------------------------------------------------------------------

  const MAX_ITEMS: nat := 255
  const SEI_UUID: seq<Byte> := [0x4D, 0x45, 0x54, 0x41, 0x44, 0x41, 0x54, 0x41, 0x53, 0x45, 0x49, 0x42, 0x59, 0x43, 0x48, 0x42]

  function AllItems(bboxes: seq<DetectionObject>, texts: seq<TextOsd>): (r: seq<Item>)
    ensures |r| == |bboxes| + |texts|
    ensures forall k :: 0 <= k < |r| ==> Fits(r[k])
  {
    seq(|bboxes|, k requires 0 <= k < |bboxes| => BboxOf(bboxes[k]))
      + seq(|texts|, k requires 0 <= k < |texts| => TextOf(texts[k]))
  }

  /** The items a message carries: boxes first, then texts, the first 255 of them. */
  function KeptItems(c: Context): (r: seq<Item>)
    ensures |r| == Min(|c.bboxes| + |c.texts|, MAX_ITEMS)
    ensures forall k :: 0 <= k < |r| ==> Fits(r[k])
    ensures forall k :: 0 <= k < |r| ==>
      r[k] == if k < |c.bboxes| then BboxOf(c.bboxes[k]) else TextOf(c.texts[k - |c.bboxes|])
  {
    var all := AllItems(c.bboxes, c.texts);
    if |all| <= MAX_ITEMS then all else all[..MAX_ITEMS]
  }

  function ItemsBytes(items: seq<Item>): seq<Byte>
    requires forall k :: 0 <= k < |items| ==> Fits(items[k])
  {
    if items == [] then [] else ItemsBytes(items[..|items| - 1]) + ItemBytes(items[|items| - 1])
  }

  function Header(count: Byte): (r: seq<Byte>)
    ensures |r| == 20
  {
    SEI_UUID + [1] + [0] + [0] + [count]
  }

  method StartPayload() returns (payload: seq<Byte>, itemCountIndex: nat)
    ensures payload == Header(0) && itemCountIndex == 19
  {
    payload := SEI_UUID;
    payload := payload + [1];
    payload := payload + [0];
    payload := payload + [0];
    itemCountIndex := |payload|;
    payload := payload + [0];
  }

  method BuildMspV1UserDataPayload(c: Context) returns (payload: seq<Byte>)
    ensures payload == Payload(c)
  {
    var bboxCount := Min(|c.bboxes|, MAX_ITEMS);
    var itemCountIndex;
    payload, itemCountIndex := StartPayload();
    NothingWrittenYet(c);
    var itemCount: nat := 0;
    var i := 0;
    while i < bboxCount && itemCount < 255
      invariant itemCount == i <= bboxCount
      invariant WrittenSoFar(payload, c, itemCount)
    {
      BboxIsNext(payload, c, i);
      payload := AppendMspBboxItem(payload, c.bboxes[i]);
      itemCount := itemCount + 1;
      i := i + 1;
    }
    payload, itemCount := AppendTexts(payload, c, itemCount);
    payload := payload[itemCountIndex := itemCount];
    CountFilledIn(KeptItems(c), itemCount);
  }

  /** The second loop: texts while the count has room. */
  method AppendTexts(start: seq<Byte>, c: Context, boxes: nat) returns (payload: seq<Byte>, itemCount: nat)
    requires boxes == Min(|c.bboxes|, MAX_ITEMS) && WrittenSoFar(start, c, boxes)
    ensures itemCount == Min(|c.bboxes| + |c.texts|, MAX_ITEMS) && WrittenSoFar(payload, c, itemCount)
  {
    var textCount := Min(|c.texts|, MAX_ITEMS);
    payload, itemCount := start, boxes;
    var i := 0;
    while i < textCount && itemCount < 255
      invariant itemCount == boxes + i && i <= textCount
      invariant WrittenSoFar(payload, c, itemCount)
    {
      assert boxes == |c.bboxes|;
      TextIsNext(payload, c, i);
      payload := AppendMspTextOsdItem(payload, c.texts[i]);
      itemCount := itemCount + 1;
      i := i + 1;
    }
  }

  ghost predicate WrittenSoFar(payload: seq<Byte>, c: Context, n: nat) {
    n <= |KeptItems(c)| && payload == Written(KeptItems(c), n)
  }

  /** The payload once n items are written and the count is still zero. */
  ghost function Written(items: seq<Item>, n: nat): (r: seq<Byte>)
    requires n <= |items| && forall k :: 0 <= k < |items| ==> Fits(items[k])
    ensures |r| >= 20
  {
    Header(0) + ItemsBytes(items[..n])
  }

  lemma NothingWrittenYet(c: Context)
    ensures WrittenSoFar(Header(0), c, 0)
  {
    assert KeptItems(c)[..0] == [];
  }

  lemma {:induction false} CountFilledIn(items: seq<Item>, count: Byte)
    requires count == |items| && forall k :: 0 <= k < |items| ==> Fits(items[k])
    ensures Written(items, count)[19 := count] == Header(count) + ItemsBytes(items)
  {
    assert items[..count] == items;
    UpdateInFront(SEI_UUID + [1] + [0] + [0], 0, count, ItemsBytes(items));
  }

  lemma UpdateInFront(front: seq<Byte>, was: Byte, now: Byte, back: seq<Byte>)
    ensures (front + [was] + back)[|front| := now] == front + [now] + back
  {
  }

  lemma BboxIsNext(payload: seq<Byte>, c: Context, k: nat)
    requires k < |c.bboxes| && k < MAX_ITEMS && WrittenSoFar(payload, c, k)
    ensures WrittenSoFar(payload + ItemBytes(BboxOf(c.bboxes[k])), c, k + 1)
  {
    AppendsNext(payload, KeptItems(c), k, BboxOf(c.bboxes[k]));
  }

  lemma KeptText(c: Context, k: nat)
    requires k < |c.texts| && |c.bboxes| + k < MAX_ITEMS
    ensures |c.bboxes| + k < |KeptItems(c)| && KeptItems(c)[|c.bboxes| + k] == TextOf(c.texts[k])
  {
  }

  lemma TextIsNext(payload: seq<Byte>, c: Context, k: nat)
    requires k < |c.texts| && |c.bboxes| + k < MAX_ITEMS && WrittenSoFar(payload, c, |c.bboxes| + k)
    ensures WrittenSoFar(payload + ItemBytes(TextOf(c.texts[k])), c, |c.bboxes| + k + 1)
  {
    KeptText(c, k);
    AppendsNext(payload, KeptItems(c), |c.bboxes| + k, TextOf(c.texts[k]));
  }

  lemma AppendsNext(payload: seq<Byte>, items: seq<Item>, n: nat, next: Item)
    requires forall k :: 0 <= k < |items| ==> Fits(items[k])
    requires n < |items| && items[n] == next && payload == Written(items, n)
    ensures payload + ItemBytes(next) == Written(items, n + 1)
  {
    AppendsOneMore(Header(0), items, n);
  }

  lemma PrefixGrows(items: seq<Item>, n: nat)
    requires n < |items|
    ensures items[..n + 1][..n] == items[..n] && items[..n + 1][n] == items[n]
  {
  }

  lemma BytesOfPrefix(items: seq<Item>, n: nat)
    requires n < |items| && forall k :: 0 <= k < |items| ==> Fits(items[k])
    ensures ItemsBytes(items[..n + 1]) == ItemsBytes(items[..n]) + ItemBytes(items[n])
  {
    PrefixGrows(items, n);
  }

  lemma AppendsOneMore(start: seq<Byte>, items: seq<Item>, n: nat)
    requires n < |items| && forall k :: 0 <= k < |items| ==> Fits(items[k])
    ensures start + ItemsBytes(items[..n]) + ItemBytes(items[n]) == start + ItemsBytes(items[..n + 1])
  {
    BytesOfPrefix(items, n);
    Associative(start, ItemsBytes(items[..n]), ItemBytes(items[n]));
  }

  // ---------------------------------------------------------------------------------------------
  // A receiver (section 4.4.8)
  // ---------------------------------------------------------------------------------------------

  function U16At(s: seq<Byte>, k: nat): U16
    requires k + 2 <= |s|
  {
    FromBe16([s[k], s[k + 1]])
  }

  function U32At(s: seq<Byte>, k: nat): U32
    requires k + 4 <= |s|
  {
    FromBe32([s[k], s[k + 1], s[k + 2], s[k + 3]])
  }

  function ReadBbox(p: seq<Byte>): Option<Item> {
    if |p| < BBOX_FIXED || |p| != BBOX_FIXED + p[2] then None
    else Some(Bbox(U16At(p, 0), p[3], U16At(p, 4), U16At(p, 6), U16At(p, 8), U16At(p, 10), U16At(p, 12), U32At(p, 14),
                   p[BBOX_FIXED..]))
  }

  function ReadText(p: seq<Byte>): Option<Item> {
    if |p| < TEXT_FIXED || |p| != TEXT_FIXED + p[10] then None
    else Some(Text(p[0], p[1], U16At(p, 2), U16At(p, 4), U16At(p, 6), U16At(p, 8), p[11], U32At(p, 12), U32At(p, 16),
                   p[TEXT_FIXED..]))
  }

  /** `count` items and nothing after them; unknown types are skipped by their size. */
  function ReadItems(s: seq<Byte>, count: nat): Option<seq<Item>>
    decreases count
  {
    if count == 0 then if s == [] then Some([]) else None
    else if |s| < 2 || |s| - 2 < s[1] then None
    else
      var size: int := s[1];
      var body, rest := s[2..2 + size], ReadItems(s[2 + size..], count - 1);
      if rest.None? then None
      else if s[0] == 1 then
        var i := ReadBbox(body); if i.None? then None else Some([i.value] + rest.value)
      else if s[0] == 2 then
        var i := ReadText(body); if i.None? then None else Some([i.value] + rest.value)
      else rest
  }

  /** A user_data_unregistered payload: UUID, then version 1, two reserved bytes and the item count. */
  function ReadPayload(s: seq<Byte>): Option<seq<Item>> {
    if |s| < 20 || s[..16] != SEI_UUID || s[16] != 1 then None else ReadItems(s[20..], s[19])
  }

  /** The fixed fields of a bbox payload are where the struct of section 4.4.4 puts them. */
  lemma ReadsBboxHead(i: Item)
    requires i.Bbox? && Fits(i)
    ensures var h := ItemHead(i);
      && U16At(h, 0) == i.id && h[2] == |i.name| && h[3] == i.confidence
      && U16At(h, 4) == i.cx && U16At(h, 6) == i.cy && U16At(h, 8) == i.w && U16At(h, 10) == i.h
      && U16At(h, 12) == i.angle && U32At(h, 14) == i.distance
  {
    BeRoundTrip(i.id, i.distance);
    BeRoundTrip(i.cx, i.distance);
    BeRoundTrip(i.cy, i.distance);
    BeRoundTrip(i.w, i.distance);
    BeRoundTrip(i.h, i.distance);
    BeRoundTrip(i.angle, i.distance);
  }

  /** Likewise for a text payload and section 4.4.5. */
  lemma ReadsTextHead(i: Item)
    requires i.Text? && Fits(i)
    ensures var h := ItemHead(i);
      && h[0] == i.flags && h[1] == i.style && U16At(h, 2) == i.x && U16At(h, 4) == i.y && U16At(h, 6) == i.tw
      && U16At(h, 8) == i.th && h[10] == |i.text| && h[11] == i.reserved
      && U32At(h, 12) == i.textColor && U32At(h, 16) == i.bgColor
  {
    BeRoundTrip(i.x, i.textColor);
    BeRoundTrip(i.y, i.bgColor);
    BeRoundTrip(i.tw, i.textColor);
    BeRoundTrip(i.th, i.bgColor);
  }

  lemma ReadsBody(i: Item)
    requires Fits(i)
    ensures i.Bbox? ==> ReadBbox(ItemHead(i) + ItemTail(i)) == Some(i)
    ensures i.Text? ==> ReadText(ItemHead(i) + ItemTail(i)) == Some(i)
  {
    if i.Bbox? { ReadsBboxHead(i); } else { ReadsTextHead(i); }
    var p := ItemHead(i) + ItemTail(i);
    assert p[|ItemHead(i)|..] == ItemTail(i);
  }

  lemma ReadsOneItem(i: Item, rest: seq<Byte>, count: nat)
    requires Fits(i) && ReadItems(rest, count).Some?
    ensures ReadItems(ItemBytes(i) + rest, count + 1) == Some([i] + ReadItems(rest, count).value)
  {
    var s, body := ItemBytes(i) + rest, ItemHead(i) + ItemTail(i);
    assert s[0] == ItemType(i) && s[1] == ItemSize(i);
    assert s[2..2 + ItemSize(i)] == body;
    assert s[2 + ItemSize(i)..] == rest;
    ReadsBody(i);
  }

  lemma {:induction false} ReadsItems(items: seq<Item>)
    requires forall k :: 0 <= k < |items| ==> Fits(items[k])
    ensures ReadItems(ItemsBytes(items), |items|) == Some(items)
  {
    if items != [] {
      ReadsItems(items[1..]);
      ItemsBytesFront(items);
      ReadsOneItem(items[0], ItemsBytes(items[1..]), |items| - 1);
      assert items == [items[0]] + items[1..];
    }
  }

  /** The items between the first and the last one. */
  lemma MiddleItems(items: seq<Item>)
    requires |items| > 1
    ensures var n := |items| - 1; items[..n][1..] == items[1..][..n - 1] && items[1..][n - 1] == items[n]
  {
  }

  lemma {:induction false} ItemsBytesFront(items: seq<Item>)
    requires items != [] && forall k :: 0 <= k < |items| ==> Fits(items[k])
    ensures ItemsBytes(items) == ItemBytes(items[0]) + ItemsBytes(items[1..])
  {
    var n := |items| - 1;
    if n == 0 {
      assert ItemsBytes(items[..0]) == [] && items[1..] == [];
      assert [] + ItemBytes(items[0]) == ItemBytes(items[0]) == ItemBytes(items[0]) + [];
    } else {
      MiddleItems(items);
      ItemsBytesFront(items[..n]);
      Associative(ItemBytes(items[0]), ItemsBytes(items[..n][1..]), ItemBytes(items[n]));
    }
  }

  function SizeOfItems(items: seq<Item>): nat {
    if items == [] then 0 else 2 + ItemSize(items[0]) + SizeOfItems(items[1..])
  }

  lemma {:induction false} SizesAddUp(items: seq<Item>)
    requires forall k :: 0 <= k < |items| ==> Fits(items[k])
    ensures |ItemsBytes(items)| == SizeOfItems(items)
  {
    if items != [] {
      ItemsBytesFront(items);
      SizesAddUp(items[1..]);
    }
  }

  function Payload(c: Context): seq<Byte> {
    Header(|KeptItems(c)|) + ItemsBytes(KeptItems(c))
  }

  /** A receiver that checks all of section 4.4.8 reads exactly the items that were kept, with nothing left
      over, and the length is the one section 4.4.7 computes. */
  lemma PayloadReadsBack(c: Context)
    ensures ReadPayload(Payload(c)) == Some(KeptItems(c))
    ensures |Payload(c)| == 20 + SizeOfItems(KeptItems(c))
  {
    var items := KeptItems(c);
    ReadsItems(items);
    SizesAddUp(items);
    HeaderReads(|items|, ItemsBytes(items));
  }

  lemma {:induction false} HeaderReads(count: Byte, rest: seq<Byte>)
    ensures ReadPayload(Header(count) + rest) == ReadItems(rest, count)
  {
    var s := Header(count) + rest;
    assert s[20..] == rest && s[16] == 1 && s[19] == count;
    assert s[..16] == SEI_UUID;
  }

  function SeenAs(i: Item): DetectionObject
    requires i.Bbox?
  {
    DetectionObject(i.id, i.name, i.confidence as real / 255.0, i.cx as real / 65535.0, i.cy as real / 65535.0,
                    i.w as real / 65535.0, i.h as real / 65535.0, AngleFromU16(i.angle))
  }

  function SeenText(i: Item): TextOsd
    requires i.Text?
  {
    TextOsd(i.flags, i.style, i.x as real / 65535.0, i.y as real / 65535.0, i.tw as real / 65535.0,
            i.th as real / 65535.0, i.text, i.reserved, i.textColor, i.bgColor)
  }

  /** What a receiver makes of the k-th text, if there is room for it after the boxes. */
  lemma ReceiverSeesTheText(c: Context, k: nat)
    requires k < |c.texts| && |c.bboxes| + k < 255
    ensures var t := c.texts[k];
      var items := ReadPayload(Payload(c));
      && items.Some? && |c.bboxes| + k < |items.value| && items.value[|c.bboxes| + k].Text?
      && var seen := SeenText(items.value[|c.bboxes| + k]);
      && seen.flags == t.flags && seen.style == t.style && seen.reserved == t.reserved
      && seen.textColor == t.textColor && seen.bgColor == t.bgColor && seen.text == Cut(t.text, 235)
      && Distance(seen.x, Clamp(t.x)) <= 0.5 / 65535.0 && Distance(seen.y, Clamp(t.y)) <= 0.5 / 65535.0
      && Distance(seen.width, Clamp(t.width)) <= 0.5 / 65535.0 && Distance(seen.height, Clamp(t.height)) <= 0.5 / 65535.0
  {
    var t := c.texts[k];
    PayloadReadsBack(c);
    assert KeptItems(c)[|c.bboxes| + k] == TextOf(t);
    UnitCodesAreFaithful(t.x, 0, 0);
    UnitCodesAreFaithful(t.y, 0, 0);
    UnitCodesAreFaithful(t.width, 0, 0);
    UnitCodesAreFaithful(t.height, 0, 0);
  }

  /** What a receiver makes of the k-th detection: each field within half a quantization step. */
  lemma ReceiverSeesTheBox(c: Context, k: nat)
    requires k < |c.bboxes| && k < 255
    ensures var o := c.bboxes[k];
      var items := ReadPayload(Payload(c));
      && items.Some? && k < |items.value| && items.value[k].Bbox? && items.value[k].distance == 0
      && var seen := SeenAs(items.value[k]);
      && seen.objectId == Min(o.objectId, 65535)
      && (o.className != [] ==> seen.className == Cut(o.className, 237))
      && (o.className == [] ==> seen.className == [0x75, 0x6E, 0x6B, 0x6E, 0x6F, 0x77, 0x6E])
      && Distance(seen.confidence, Clamp(o.confidence)) <= 0.5 / 255.0
      && Distance(seen.cx, Clamp(o.cx)) <= 0.5 / 65535.0 && Distance(seen.cy, Clamp(o.cy)) <= 0.5 / 65535.0
      && Distance(seen.width, Clamp(o.width)) <= 0.5 / 65535.0 && Distance(seen.height, Clamp(o.height)) <= 0.5 / 65535.0
      && Distance(seen.angle, Normalize(o.angle)) <= 180.0 / 65535.0
  {
    var o := c.bboxes[k];
    PayloadReadsBack(c);
    assert KeptItems(c)[k] == BboxOf(o);
    UnitCodesAreFaithful(o.confidence, 0, 0);
    UnitCodesAreFaithful(o.cx, 0, 0);
    UnitCodesAreFaithful(o.cy, 0, 0);
    UnitCodesAreFaithful(o.width, 0, 0);
    UnitCodesAreFaithful(o.height, 0, 0);
    AngleCodesAreFaithful(o.angle, 0);
  }

  /** The payload begins with the MSP UUID of section 4.3, version 1, two reserved zero bytes and the number of items,
      which is that of boxes and texts together up to 255. */
  lemma PayloadBegins(c: Context)
    ensures |Payload(c)| >= 20
    ensures Payload(c)[..16]
      == [0x4D, 0x45, 0x54, 0x41, 0x44, 0x41, 0x54, 0x41, 0x53, 0x45, 0x49, 0x42, 0x59, 0x43, 0x48, 0x42]
    ensures Payload(c)[16] == 1 && Payload(c)[17] == 0 && Payload(c)[18] == 0
    ensures var n := |c.bboxes| + |c.texts|; Payload(c)[19] == |KeptItems(c)| == if n <= 255 then n else 255
  {
  }

  /** A message has something to say exactly when there is a box or a text. */
  lemma KeepsSomethingIff(c: Context)
    ensures KeptItems(c) != [] <==> |c.bboxes| + |c.texts| > 0
  {
  }
}
