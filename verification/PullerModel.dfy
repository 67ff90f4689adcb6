/** How src/stream/RTSPPuller.cpp pairs decoder output with the packets it came from. */
module PullerModel {
  import opened Common
  import opened StreamTypes

  const AV_NOPTS_VALUE: int := -0x8000_0000_0000_0000

  /** What the puller remembers of a submitted video packet until its frame comes back. */
  datatype PendingMeta = PendingMeta(frameId: int, pts: int, dts: int)

  /** A frame the decoder hands back; hasImage is false when its image could not be built. */
  datatype Decoded = Decoded(pts: int, dts: int, hasImage: bool)

  function IndexOfPts(pending: seq<PendingMeta>, pts: int): (r: Option<nat>)
    ensures r.Some? ==> r.value < |pending| && pending[r.value].pts == pts
                        && forall i :: 0 <= i < r.value ==> pending[i].pts != pts
    ensures r.None? ==> forall i :: 0 <= i < |pending| ==> pending[i].pts != pts
  {
    if pending == [] then None
    else if pending[0].pts == pts then Some(0)
    else match IndexOfPts(pending[1..], pts) case None => None case Some(i) => Some(i + 1)
  }

  function IndexOfDts(pending: seq<PendingMeta>, dts: int): (r: Option<nat>)
    ensures r.Some? ==> r.value < |pending| && pending[r.value].dts == dts
                        && forall i :: 0 <= i < r.value ==> pending[i].dts != dts
    ensures r.None? ==> forall i :: 0 <= i < |pending| ==> pending[i].dts != dts
  {
    if pending == [] then None
    else if pending[0].dts == dts then Some(0)
    else match IndexOfDts(pending[1..], dts) case None => None case Some(i) => Some(i + 1)
  }

  predicate SamePts(m: PendingMeta, d: Decoded) { d.pts != AV_NOPTS_VALUE && m.pts == d.pts }

  predicate SameDts(m: PendingMeta, d: Decoded) { d.dts != AV_NOPTS_VALUE && m.dts == d.dts }

  predicate HasPts(pending: seq<PendingMeta>, d: Decoded) {
    exists i :: 0 <= i < |pending| && SamePts(pending[i], d)
  }

  predicate HasDts(pending: seq<PendingMeta>, d: Decoded) {
    exists i :: 0 <= i < |pending| && SameDts(pending[i], d)
  }

  /** The first pending packet with the frame's pts if any has it, else the first with its dts, else, when
      the frame carries neither, the oldest. */
  function MatchIndex(pending: seq<PendingMeta>, d: Decoded): (r: Option<nat>)
    ensures r.Some? ==> r.value < |pending|
    ensures HasPts(pending, d) ==>
      r.Some? && SamePts(pending[r.value], d) && forall i :: 0 <= i < r.value ==> !SamePts(pending[i], d)
    ensures !HasPts(pending, d) && HasDts(pending, d) ==>
      r.Some? && SameDts(pending[r.value], d) && forall i :: 0 <= i < r.value ==> !SameDts(pending[i], d)
    ensures !HasPts(pending, d) && !HasDts(pending, d) ==>
      r == if d.pts == AV_NOPTS_VALUE && d.dts == AV_NOPTS_VALUE && pending != [] then Some(0) else None
  {
    var byPts := if d.pts != AV_NOPTS_VALUE then IndexOfPts(pending, d.pts) else None;
    var byDts := if byPts.None? && d.dts != AV_NOPTS_VALUE then IndexOfDts(pending, d.dts) else None;
    if byPts.Some? then byPts
    else if byDts.Some? then byDts
    else if d.pts == AV_NOPTS_VALUE && d.dts == AV_NOPTS_VALUE && pending != [] then Some(0)
    else None
  }

  function Bundle(meta: PendingMeta, decoded: bool): Frame { Frame(meta.frameId, meta.pts, decoded, Idle) }

  /** The bundles enqueued for one decoded frame: a placeholder per skipped packet, then the frame. */
  function Deliveries(pending: seq<PendingMeta>, d: Decoded): (r: seq<Frame>)
    ensures MatchIndex(pending, d).None? ==> r == []
    ensures MatchIndex(pending, d).Some? ==>
      |r| == MatchIndex(pending, d).value + 1
      && forall i :: 0 <= i < |r| ==> r[i] == Bundle(pending[i], i == |r| - 1 && d.hasImage)
  {
    match MatchIndex(pending, d)
    case None => []
    case Some(k) => seq(k + 1, i requires 0 <= i <= k => Bundle(pending[i], i == k && d.hasImage))
  }

  function Remaining(pending: seq<PendingMeta>, d: Decoded): seq<PendingMeta> {
    match MatchIndex(pending, d) case None => pending case Some(k) => pending[k + 1..]
  }

  function MetaIds(pending: seq<PendingMeta>): (r: seq<int>)
    ensures |r| == |pending| && forall i :: 0 <= i < |r| ==> r[i] == pending[i].frameId
  {
    seq(|pending|, i requires 0 <= i < |pending| => pending[i].frameId)
  }

  function FrameIds(frames: seq<Frame>): (r: seq<int>)
    ensures |r| == |frames| && forall i :: 0 <= i < |r| ==> r[i] == frames[i].frameId
  {
    seq(|frames|, i requires 0 <= i < |frames| => frames[i].frameId)
  }

  lemma DeliveredIds(pending: seq<PendingMeta>, d: Decoded)
    ensures FrameIds(Deliveries(pending, d)) == MetaIds(pending)[..|Deliveries(pending, d)|]
  {
  }

  lemma RemainingIds(pending: seq<PendingMeta>, d: Decoded)
    ensures MetaIds(Remaining(pending, d)) == MetaIds(pending)[|Deliveries(pending, d)|..]
  {
  }

  /** Matching never invents, loses or reorders an id: deliveries followed by what stays pending are
      the ids that were pending. At most the last delivery carries an image. */
  lemma DeliveriesConserveIds(pending: seq<PendingMeta>, d: Decoded)
    ensures FrameIds(Deliveries(pending, d)) + MetaIds(Remaining(pending, d)) == MetaIds(pending)
    ensures forall i :: 0 <= i < |Deliveries(pending, d)| - 1 ==> !Deliveries(pending, d)[i].decoded
  {
    DeliveredIds(pending, d);
    RemainingIds(pending, d);
  }

  /** Each bundle says the id and timestamp of the packet it was made for, waits to be selected, and only the last one
      has an image, if the decoder's frame has. */
  lemma DeliveredBundles(pending: seq<PendingMeta>, d: Decoded, i: nat)
    requires i < |Deliveries(pending, d)|
    ensures var f := Deliveries(pending, d)[i];
      && i < |pending| && f.frameId == pending[i].frameId && f.pts == pending[i].pts && f.state == Idle
      && (f.decoded <==> i == |Deliveries(pending, d)| - 1 && d.hasImage)
  {
  }

  /** Timestamps of the value that says "none" (the smallest 64-bit integer) match nobody: without any, the frame is
      taken for the oldest pending packet. */
  lemma NoTimestampsMeanTheOldest(pending: seq<PendingMeta>, hasImage: bool)
    requires pending != []
    ensures var d := Decoded(-9223372036854775808, -9223372036854775808, hasImage);
      |Deliveries(pending, d)| == 1 && Remaining(pending, d) == pending[1..]
  {
  }

  /** With a timestamp that some pending packet has, the frame is taken for the first such packet. */
  lemma TimestampsMatch(pending: seq<PendingMeta>, d: Decoded, k: nat)
    requires k < |pending| && d.pts != -9223372036854775808 && pending[k].pts == d.pts
    requires forall i :: 0 <= i < k ==> pending[i].pts != d.pts
    ensures |Deliveries(pending, d)| == k + 1 && Remaining(pending, d) == pending[k + 1..]
  {
    assert SamePts(pending[k], d);
  }
}
