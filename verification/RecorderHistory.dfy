/** What the recorder's caches and files mean in terms of everything that was appended (src/stream/Recorder.cpp).
    Media data and its timestamps are carried along untouched. */
module RecorderHistory {
  import opened Common

  datatype AvPacket = AvPacket(streamIndex: int, keyFlag: bool, data: seq<int>)

  /** A track; `codec` stands for the parameters sameStreamSpecs compares. */
  datatype StreamSpec = StreamSpec(video: bool, inputIndex: int, codec: string, fps: int)

  predicate IsVideoOf(specs: seq<StreamSpec>, packet: AvPacket) {
    exists k :: 0 <= k < |specs| && specs[k].inputIndex == packet.streamIndex && specs[k].video
      && forall j :: 0 <= j < k ==> specs[j].inputIndex != packet.streamIndex
  }

  predicate IsFirstWith(specs: seq<StreamSpec>, k: nat, index: int)
    requires k < |specs|
  {
    specs[k].inputIndex == index && forall j :: 0 <= j < k ==> specs[j].inputIndex != index
  }

  predicate NoVideoHas(specs: seq<StreamSpec>, index: int) {
    forall k :: 0 <= k < |specs| && specs[k].inputIndex == index ==> !specs[k].video
  }

  predicate OnlyVideoHas(specs: seq<StreamSpec>, index: int) {
    && (exists k :: 0 <= k < |specs| && specs[k].inputIndex == index)
    && (forall k :: 0 <= k < |specs| && specs[k].inputIndex == index ==> specs[k].video)
  }

  /** The first track with the packet's index decides. When the tracks have different indices, as they do in one input,
      it is a video packet exactly when some video track has its index. */
  lemma IsVideoMeans(specs: seq<StreamSpec>, packet: AvPacket)
    ensures forall k :: 0 <= k < |specs| && IsFirstWith(specs, k, packet.streamIndex) ==>
      (IsVideoOf(specs, packet) <==> specs[k].video)
    ensures NoVideoHas(specs, packet.streamIndex) ==> !IsVideoOf(specs, packet)
    ensures (forall j, k :: 0 <= j < k < |specs| ==> specs[j].inputIndex != specs[k].inputIndex) ==>
      (IsVideoOf(specs, packet) <==> exists k :: 0 <= k < |specs| && specs[k].video && specs[k].inputIndex == packet.streamIndex)
  {
  }

  lemma FirstTrack(specs: seq<StreamSpec>, index: int) returns (k: nat)
    requires exists i :: 0 <= i < |specs| && specs[i].inputIndex == index
    ensures k < |specs| && IsFirstWith(specs, k, index)
  {
    k := 0;
    while specs[k].inputIndex != index
      invariant k < |specs| && forall j :: 0 <= j < k ==> specs[j].inputIndex != index
      decreases |specs| - k
    {
      k := k + 1;
    }
  }

  lemma OnlyVideoIsVideo(specs: seq<StreamSpec>, packet: AvPacket)
    requires OnlyVideoHas(specs, packet.streamIndex)
    ensures IsVideoOf(specs, packet)
  {
    var k := FirstTrack(specs, packet.streamIndex);
    assert specs[k].video;
  }

  /** One appended packet, the tracks configured then, whether it was a video keyframe, and whether the copy for the
      cache succeeded. */
  datatype Entry = Entry(packet: AvPacket, tracks: seq<StreamSpec>, key: bool, cloned: bool)

  function EntryOf(packet: AvPacket, tracks: seq<StreamSpec>, cloned: bool): Entry {
    Entry(packet, tracks, IsVideoOf(tracks, packet) && packet.keyFlag, cloned)
  }

  predicate Truthful(e: Entry) { e == EntryOf(e.packet, e.tracks, e.cloned) }

  predicate AllTruthful(h: seq<Entry>) { forall i :: 0 <= i < |h| ==> Truthful(h[i]) }

  function Packets(h: seq<Entry>): (r: seq<AvPacket>)
    ensures |r| == |h| && forall i :: 0 <= i < |h| ==> r[i] == h[i].packet
  {
    seq(|h|, i requires 0 <= i < |h| => h[i].packet)
  }

  /** The packets whose copy succeeded. */
  function Cloned(h: seq<Entry>): (r: seq<AvPacket>)
    ensures |r| <= |h|
  {
    if h == [] then []
    else Cloned(h[..|h| - 1]) + (if h[|h| - 1].cloned then [h[|h| - 1].packet] else [])
  }

  /** The position of the last keyframe, or |h|. */
  function LastKey(h: seq<Entry>): (k: nat)
    ensures k <= |h|
  {
    if h == [] then 0
    else if h[|h| - 1].key then |h| - 1
    else
      var k := LastKey(h[..|h| - 1]);
      if k == |h| - 1 then |h| else k
  }

  lemma {:induction false} LastKeyIsLast(h: seq<Entry>)
    ensures LastKey(h) < |h| ==> h[LastKey(h)].key
    ensures forall j :: 0 <= j < |h| && (j > LastKey(h) || LastKey(h) == |h|) ==> !h[j].key
  {
    if h != [] { LastKeyIsLast(h[..|h| - 1]); }
  }

  /** What the GOP cache holds after history h: from the last keyframe on what could be copied, nothing if
      the keyframe itself could not. */
  function Gop(h: seq<Entry>): seq<AvPacket> {
    var k := LastKey(h);
    if k == |h| || !h[k].cloned then [] else Cloned(h[k..])
  }

  lemma {:induction false} ClonedOneMore(h: seq<Entry>, e: Entry)
    ensures Cloned(h + [e]) == Cloned(h) + (if e.cloned then [e.packet] else [])
  {
    assert (h + [e])[..|h|] == h;
  }

  lemma {:induction false} ClonedFirst(h: seq<Entry>)
    requires h != [] && h[0].cloned
    ensures Cloned(h) != []
  {
    if |h| > 1 {
      ClonedFirst(h[..|h| - 1]);
    }
  }

  /** The cache grows one packet at a time, as cachePacket computes it. */
  lemma GopOneMore(h: seq<Entry>, e: Entry)
    ensures Gop(h + [e]) ==
      if e.key then if e.cloned then [e.packet] else []
      else if Gop(h) == [] then []
      else Gop(h) + (if e.cloned then [e.packet] else [])
  {
    var more, k := h + [e], LastKey(h);
    LastKeyOneMore(h, e);
    if e.key {
      assert more[|h|..] == [] + [e];
      ClonedOneMore([], e);
    } else if k < |h| {
      assert more[k..] == h[k..] + [e];
      ClonedOneMore(h[k..], e);
      if h[k].cloned { ClonedFirst(h[k..]); }
    }
  }

  /** A flagged packet of a video track starts the cache anew if it can be copied; a packet that is not flagged, or whose
      tracks are none of them video, leaves it or is added to it. */
  lemma CachingMeans(h: seq<Entry>, e: Entry)
    requires Truthful(e)
    ensures e.packet.keyFlag && e.cloned && OnlyVideoHas(e.tracks, e.packet.streamIndex) ==> Gop(h + [e]) == [e.packet]
    ensures !e.packet.keyFlag || NoVideoHas(e.tracks, e.packet.streamIndex) ==>
      Gop(h + [e]) == Gop(h) || (Gop(h) != [] && Gop(h + [e]) == Gop(h) + [e.packet])
  {
    GopOneMore(h, e);
    IsVideoMeans(e.tracks, e.packet);
    if OnlyVideoHas(e.tracks, e.packet.streamIndex) { OnlyVideoIsVideo(e.tracks, e.packet); }
  }

  /** The same for the cache of an epoch that began at b. */
  lemma CacheStep(h: seq<Entry>, b: nat, e: Entry)
    requires b <= |h| && AllTruthful(h) && Truthful(e)
    ensures AllTruthful(h + [e])
    ensures var before, after := Gop(h[b..]), Gop((h + [e])[b..]);
      && after == (if e.key then if e.cloned then [e.packet] else []
                  else if before == [] then []
                  else before + (if e.cloned then [e.packet] else []))
      && (e.packet.keyFlag && e.cloned && OnlyVideoHas(e.tracks, e.packet.streamIndex) ==> after == [e.packet])
      && (!e.packet.keyFlag || NoVideoHas(e.tracks, e.packet.streamIndex) ==>
            after == before || (before != [] && after == before + [e.packet]))
  {
    assert (h + [e])[b..] == h[b..] + [e];
    GopOneMore(h[b..], e);
    CachingMeans(h[b..], e);
  }

  lemma {:induction false} LastKeyOneMore(h: seq<Entry>, e: Entry)
    ensures LastKey(h + [e]) == if e.key then |h| else if LastKey(h) == |h| then |h| + 1 else LastKey(h)
  {
    assert (h + [e])[..|h|] == h;
  }

  lemma {:induction false} ClonedIsAllIff(h: seq<Entry>)
    ensures Cloned(h) == Packets(h) <==> forall i :: 0 <= i < |h| ==> h[i].cloned
    ensures |Cloned(h)| == |h| <==> forall i :: 0 <= i < |h| ==> h[i].cloned
  {
    if h != [] {
      var n := |h| - 1;
      ClonedIsAllIff(h[..n]);
      assert Packets(h) == Packets(h[..n]) + [h[n].packet];
      if forall i :: 0 <= i < |h| ==> h[i].cloned {
        assert forall i :: 0 <= i < n ==> h[..n][i].cloned;
      } else if h[n].cloned {
        assert exists i :: 0 <= i < n && !h[..n][i].cloned;
      }
    }
  }

  /** The cache is the whole current GOP if and only if no copy failed since its keyframe. */
  lemma {:induction false} GopIsWholeIff(h: seq<Entry>)
    requires LastKey(h) < |h|
    ensures Gop(h) == Packets(h[LastKey(h)..]) <==> forall i :: LastKey(h) <= i < |h| ==> h[i].cloned
  {
    var k := LastKey(h);
    ClonedIsAllIff(h[k..]);
    TailIsClonedIff(h, k);
    assert h[k..][0] == h[k];
  }

  lemma TailIsClonedIff(h: seq<Entry>, k: nat)
    requires k <= |h|
    ensures (forall i :: 0 <= i < |h[k..]| ==> h[k..][i].cloned) <==> forall i :: k <= i < |h| ==> h[i].cloned
  {
    if forall i :: 0 <= i < |h[k..]| ==> h[k..][i].cloned {
      forall i | k <= i < |h| ensures h[i].cloned {
        assert h[k..][i - k] == h[i];
      }
    }
  }

  // ---------------------------------------------------------------------------------------------
  // Files
  // ---------------------------------------------------------------------------------------------

  /** A file and where it comes from: the history position its epoch began at (the last change of
      parameters), where it was opened, and where it ended; `cut` when a write failed while the cache was
      being flushed. */
  datatype File = File(packets: seq<AvPacket>, base: nat, openedAt: nat, end: nat, cut: bool)

  ghost predicate Explained(f: File, h: seq<Entry>) {
    && f.base <= f.openedAt <= f.end <= |h|
    && (if f.cut then f.packets <= Gop(h[f.base..f.openedAt])
        else f.packets == Gop(h[f.base..f.openedAt]) + Packets(h[f.openedAt..f.end]))
  }

  lemma ExplainedLater(f: File, h: seq<Entry>, x: Entry)
    requires Explained(f, h)
    ensures Explained(f, h + [x])
  {
    assert (h + [x])[f.base..f.openedAt] == h[f.base..f.openedAt];
    assert (h + [x])[f.openedAt..f.end] == h[f.openedAt..f.end];
  }

  /** A file just opened: the cache, or what a failing flush got out. */
  lemma JustOpened(f: seq<AvPacket>, h: seq<Entry>, b: nat)
    requires b <= |h| && f <= Gop(h[b..])
    ensures Explained(File(f, b, |h|, |h|, true), h)
    ensures f == Gop(h[b..]) ==> Explained(File(f, b, |h|, |h|, false), h)
  {
    assert h[b..|h|] == h[b..];
  }

  /** The last packet of the history goes into an open file. */
  lemma WrittenLive(f: seq<AvPacket>, h: seq<Entry>, b: nat, m: nat, packet: AvPacket)
    requires h != [] && h[|h| - 1].packet == packet && Explained(File(f, b, m, |h| - 1, false), h)
    ensures Explained(File(f + [packet], b, m, |h|, false), h)
  {
    PacketsOneMore(h, m);
  }

  lemma PacketsOneMore(h: seq<Entry>, m: nat)
    requires m < |h|
    ensures Packets(h[m..|h|]) == Packets(h[m..|h| - 1]) + [h[|h| - 1].packet]
  {
  }

  /** Is s the position of the last keyframe among b to m - 1, or m if there is none? */
  ghost predicate AtLastKey(h: seq<Entry>, b: nat, m: nat, s: nat)
    requires m <= |h|
  {
    && b <= s <= m && (s < m ==> h[s].key)
    && forall i :: b <= i < m && (s < i || s == m) ==> !h[i].key
  }

  lemma GopIsASlice(h: seq<Entry>, b: nat, m: nat) returns (s: nat)
    requires b <= m <= |h| && forall i :: b <= i < m ==> h[i].cloned
    ensures AtLastKey(h, b, m, s) && Gop(h[b..m]) == Packets(h[s..m])
  {
    var epoch := h[b..m];
    assert forall i :: 0 <= i < |epoch| ==> epoch[i] == h[b + i];
    assert forall i :: b <= i < m ==> h[i] == epoch[i - b];
    var k := LastKey(epoch);
    LastKeyIsLast(epoch);
    s := b + k;
    assert epoch[k..] == h[s..m];
    if k < |epoch| {
      GopIsWholeIff(epoch);
    }
  }

  /** While copies succeed every file, finished or being written, is one slice of the append history,
      without a gap or a repetition where the flushed cache meets the live packets: it starts at the last
      keyframe before the file was opened, or where it was opened if there was none. */
  lemma FilesAreSlices(f: File, h: seq<Entry>) returns (s: nat)
    requires Explained(f, h) && forall i :: f.base <= i < f.openedAt ==> h[i].cloned
    ensures AtLastKey(h, f.base, f.openedAt, s)
    ensures s + |f.packets| <= |h| && f.packets == Packets(h[s..s + |f.packets|])
    ensures !f.cut ==> s + |f.packets| == f.end
  {
    s := GopIsASlice(h, f.base, f.openedAt);
    if f.cut {
      SliceIsCut(h, s, f.openedAt, f.packets);
    } else {
      SlicesMeet(h, s, f.openedAt, f.end);
    }
  }

  lemma {:induction false} ClonedBegins(h: seq<Entry>)
    requires h != [] && h[0].cloned
    ensures Cloned(h) != [] && Cloned(h)[0] == h[0].packet
  {
    if |h| > 1 { ClonedBegins(h[..|h| - 1]); } else { assert Cloned(h[..0]) == []; }
  }

  /** Was the packet appended with a video track of that index configured, and flagged as a keyframe? */
  predicate IsVideoKeyframe(e: Entry, packet: AvPacket) {
    && e.packet == packet && packet.keyFlag
    && exists k :: 0 <= k < |e.tracks| && e.tracks[k].video && e.tracks[k].inputIndex == packet.streamIndex
  }

  /** A cache that is not empty begins with a flagged packet of a video track ... */
  lemma CacheBeginsWithAKeyframe(h: seq<Entry>) returns (k: nat)
    requires AllTruthful(h) && Gop(h) != []
    ensures k < |h| && IsVideoKeyframe(h[k], Gop(h)[0])
  {
    k := LastKey(h);
    LastKeyIsLast(h);
    ClonedBegins(h[k..]);
    IsVideoMeans(h[k].tracks, h[k].packet);
    assert IsVideoKeyframe(h[k], Gop(h)[0]);
  }

  /** ... and so does every file that was opened with one. */
  lemma FilesBeginWithAKeyframe(f: File, h: seq<Entry>)
    requires AllTruthful(h) && Explained(f, h) && f.packets != [] && Gop(h[f.base..f.openedAt]) != []
    ensures exists i :: f.base <= i < f.openedAt && IsVideoKeyframe(h[i], f.packets[0])
  {
    EpochIsTruthful(h, f.base, f.openedAt);
    var k := CacheBeginsWithAKeyframe(h[f.base..f.openedAt]);
    assert h[f.base + k] == h[f.base..f.openedAt][k];
    FileBeginsLikeTheCache(f, h);
    assert IsVideoKeyframe(h[f.base + k], f.packets[0]);
  }

  lemma EpochIsTruthful(h: seq<Entry>, b: nat, m: nat)
    requires b <= m <= |h| && AllTruthful(h)
    ensures AllTruthful(h[b..m])
  {
  }

  lemma FileBeginsLikeTheCache(f: File, h: seq<Entry>)
    requires Explained(f, h) && f.packets != [] && Gop(h[f.base..f.openedAt]) != []
    ensures f.packets[0] == Gop(h[f.base..f.openedAt])[0]
  {
  }

  lemma SlicesMeet(h: seq<Entry>, s: nat, m: nat, e: nat)
    requires s <= m <= e <= |h|
    ensures Packets(h[s..m]) + Packets(h[m..e]) == Packets(h[s..e]) && |Packets(h[s..e])| == e - s
  {
  }

  lemma SliceIsCut(h: seq<Entry>, s: nat, m: nat, cut: seq<AvPacket>)
    requires s <= m <= |h| && cut <= Packets(h[s..m])
    ensures |cut| <= m - s && cut == Packets(h[s..s + |cut|])
  {
  }

  // ---------------------------------------------------------------------------------------------
  // Deadlines
  // ---------------------------------------------------------------------------------------------

  datatype Request = Request(durationS: int, nowMs: int)

  const MIN_DURATION_S: int := 10

  /** When a request alone would let the recording end. */
  function Until(r: Request): int { r.nowMs + Max(r.durationS, MIN_DURATION_S) * 1000 }

  /** A request asks for ten seconds at least, and for its own duration. */
  lemma UntilMeans(r: Request)
    ensures Until(r) >= r.nowMs + 10000 && Until(r) >= r.nowMs + 1000 * r.durationS
    ensures Until(r) == r.nowMs + 10000 || Until(r) == r.nowMs + 1000 * r.durationS
  {
  }

  function Deadline(requests: seq<Request>): (d: int)
    ensures d >= 0 && forall r :: r in requests ==> d >= Until(r)
    ensures d > 0 ==> exists r :: r in requests && d == Until(r)
  {
    if requests == [] then 0
    else
      var n := |requests| - 1;
      assert requests == requests[..n] + [requests[n]];
      Max(Deadline(requests[..n]), Until(requests[n]))
  }
}
