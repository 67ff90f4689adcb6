/** The class Recorder of src/stream/Recorder.cpp. The open file is the sequence of packets written to it;
    whether opening, copying or writing succeeds is an input. Ghost fields log what happened, so that Valid()
    can say what cache, file and deadline mean. */
module RecorderClass {
  import opened Common
  import opened RecorderHistory

  predicate HasVideo(specs: seq<StreamSpec>) { exists k :: 0 <= k < |specs| && specs[k].video }

  function Normalized(specs: seq<StreamSpec>): (r: seq<StreamSpec>)
    ensures |r| == |specs|
    ensures forall k :: 0 <= k < |r| ==> r[k].(fps := specs[k].fps) == specs[k] && (r[k].video ==> r[k].fps > 0)
  {
    seq(|specs|, k requires 0 <= k < |specs| =>
      if specs[k].video && specs[k].fps <= 0 then specs[k].(fps := 25) else specs[k])
  }

  /** sameStreamSpecs: the frame rate does not take part. */
  predicate SameSpecs(a: seq<StreamSpec>, b: seq<StreamSpec>) {
    && |a| == |b|
    && forall k :: 0 <= k < |a| ==>
         a[k].video == b[k].video && a[k].inputIndex == b[k].inputIndex && a[k].codec == b[k].codec
  }

  /** They are the same when they differ in the frame rates only. */
  lemma SameSpecsMeans(a: seq<StreamSpec>, b: seq<StreamSpec>)
    ensures SameSpecs(a, b) <==> |a| == |b| && forall k :: 0 <= k < |a| ==> a[k].(fps := b[k].fps) == b[k]
  {
  }

  /** Does every cached packet belong to a known track and get written? */
  predicate Flushable(cache: seq<AvPacket>, indices: set<int>, writable: nat -> bool) {
    forall i :: 0 <= i < |cache| ==> cache[i].streamIndex in indices && writable(i)
  }

  function Indices(specs: seq<StreamSpec>): (r: set<int>)
    ensures forall i :: i in r <==> exists k :: 0 <= k < |specs| && specs[k].inputIndex == i
  {
    assert forall k :: 0 <= k < |specs| ==> specs[k] in specs;
    set s | s in specs :: s.inputIndex
  }

  class Recorder {
    var streamId: string
    var baseDir: string
    var specs: seq<StreamSpec>
    var deadlineMs: int
    var file: Option<seq<AvPacket>>
    var streamStates: set<int>
    var gopCache: seq<AvPacket>

    /** Everything appended; where the current parameters took effect; where the file was opened. */
    ghost var hist: seq<Entry>
    ghost var base: nat
    ghost var openedAt: nat
    /** The requests accepted since the last close, and the files closed so far. */
    ghost var requests: seq<Request>
    ghost var finished: seq<File>

    ghost predicate CacheIsTheGop()
      reads this`base, this`hist, this`gopCache
    {
      base <= |hist| && gopCache == Gop(hist[base..])
    }

    /** The open file holds the GOP cached when it was opened and everything appended from then until `end`. */
    ghost predicate FileIsExplained(end: nat)
      reads this`file, this`base, this`openedAt, this`hist, this`streamStates
    {
      if file.Some? then Explained(File(file.value, base, openedAt, end, false), hist) else streamStates == {}
    }

    ghost predicate LogIsExplained()
      reads this`deadlineMs, this`requests, this`finished, this`hist
    {
      deadlineMs == Deadline(requests) && forall k :: 0 <= k < |finished| ==> Explained(finished[k], hist)
    }

    ghost predicate KeysAreTrue()
      reads this`hist
    {
      AllTruthful(hist)
    }

    ghost predicate Valid()
      reads this
    {
      KeysAreTrue() && CacheIsTheGop() && FileIsExplained(|hist|) && LogIsExplained()
    }

    predicate IsConfigured()
      reads this`streamId, this`baseDir
    {
      streamId != "" && baseDir != ""
    }

    constructor ()
      ensures Valid() && hist == [] && file == None && finished == [] && !IsConfigured()
    {
      streamId, baseDir, specs, deadlineMs, file, streamStates, gopCache := "", "", [], 0, None, {}, [];
      hist, base, openedAt, requests, finished := [], 0, 0, [], [];
    }

    /** close(); `end` and `cut` describe the file for the log. */
    method Close(ghost end: nat, ghost cut: bool)
      requires LogIsExplained()
      requires file.Some? ==> Explained(File(file.value, base, openedAt, end, cut), hist)
      modifies this`deadlineMs, this`file, this`streamStates, this`requests, this`finished
      ensures LogIsExplained() && file == None && streamStates == {} && requests == [] && deadlineMs == 0
      ensures finished == old(finished)
        + (if old(file).Some? then [File(old(file).value, base, openedAt, end, cut)] else [])
    {
      requests := [];
      if file.None? {
        deadlineMs := 0;
        streamStates := {};
        return;
      }
      finished := finished + [File(file.value, base, openedAt, end, cut)];
      file := None;
      streamStates := {};
      deadlineMs := 0;
    }

    method StartOver()
      requires Valid()
      modifies this`deadlineMs, this`file, this`streamStates, this`requests, this`finished, this`gopCache, this`base
      ensures Valid() && gopCache == [] && file == None && base == |hist|
    {
      Close(|hist|, false);
      gopCache := [];
      base := |hist|;
    }

    /** New parameters end the file and forget the cache; the same ones change nothing that matters. */
    method Configure(streamId': string, baseDir': string, specs': seq<StreamSpec>) returns (ok: bool)
      requires Valid()
      modifies this
      ensures Valid() && hist == old(hist)
      ensures ok <==> streamId' != "" && baseDir' != "" && exists k :: 0 <= k < |specs'| && specs'[k].video
      ensures !ok ==> unchanged(this)
      ensures ok ==> streamId == streamId' && baseDir == baseDir' && specs == Normalized(specs')
      ensures ok && (old(streamId) != streamId' || old(baseDir) != baseDir' || !SameSpecs(old(specs), Normalized(specs')))
        ==> gopCache == [] && file == None && base == |hist|
      ensures ok && old(streamId) == streamId' && old(baseDir) == baseDir' && SameSpecs(old(specs), Normalized(specs'))
        ==> gopCache == old(gopCache) && file == old(file) && deadlineMs == old(deadlineMs) && base == old(base)
    {
      if streamId' == "" || baseDir' == "" || specs' == [] {
        return false;
      }
      var normalized := Normalized(specs');
      if !HasVideo(specs') {
        return false;
      }
      if streamId != streamId' || baseDir != baseDir' || !SameSpecs(specs, normalized) {
        StartOver();
      }
      streamId, baseDir, specs := streamId', baseDir', normalized;
      return true;
    }

    /** writePacketInternal; `writable` is the success of the copy and of the muxer. */
    method WritePacket(packet: AvPacket, writable: bool) returns (written: bool)
      modifies this`file
      ensures written <==> old(file).Some? && packet.streamIndex in streamStates && writable
      ensures file == if written then Some(old(file).value + [packet]) else old(file)
    {
      if file.None? {
        return false;
      }
      if packet.streamIndex !in streamStates {
        return false;
      }
      if !writable {
        return false;
      }
      file := Some(file.value + [packet]);
      return true;
    }

    /** flushCachedGop; writable(i) is for the i-th cached packet. */
    method FlushCachedGop(writable: nat -> bool) returns (flushed: bool)
      requires file == Some([])
      modifies this`file
      ensures flushed <==> Flushable(gopCache, streamStates, writable)
      ensures flushed <==> forall i :: 0 <= i < |gopCache| ==> gopCache[i].streamIndex in streamStates && writable(i)
      ensures flushed ==> file == Some(gopCache)
      ensures file.Some? && file.value <= gopCache
    {
      for i := 0 to |gopCache|
        invariant file == Some(gopCache[..i])
        invariant forall j :: 0 <= j < i ==> gopCache[j].streamIndex in streamStates && writable(j)
      {
        assert gopCache[..i + 1] == gopCache[..i] + [gopCache[i]];
        var written := WritePacket(gopCache[i], writable(i));
        if !written {
          return false;
        }
      }
      assert gopCache[..|gopCache|] == gopCache;
      return true;
    }

    /** A new file that begins with the cached GOP, or with the part of it that could be written. */
    method OpenAndFlush(writable: nat -> bool) returns (flushed: bool)
      requires CacheIsTheGop() && file.None?
      modifies this`file, this`streamStates, this`openedAt
      ensures flushed <==> Flushable(gopCache, Indices(specs), writable)
      ensures openedAt == |hist| && file.Some? && (flushed ==> file == Some(gopCache))
      ensures Explained(File(file.value, base, openedAt, |hist|, !flushed), hist)
    {
      file, streamStates, openedAt := Some([]), Indices(specs), |hist|;
      flushed := FlushCachedGop(writable);
      JustOpened(file.value, hist, base);
    }

    /** The last part of start(): when flushing fails, what was written ends the file. */
    method StartWithCache(writable: nat -> bool) returns (ok: bool)
      requires Valid() && file.None?
      modifies this`deadlineMs, this`file, this`streamStates, this`requests, this`finished, this`openedAt
      ensures Valid()
      ensures ok <==> Flushable(gopCache, Indices(specs), writable)
      ensures ok ==> file == Some(gopCache) && openedAt == |hist| && requests == old(requests) && finished == old(finished)
      ensures !ok ==> file == None && requests == []
    {
      ok := OpenAndFlush(writable);
      if !ok {
        Close(|hist|, true);
      }
    }

    /** start(); openable is the success of openRecording. */
    method Start(openable: bool, writable: nat -> bool) returns (ok: bool)
      requires Valid()
      modifies this`deadlineMs, this`file, this`streamStates, this`requests, this`finished, this`openedAt
      ensures Valid()
      ensures old(file).Some? ==> ok && unchanged(this)
      ensures old(file).None? && !(IsConfigured() && openable) ==> !ok && unchanged(this)
      ensures old(file).None? && IsConfigured() && openable ==>
        (ok <==> Flushable(gopCache, Indices(specs), writable))
      ensures old(file).None? && ok ==> file == Some(gopCache) && openedAt == |hist|
      ensures ok ==> requests == old(requests) && finished == old(finished)
      ensures !ok ==> file == None && (requests == old(requests) || requests == [])
    {
      if file.Some? {
        return true;
      }
      if !IsConfigured() || !openable {
        return false;
      }
      ok := StartWithCache(writable);
    }

    /** requestRecording: at least ten seconds, never shortening what was asked for before. A file is opened
        with the cached GOP unless one is open already. The deadline moves even when opening fails. */
    method RequestRecording(durationS: int, nowMs: int, openable: bool, writable: nat -> bool) returns (ok: bool)
      requires Valid()
      modifies this`deadlineMs, this`file, this`streamStates, this`requests, this`finished, this`openedAt
      ensures Valid()
      ensures streamId == "" || baseDir == "" ==> !ok && unchanged(this)
      ensures IsConfigured() && old(file).Some? ==> ok && file == old(file)
      ensures ok ==> requests == old(requests) + [Request(durationS, nowMs)] && file.Some?
      ensures ok && old(file).None? ==> file == Some(gopCache) && openedAt == |hist|
      ensures !ok && IsConfigured() ==> file == None
      ensures IsConfigured() && !openable && old(file).None? ==> requests == old(requests) + [Request(durationS, nowMs)]
    {
      if !IsConfigured() {
        return false;
      }
      ExtendDeadline(durationS, nowMs);
      if file.Some? {
        return true;
      }
      ok := Start(openable, writable);
    }

    method ExtendDeadline(durationS: int, nowMs: int)
      requires LogIsExplained()
      modifies this`deadlineMs, this`requests
      ensures LogIsExplained() && requests == old(requests) + [Request(durationS, nowMs)]
      ensures deadlineMs >= old(deadlineMs) && deadlineMs >= nowMs + 10000 && deadlineMs >= nowMs + 1000 * durationS
    {
      var requestedDeadlineMs := nowMs + Max(durationS, MIN_DURATION_S) * 1000;
      deadlineMs := Max(deadlineMs, requestedDeadlineMs);
      requests := requests + [Request(durationS, nowMs)];
      assert requests[..|requests| - 1] == old(requests);
    }

    predicate Expired(nowMs: int)
      reads this`file, this`deadlineMs
    {
      file.Some? && deadlineMs > 0 && nowMs >= deadlineMs
    }

    /** The file is closed when the deadline has passed, which no accepted request forbids. */
    method CloseExpired(nowMs: int)
      requires Valid()
      modifies this`deadlineMs, this`file, this`streamStates, this`requests, this`finished
      ensures Valid()
      ensures old(Expired(nowMs)) ==>
        file == None && requests == [] && forall r :: r in old(requests) ==> nowMs >= Until(r)
      ensures !old(Expired(nowMs)) ==> unchanged(this)
      ensures old(file).Some? && old(deadlineMs) > 0 ==> (file.None? <==> nowMs >= old(deadlineMs))
    {
      if file.Some? && deadlineMs > 0 && nowMs >= deadlineMs {
        Close(|hist|, false);
      }
    }

    /** isVideoPacket: the first track with the packet's index decides. */
    method IsVideoPacket(packet: AvPacket) returns (isVideo: bool)
      ensures isVideo == IsVideoOf(specs, packet)
    {
      for k := 0 to |specs|
        invariant forall j :: 0 <= j < k ==> specs[j].inputIndex != packet.streamIndex
      {
        if specs[k].inputIndex == packet.streamIndex {
          return specs[k].video;
        }
      }
      return false;
    }

    method CachePacket(packet: AvPacket, clonable: bool)
      requires CacheIsTheGop() && KeysAreTrue()
      modifies this`gopCache, this`hist
      ensures CacheIsTheGop() && KeysAreTrue()
      ensures hist == old(hist) + [EntryOf(packet, specs, clonable)]
      ensures packet.keyFlag && clonable && OnlyVideoHas(specs, packet.streamIndex) ==> gopCache == [packet]
      ensures !packet.keyFlag || NoVideoHas(specs, packet.streamIndex) ==>
        gopCache == old(gopCache) || (old(gopCache) != [] && gopCache == old(gopCache) + [packet])
    {
      var isVideo := IsVideoPacket(packet);
      ghost var e := EntryOf(packet, specs, clonable);
      CacheStep(hist, base, e);
      PushToCache(packet, isVideo && packet.keyFlag, clonable);
      hist := hist + [e];
    }

    method PushToCache(packet: AvPacket, isKeyframe: bool, clonable: bool)
      modifies this`gopCache
      ensures gopCache == if isKeyframe then if clonable then [packet] else []
                          else if old(gopCache) == [] then []
                          else old(gopCache) + (if clonable then [packet] else [])
    {
      if isKeyframe {
        gopCache := [];
      }
      if gopCache == [] && !isKeyframe {
        return;
      }
      if !clonable {
        return;
      }
      gopCache := gopCache + [packet];
    }

    /** cachePacket leaves what is known about the files true. */
    method Remember(packet: AvPacket, clonable: bool)
      requires Valid()
      modifies this`gopCache, this`hist
      ensures hist == old(hist) + [EntryOf(packet, specs, clonable)]
      ensures KeysAreTrue() && CacheIsTheGop() && FileIsExplained(|old(hist)|) && LogIsExplained()
    {
      ghost var was := hist;
      CachePacket(packet, clonable);
      forall k | 0 <= k < |finished| ensures Explained(finished[k], hist) {
        ExplainedLater(finished[k], was, hist[|was|]);
      }
      if file.Some? {
        ExplainedLater(File(file.value, base, openedAt, |was|, false), was, hist[|was|]);
      }
    }

    /** The write of the packet just cached; a failure ends the file. */
    method WriteLive(packet: AvPacket, writable: bool) returns (ok: bool)
      requires KeysAreTrue() && CacheIsTheGop() && LogIsExplained() && hist != [] && hist[|hist| - 1].packet == packet
      requires FileIsExplained(|hist| - 1)
      modifies this`deadlineMs, this`file, this`streamStates, this`requests, this`finished
      ensures Valid()
      ensures ok <==> old(file).None? || (packet.streamIndex in old(streamStates) && writable)
      ensures file == if old(file).Some? && ok then Some(old(file).value + [packet]) else None
      ensures ok ==> requests == old(requests) && finished == old(finished) && streamStates == old(streamStates)
    {
      if file.None? {
        return true;
      }
      ok := WriteOrClose(packet, writable);
    }

    method WriteOrClose(packet: AvPacket, writable: bool) returns (ok: bool)
      requires LogIsExplained() && hist != [] && hist[|hist| - 1].packet == packet && file.Some? && FileIsExplained(|hist| - 1)
      modifies this`deadlineMs, this`file, this`streamStates, this`requests, this`finished
      ensures LogIsExplained() && FileIsExplained(|hist|)
      ensures ok <==> packet.streamIndex in old(streamStates) && writable
      ensures file == if ok then Some(old(file).value + [packet]) else None
      ensures ok ==> requests == old(requests) && finished == old(finished) && streamStates == old(streamStates)
    {
      WrittenLive(file.value, hist, base, openedAt, packet);
      ok := WritePacket(packet, writable);
      if !ok {
        Close(|hist| - 1, false);
      }
    }

    /** appendPacket after the expiry check. */
    method CacheAndWrite(packet: AvPacket, clonable: bool, writable: bool) returns (ok: bool)
      requires Valid()
      modifies this`gopCache, this`hist, this`deadlineMs, this`file, this`streamStates, this`requests, this`finished
      ensures Valid()
      ensures hist == old(hist) + [EntryOf(packet, specs, clonable)]
      ensures ok <==> old(file).None? || (packet.streamIndex in old(streamStates) && writable)
      ensures file == if old(file).Some? && ok then Some(old(file).value + [packet]) else None
      ensures ok ==> requests == old(requests) && finished == old(finished)
    {
      Remember(packet, clonable);
      ok := WriteLive(packet, writable);
    }

    /** appendPacket at time nowMs; clonable and writable are the success of the two copies and the muxer. */
    method AppendPacket(packet: AvPacket, nowMs: int, clonable: bool, writable: bool) returns (ok: bool)
      requires Valid()
      modifies this`gopCache, this`hist, this`deadlineMs, this`file, this`streamStates, this`requests, this`finished
      ensures Valid()
      ensures packet.data == [] ==> !ok && unchanged(this)
      ensures packet.data != [] ==>
        hist == old(hist) + [EntryOf(packet, specs, clonable)]
      ensures packet.data != [] && old(file.None? || Expired(nowMs)) ==> ok && file == None
      ensures packet.data != [] && old(file.Some? && !Expired(nowMs)) ==>
        && (ok <==> packet.streamIndex in old(streamStates) && writable)
        && file == (if ok then Some(old(file).value + [packet]) else None)
        && (ok ==> requests == old(requests) && finished == old(finished))
    {
      if packet.data == [] {
        return false;
      }
      CloseExpired(nowMs);
      ok := CacheAndWrite(packet, clonable, writable);
    }
  }
}
