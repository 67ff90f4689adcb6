/** The shared stream buffer (src/pipeline/StreamBuffer.cpp). Each method is one section under the
    buffer's mutex; its contract ties the new value to the matching operation of BufferModel. */
module StreamBufferClass {
  import opened Common
  import opened StreamTypes
  import opened BufferModel

  class StreamBuffer {
    var packets: seq<Packet>
    var frames: map<int, FrameBundle>
    var frameOrder: seq<int>
    var cachedResults: map<int, InferenceResult>
    var videoPacketCount: nat
    var stopped: bool

    ghost function FrameValues(): map<int, Frame>
      reads this, frames.Values
    {
      map k | k in frames :: frames[k].Value()
    }

    ghost function Value(): Buffer
      reads this, frames.Values
    {
      Buffer(packets, FrameValues(), frameOrder, cachedResults, videoPacketCount, stopped)
    }

    ghost predicate Valid()
      reads this, frames.Values
    {
      Coherent(Value())
    }

    /** Distinct ids are distinct bundles, because every bundle sits under its own id. */
    lemma DistinctBundles()
      requires Valid()
      ensures forall j, k :: j in frames && k in frames && frames[j] == frames[k] ==> j == k
    {
      forall k | k in frames ensures frames[k].frameId == k {
        assert FrameValues()[k].frameId == k;
      }
    }

    constructor ()
      ensures Valid() && Value() == EMPTY
    {
      packets, frames, frameOrder, cachedResults := [], map[], [], map[];
      videoPacketCount, stopped := 0, false;
    }

    method EnqueuePacket(packet: Option<Packet>) returns (accepted: bool)
      requires Valid()
      modifies this
      ensures Valid()
      ensures accepted == (!old(stopped) && packet.Some?)
      ensures Value() == match packet case None => old(Value()) case Some(p) => BufferModel.EnqueuePacket(old(Value()), p)
    {
      if stopped || packet.None? {
        return false;
      }
      ghost var before := Value();
      if packet.value.media == Video {
        videoPacketCount := videoPacketCount + 1;
      }
      packets := packets + [packet.value];
      assert FrameValues() == before.frames;
      OperationsKeepCoherent(before, OpEnqueuePacket(packet.value), Value());
      return true;
    }

    method EnqueueFrame(frame: FrameBundle?) returns (accepted: bool)
      requires Valid()
      modifies this
      ensures Valid()
      ensures accepted == (!old(stopped) && frame != null)
      ensures Value() == if frame == null then old(Value()) else BufferModel.EnqueueFrame(old(Value()), frame.Value())
      ensures frames == if accepted then old(frames)[frame.frameId := frame] else old(frames)
    {
      if stopped || frame == null {
        return false;
      }
      ghost var before := Value();
      frames := frames[frame.frameId := frame];
      frameOrder := frameOrder + [frame.frameId];
      assert FrameValues() == before.frames[frame.frameId := frame.Value()];
      OperationsKeepCoherent(before, OpEnqueueFrame(frame.Value()), Value());
      return true;
    }

    /** The first loop of selectFrameForInference: search backwards for a decoded Idle frame. */
    method FindCandidate() returns (selected: FrameBundle?)
      requires Valid()
      ensures match LastCandidate(FrameValues(), frameOrder)
              case None => selected == null
              case Some(id) => id in frames && selected == frames[id]
    {
      selected := null;
      var i := |frameOrder|;
      assert frameOrder[..i] == frameOrder;
      while i > 0
        invariant 0 <= i <= |frameOrder|
        invariant LastCandidate(FrameValues(), frameOrder) == LastCandidate(FrameValues(), frameOrder[..i])
      {
        assert frameOrder[..i][..i - 1] == frameOrder[..i - 1];
        i := i - 1;
        if frameOrder[i] in frames && frames[frameOrder[i]].decoded && frames[frameOrder[i]].inferState == Idle {
          return frames[frameOrder[i]];
        }
      }
    }

    /** The second loop of selectFrameForInference: every other non-terminal frame becomes Done. */
    method SupersedeOthers(selected: FrameBundle)
      requires Valid() && selected in frames.Values && selected.inferState == Selected
      modifies frames.Values
      ensures selected.inferState == Selected
      ensures forall k :: k in frames && frames[k] != selected ==>
        frames[k].inferState == Superseded(old(frames[k].inferState))
    {
      DistinctBundles();
      assert forall k :: k in frames ==> k in Value().frames && k in frameOrder;
      var i := 0;
      while i < |frameOrder|
        invariant 0 <= i <= |frameOrder|
        invariant selected.inferState == Selected
        invariant forall k :: k in frames && frames[k] != selected ==>
          frames[k].inferState ==
            if k in frameOrder[..i] then Superseded(old(frames[k].inferState)) else old(frames[k].inferState)
      {
        var id := frameOrder[i];
        assert frameOrder[..i + 1] == frameOrder[..i] + [id];
        if id in frames {
          var bundle := frames[id];
          if bundle != selected && !IsTerminal(bundle.inferState) {
            bundle.inferState := Done;
          }
        }
        i := i + 1;
      }
      assert frameOrder[..i] == frameOrder;
    }

    method SelectFrameForInference() returns (selected: FrameBundle?)
      requires Valid()
      modifies frames.Values
      ensures Valid()
      ensures Value() == Select(old(Value())).0
      ensures match Select(old(Value())).1
              case None => selected == null
              case Some(id) => id in frames && selected == frames[id]
      ensures selected == null ==> unchanged(frames.Values)
    {
      selected := FindCandidate();
      if selected == null {
        return;
      }
      MarkSelected(selected, LastCandidate(FrameValues(), frameOrder).value);
    }

    /** The frame found becomes Selected, the others are superseded. */
    method MarkSelected(selected: FrameBundle, ghost id: int)
      requires Valid() && id in frames && frames[id] == selected
      modifies frames.Values
      ensures Valid() && FrameValues() == Mark(old(FrameValues()), id)
    {
      DistinctBundles();
      ghost var before := FrameValues();
      selected.inferState := Selected;
      SameKeysCoherent(before);
      SupersedeOthers(selected);
      forall k | k in frames ensures frames[k].Value() == Mark(before, id)[k] {
        assert k != id ==> frames[k] != selected;
      }
      FrameValuesAre(Mark(before, id));
      SameKeysCoherent(before);
    }

    lemma FrameValuesAre(m: map<int, Frame>)
      requires m.Keys == frames.Keys && forall k :: k in frames ==> frames[k].Value() == m[k]
      ensures FrameValues() == m
    {
      var values := FrameValues();
      assert values.Keys == m.Keys;
      forall k | k in values ensures values[k] == m[k] {
        assert k in frames;
      }
      assert values == m;
    }

    /** Changing inference states cannot break coherence. */
    lemma SameKeysCoherent(before: map<int, Frame>)
      requires Coherent(Value().(frames := before))
      requires before.Keys == frames.Keys && forall k :: k in frames ==> before[k].frameId == frames[k].frameId
      ensures Valid()
    {
      forall k | k in frames ensures FrameValues()[k].frameId == k {
        assert before[k].frameId == k;
      }
    }

    method SetInferState(id: int, s: InferState)
      requires Valid()
      modifies frames.Values
      ensures Valid()
      ensures Value() == SetState(old(Value()), id, s)
    {
      if id in frames {
        DistinctBundles();
        ghost var before := FrameValues();
        frames[id].inferState := s;
        forall k | k in frames ensures frames[k].Value() == before[id := before[id].(state := s)][k] {
          assert k != id ==> frames[k] != frames[id];
        }
        FrameValuesAre(before[id := before[id].(state := s)]);
        SameKeysCoherent(before);
      }
    }

    method MarkInferenceRunning(id: int)
      requires Valid()
      modifies frames.Values
      ensures Valid() && Value() == SetState(old(Value()), id, Running)
    {
      SetInferState(id, Running);
    }

    method MarkInferenceDone(result: InferenceResult)
      requires Valid()
      modifies frames.Values
      ensures Valid() && Value() == SetState(old(Value()), result.frameId, Done)
    {
      SetInferState(result.frameId, Done);
    }

    method ClearInferenceSelection(id: int, s: InferState)
      requires Valid()
      modifies frames.Values
      ensures Valid() && Value() == SetState(old(Value()), id, s)
    {
      SetInferState(id, s);
    }

    method HasDecodedFrameLocked(excluded: Option<int>) returns (found: bool)
      ensures found == HasDecoded(FrameValues(), excluded)
    {
      var rest := frames.Keys;
      while exists k :: k in rest
        invariant rest <= frames.Keys
        invariant forall k :: k in frames && k !in rest ==> excluded == Some(k) || !frames[k].decoded
        decreases |rest|
      {
        var k :| k in rest;
        rest := rest - {k};
        if excluded == Some(k) {
          continue;
        }
        if frames[k].decoded {
          assert FrameValues()[k].decoded;
          return true;
        }
      }
      return false;
    }

    method InferringFrameIdLocked() returns (r: Option<int>)
      ensures r == InferringId(FrameValues(), frameOrder)
    {
      var i := 0;
      while i < |frameOrder|
        invariant 0 <= i <= |frameOrder|
        invariant InferringId(FrameValues(), frameOrder) == InferringId(FrameValues(), frameOrder[i..])
      {
        if frameOrder[i] in frames && frames[frameOrder[i]].decoded && IsInferring(frames[frameOrder[i]].inferState) {
          return Some(frameOrder[i]);
        }
        i := i + 1;
      }
      return None;
    }

    method CanPublishLocked(watermark: nat) returns (ready: bool)
      ensures ready == CanPublish(Value(), watermark)
      ensures packets != [] && packets[0].media == Audio ==> ready
    {
      if packets == [] {
        return false;
      }
      if watermark == 0 || videoPacketCount == 0 {
        return true;
      }
      var front := packets[0];
      if front.media == Audio {
        return true;
      }
      var inferring := InferringFrameIdLocked();
      if inferring.Some? && (front.frameId < 0 || front.frameId >= inferring.value) {
        return false;
      }
      if front.frameId >= 0 {
        if front.frameId !in frames {
          return false;
        }
        if frames[front.frameId].decoded {
          var other := HasDecodedFrameLocked(Some(front.frameId));
          if !other {
            return false;
          }
        }
      }
      return videoPacketCount > watermark;
    }

    /** The decision waitForPublishable returns when it wakes. */
    method PublishableNow(watermark: nat) returns (ready: bool)
      ensures ready == (!stopped && CanPublish(Value(), watermark))
    {
      var can := CanPublishLocked(watermark);
      return !stopped && can;
    }

    /** Shows the packet that the next PopPacket removes, since only the publisher pops. */
    method PeekPacket() returns (p: Option<Packet>)
      requires Valid()
      ensures p.None? ==> packets == [] && BufferModel.PopPacket(Value()) == Value()
      ensures p.Some? ==> packets == [p.value] + BufferModel.PopPacket(Value()).packets
    {
      return if packets == [] then None else Some(packets[0]);
    }

    method PopPacket()
      requires Valid()
      modifies this
      ensures Valid() && Value() == BufferModel.PopPacket(old(Value())) && frames == old(frames)
    {
      ghost var before := Value();
      if packets == [] {
        return;
      }
      if packets[0].media == Video && videoPacketCount > 0 {
        videoPacketCount := videoPacketCount - 1;
      }
      packets := packets[1..];
      assert FrameValues() == before.frames;
      OperationsKeepCoherent(before, OpPop, Value());
    }

    method FindFrame(id: int) returns (frame: FrameBundle?)
      ensures (frame != null) == (id in frames) && (frame != null ==> frame == frames[id])
    {
      return if id in frames then frames[id] else null;
    }

    method ReleaseFrame(id: int)
      requires Valid()
      modifies this
      ensures Valid() && Value() == BufferModel.ReleaseFrame(old(Value()), id)
    {
      ghost var before := Value();
      frames := frames - {id};
      frameOrder := Without(frameOrder, id);
      cachedResults := cachedResults - {id};
      assert FrameValues() == before.frames - {id};
      OperationsKeepCoherent(before, OpRelease(id), Value());
    }

    method UpdateCachedInferenceResult(result: InferenceResult)
      requires Valid()
      modifies this
      ensures Valid() && Value() == StoreResult(old(Value()), result)
      ensures cachedResults == if result.frameId < 0 then old(cachedResults) else old(cachedResults)[result.frameId := result]
    {
      ghost var before := Value();
      if result.frameId < 0 {
        return;
      }
      cachedResults := cachedResults[result.frameId := result];
      assert FrameValues() == before.frames;
    }

    method PurgeExpired(now: int)
      modifies this`cachedResults
      ensures cachedResults == Live(old(cachedResults), now)
    {
      var rest := cachedResults.Keys;
      while exists k :: k in rest
        invariant rest <= cachedResults.Keys <= old(cachedResults).Keys
        invariant forall k :: k in cachedResults ==> cachedResults[k] == old(cachedResults)[k]
        invariant forall k :: k in cachedResults && k !in rest ==> cachedResults[k].expireAt >= now
        invariant forall k :: k in old(cachedResults) && k !in cachedResults ==> old(cachedResults)[k].expireAt < now
        decreases |rest|
      {
        var k :| k in rest;
        rest := rest - {k};
        if cachedResults[k].expireAt < now {
          cachedResults := cachedResults - {k};
        }
      }
      ghost var live := Live(old(cachedResults), now);
      assert forall k :: k in cachedResults <==> k in live;
      assert forall k :: k in live ==> cachedResults[k] == live[k];
      assert cachedResults == live;
    }

    /** The search by timestamp. */
    method NearestResult(pts: int) returns (nearest: Option<int>)
      ensures nearest.Some? ==> IsNearest(cachedResults, nearest.value, pts)
      ensures nearest.None? ==> forall k :: k in cachedResults ==> !PtsMatch(cachedResults[k], pts)
    {
      nearest := None;
      var best := MATCH_WINDOW_PTS + 1;
      if pts < 0 {
        return;
      }
      var rest := cachedResults.Keys;
      while exists k :: k in rest
        invariant rest <= cachedResults.Keys
        invariant nearest.None? ==> best == MATCH_WINDOW_PTS + 1
        invariant nearest.Some? ==> nearest.value in cachedResults && PtsMatch(cachedResults[nearest.value], pts)
                                    && best == PtsDistance(cachedResults[nearest.value].pts, pts)
        invariant forall k :: k in cachedResults && k !in rest && PtsMatch(cachedResults[k], pts) ==>
                                nearest.Some? && best <= PtsDistance(cachedResults[k].pts, pts)
        decreases |rest|
      {
        var k :| k in rest;
        rest := rest - {k};
        if cachedResults[k].pts < 0 {
          continue;
        }
        var diff := PtsDistance(cachedResults[k].pts, pts);
        if diff <= MATCH_WINDOW_PTS && diff < best {
          nearest, best := Some(k), diff;
        }
      }
    }

    method TakeCachedInferenceResult(frameId: int, pts: int, now: int) returns (r: Option<InferenceResult>)
      requires Valid()
      modifies this`cachedResults
      ensures Valid()
      ensures TakeResult(old(Value()), frameId, pts, now, Value(), r)
    {
      ghost var before := Value();
      PurgeExpired(now);
      var matched := NearestResult(pts);
      if matched.None? && frameId >= 0 && frameId in cachedResults {
        matched := Some(frameId);
      }
      assert FrameValues() == before.frames;
      if matched.None? {
        return None;
      }
      assert before.cache[matched.value].frameId == matched.value;
      r := Some(cachedResults[matched.value]);
      cachedResults := cachedResults - {matched.value};
    }

    method Stop()
      requires Valid()
      modifies this
      ensures Valid() && Value() == old(Value()).(stopped := true)
    {
      ghost var before := Value();
      stopped := true;
      assert FrameValues() == before.frames;
    }
  }
}
