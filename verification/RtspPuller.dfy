/** The puller's side of the id alignment (src/stream/RTSPPuller.cpp), writing into the stream buffer.
    Its contracts equate each loop with PullerModel, whose effects are the puller steps of StreamPipeline. */
module RtspPullerClass {
  import opened Common
  import opened StreamTypes
  import opened BufferModel
  import opened PullerModel
  import opened StreamBufferClass

  function EnqueueAll(b: Buffer, frames: seq<Frame>): Buffer {
    if frames == [] then b else EnqueueFrame(EnqueueAll(b, frames[..|frames| - 1]), frames[|frames| - 1])
  }

  lemma {:induction false} EnqueueAllConcat(b: Buffer, xs: seq<Frame>, ys: seq<Frame>)
    ensures EnqueueAll(b, xs + ys) == EnqueueAll(EnqueueAll(b, xs), ys)
  {
    if ys == [] {
      assert xs + ys == xs;
    } else {
      assert (xs + ys)[..|xs + ys| - 1] == xs + ys[..|ys| - 1];
      EnqueueAllConcat(b, xs, ys[..|ys| - 1]);
    }
  }

  /** Everything enqueued for a batch of decoded frames, and what stays pending after it. */
  function BatchDeliveries(pending: seq<PendingMeta>, ds: seq<Decoded>): seq<Frame> {
    if ds == [] then []
    else BatchDeliveries(pending, ds[..|ds| - 1]) + Deliveries(BatchRemaining(pending, ds[..|ds| - 1]), ds[|ds| - 1])
  }

  function BatchRemaining(pending: seq<PendingMeta>, ds: seq<Decoded>): seq<PendingMeta> {
    if ds == [] then pending else Remaining(BatchRemaining(pending, ds[..|ds| - 1]), ds[|ds| - 1])
  }

  /** A whole batch, whatever timestamps the decoder reports, hands over the oldest pending ids in
      order and keeps the others pending. */
  lemma {:induction false} BatchConservesIds(pending: seq<PendingMeta>, ds: seq<Decoded>)
    ensures FrameIds(BatchDeliveries(pending, ds)) + MetaIds(BatchRemaining(pending, ds)) == MetaIds(pending)
  {
    if ds != [] {
      BatchConservesIds(pending, ds[..|ds| - 1]);
      var mid := BatchRemaining(pending, ds[..|ds| - 1]);
      DeliveriesConserveIds(mid, ds[|ds| - 1]);
      AppendIds(BatchDeliveries(pending, ds[..|ds| - 1]), Deliveries(mid, ds[|ds| - 1]), MetaIds(Remaining(mid, ds[|ds| - 1])));
    }
  }

  lemma AppendIds(xs: seq<Frame>, ys: seq<Frame>, rest: seq<int>)
    ensures FrameIds(xs + ys) + rest == FrameIds(xs) + (FrameIds(ys) + rest)
  {
  }

  method FindByPts(pending: seq<PendingMeta>, pts: int) returns (r: Option<nat>)
    ensures r == IndexOfPts(pending, pts)
  {
    var i := 0;
    while i < |pending|
      invariant 0 <= i <= |pending|
      invariant forall j :: 0 <= j < i ==> pending[j].pts != pts
    {
      if pending[i].pts == pts {
        return Some(i);
      }
      i := i + 1;
    }
    return None;
  }

  method FindByDts(pending: seq<PendingMeta>, dts: int) returns (r: Option<nat>)
    ensures r == IndexOfDts(pending, dts)
  {
    var i := 0;
    while i < |pending|
      invariant 0 <= i <= |pending|
      invariant forall j :: 0 <= j < i ==> pending[j].dts != dts
    {
      if pending[i].dts == dts {
        return Some(i);
      }
      i := i + 1;
    }
    return None;
  }

  ghost predicate PublishedSoFar(start: Buffer, first: seq<PendingMeta>, ds: seq<Decoded>, i: nat,
                                 now: Buffer, pending: seq<PendingMeta>)
  {
    && i <= |ds| && pending == BatchRemaining(first, ds[..i])
    && now == EnqueueAll(start, BatchDeliveries(first, ds[..i]))
  }

  lemma {:induction false} PublishedOneMore(start: Buffer, first: seq<PendingMeta>, ds: seq<Decoded>, i: nat,
                         now: Buffer, pending: seq<PendingMeta>)
    requires i < |ds| && PublishedSoFar(start, first, ds, i, now, pending)
    ensures PublishedSoFar(start, first, ds, i + 1, EnqueueAll(now, Deliveries(pending, ds[i])), Remaining(pending, ds[i]))
  {
    assert ds[..i + 1][..i] == ds[..i];
    EnqueueAllConcat(start, BatchDeliveries(first, ds[..i]), Deliveries(pending, ds[i]));
  }

  class RTSPPuller {
    var pendingVideoFrames: seq<PendingMeta>
    var nextFrameId: nat
    const streamBuffer: StreamBuffer

    constructor (streamBuffer: StreamBuffer)
      ensures this.streamBuffer == streamBuffer && pendingVideoFrames == [] && nextFrameId == 0
    {
      this.streamBuffer := streamBuffer;
      pendingVideoFrames, nextFrameId := [], 0;
    }

    method OnVideoPacket(pts: int, dts: int, body: int)
      requires streamBuffer.Valid()
      modifies this, streamBuffer
      ensures streamBuffer.Valid()
      ensures streamBuffer.Value() == EnqueuePacket(old(streamBuffer.Value()), Packet(Video, old(nextFrameId), pts, body))
      ensures pendingVideoFrames == old(pendingVideoFrames) + [PendingMeta(old(nextFrameId), pts, dts)]
      ensures nextFrameId == old(nextFrameId) + 1
    {
      var accepted := streamBuffer.EnqueuePacket(Some(Packet(Video, nextFrameId, pts, body)));
      pendingVideoFrames := pendingVideoFrames + [PendingMeta(nextFrameId, pts, dts)];
      nextFrameId := nextFrameId + 1;
    }

    method EnqueuePendingFrame(meta: PendingMeta, hasImage: bool)
      requires streamBuffer.Valid()
      modifies streamBuffer
      ensures streamBuffer.Valid()
      ensures streamBuffer.Value() == EnqueueFrame(old(streamBuffer.Value()), Bundle(meta, hasImage))
    {
      var bundle := new FrameBundle(meta.frameId, meta.pts, hasImage);
      var accepted := streamBuffer.EnqueueFrame(bundle);
    }

    /** The pending frames in front of the matching one are enqueued without an image. */
    method EnqueuePlaceholders(k: nat, ghost out: seq<Frame>)
      requires streamBuffer.Valid() && k <= |pendingVideoFrames| && k <= |out|
      requires forall i :: 0 <= i < k ==> out[i] == Bundle(pendingVideoFrames[i], false)
      modifies streamBuffer
      ensures streamBuffer.Valid() && streamBuffer.Value() == EnqueueAll(old(streamBuffer.Value()), out[..k])
    {
      for i := 0 to k
        invariant streamBuffer.Valid()
        invariant streamBuffer.Value() == EnqueueAll(old(streamBuffer.Value()), out[..i])
      {
        assert out[..i + 1][..i] == out[..i];
        EnqueuePendingFrame(pendingVideoFrames[i], false);
      }
    }

    method TakePendingVideoFrameMeta(d: Decoded) returns (meta: Option<PendingMeta>)
      requires streamBuffer.Valid()
      modifies this`pendingVideoFrames, streamBuffer
      ensures streamBuffer.Valid()
      ensures pendingVideoFrames == Remaining(old(pendingVideoFrames), d)
      ensures var out := Deliveries(old(pendingVideoFrames), d);
        match meta
        case None => out == [] && streamBuffer.Value() == old(streamBuffer.Value())
        case Some(m) =>
          && out != [] && out[|out| - 1] == Bundle(m, d.hasImage)
          && streamBuffer.Value() == EnqueueAll(old(streamBuffer.Value()), out[..|out| - 1])
    {
      if pendingVideoFrames == [] {
        return None;
      }
      var match_: Option<nat> := None;
      if d.pts != AV_NOPTS_VALUE {
        match_ := FindByPts(pendingVideoFrames, d.pts);
      }
      if match_.None? && d.dts != AV_NOPTS_VALUE {
        match_ := FindByDts(pendingVideoFrames, d.dts);
      }
      if match_.None? {
        if d.pts == AV_NOPTS_VALUE && d.dts == AV_NOPTS_VALUE {
          meta := Some(pendingVideoFrames[0]);
          pendingVideoFrames := pendingVideoFrames[1..];
          return;
        }
        return None;
      }
      var k := match_.value;
      EnqueuePlaceholders(k, Deliveries(pendingVideoFrames, d));
      meta := Some(pendingVideoFrames[k]);
      pendingVideoFrames := pendingVideoFrames[k + 1..];
    }

    /** One round of the loop below. */
    method PublishDecodedFrame(d: Decoded)
      requires streamBuffer.Valid()
      modifies this`pendingVideoFrames, streamBuffer
      ensures streamBuffer.Valid()
      ensures pendingVideoFrames == Remaining(old(pendingVideoFrames), d)
      ensures streamBuffer.Value() == EnqueueAll(old(streamBuffer.Value()), Deliveries(old(pendingVideoFrames), d))
    {
      var meta := TakePendingVideoFrameMeta(d);
      if meta.Some? {
        EnqueuePendingFrame(meta.value, d.hasImage);
      }
    }

    method PublishDecodedFrames(ds: seq<Decoded>)
      requires streamBuffer.Valid()
      modifies this`pendingVideoFrames, streamBuffer
      ensures streamBuffer.Valid()
      ensures pendingVideoFrames == BatchRemaining(old(pendingVideoFrames), ds)
      ensures streamBuffer.Value() == EnqueueAll(old(streamBuffer.Value()), BatchDeliveries(old(pendingVideoFrames), ds))
    {
      var i := 0;
      ghost var start, first := streamBuffer.Value(), pendingVideoFrames;
      while i < |ds|
        invariant streamBuffer.Valid()
        invariant PublishedSoFar(start, first, ds, i, streamBuffer.Value(), pendingVideoFrames)
      {
        PublishedOneMore(start, first, ds, i, streamBuffer.Value(), pendingVideoFrames);
        PublishDecodedFrame(ds[i]);
        i := i + 1;
      }
      assert ds[..i] == ds;
    }

    method CloseStream()
      modifies this
      ensures pendingVideoFrames == [] && nextFrameId == old(nextFrameId)
    {
      pendingVideoFrames := [];
    }
  }
}
