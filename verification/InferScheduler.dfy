/** The scheduler over real stream buffers (src/pipeline/InferScheduler.cpp); one method per section
    under its mutex, each tied to SchedulerModel. */
module InferSchedulerClass {
  import opened Common
  import opened StreamTypes
  import opened BufferModel
  import opened SchedulerModel
  import opened StreamBufferClass

  /** `config` stands for the stream's runtime configuration. */
  datatype Entry = Entry(config: int, buffer: StreamBuffer?, inflight: bool)

  datatype InferTask = InferTask(streamId: StreamId, config: int, buffer: StreamBuffer, frame: FrameBundle)

  ghost function Inflight(entries: map<StreamId, Entry>): map<StreamId, bool> {
    map id | id in entries :: entries[id].inflight
  }

  lemma InflightUpdate(entries: map<StreamId, Entry>, id: StreamId, e: Entry)
    ensures Inflight(entries[id := e]) == Inflight(entries)[id := e.inflight]
    ensures Inflight(entries - {id}) == Inflight(entries) - {id}
  {
  }

  /** The streams a round could hand out, given what each entry's buffer holds. */
  ghost function ReadyIds(entries: map<StreamId, Entry>, offers: map<StreamId, Buffer>): set<StreamId> {
    set id | id in entries && !entries[id].inflight && id in offers && Select(offers[id]).1.Some?
  }

  /** A stream can be served when it has no task out and its buffer holds a decoded Idle frame. */
  lemma ReadyMeans(entries: map<StreamId, Entry>, offers: map<StreamId, Buffer>, id: StreamId)
    requires id in offers ==> Coherent(offers[id])
    ensures id in ReadyIds(entries, offers)
      <==> id in entries && !entries[id].inflight && id in offers
           && exists k :: k in offers[id].frames && offers[id].frames[k].decoded && offers[id].frames[k].state == Idle
  {
    if id in offers { NothingToSelectIff(offers[id]); }
  }

  /** A buffer whose fields and frame bundles did not change holds what it held. */
  twostate lemma SameBuffer(b: StreamBuffer)
    requires unchanged(b)
    requires forall f :: f in b.frames.Values ==> f.inferState == old(f.inferState)
    ensures b.Value() == old(b.Value())
  {
    assert forall k :: k in b.frames ==> b.frames[k].Value() == old(b.frames[k].Value());
    assert b.FrameValues() == old(b.FrameValues());
  }

  /** The entry's buffer has selected this frame. */
  ghost predicate Yielded(entry: Entry, offered: Buffer, frame: FrameBundle?)
    reads *
  {
    && entry.buffer != null && frame != null
    && entry.buffer.Value() == Select(offered).0 && Select(offered).1 == Some(frame.frameId)
  }

  class RoundRobinInferScheduler {
    var entries: map<StreamId, Entry>
    var order: seq<StreamId>
    var cursor: nat

    ghost function Value(): Sched
      reads this
    {
      Sched(order, Inflight(entries), cursor)
    }

    ghost predicate Valid()
      reads this
    {
      WellFormed(Value())
    }

    /** What each registered buffer holds. */
    ghost function Offers(): map<StreamId, Buffer>
      reads *
    {
      map id | id in entries && entries[id].buffer != null :: entries[id].buffer.Value()
    }

    /** Every registered buffer is coherent and its frame bundles are among `bundles`. */
    ghost predicate BuffersWithin(bundles: set<FrameBundle>)
      reads *
    {
      forall id :: id in entries && entries[id].buffer != null ==>
        entries[id].buffer.Valid() && entries[id].buffer.frames.Values <= bundles
    }

    constructor ()
      ensures Valid() && Value() == Sched([], map[], 0)
    {
      entries, order, cursor := map[], [], 0;
    }

    method UpsertStream(id: StreamId, config: int, buffer: StreamBuffer?)
      requires Valid()
      modifies this
      ensures Valid()
      ensures Value() == Upsert(old(Value()), id)
      ensures order == (if id in old(order) then old(order) else old(order) + [id]) && cursor == old(cursor)
      ensures entries == old(entries)[id := Entry(config, buffer, id in old(entries) && old(entries)[id].inflight)]
    {
      OperationsKeepWellFormed(Value(), OpUpsert(id));
      var entry := Entry(config, buffer, id in entries && entries[id].inflight);
      InflightUpdate(entries, id, entry);
      entries := entries[id := entry];
      if id !in order {
        order := order + [id];
      }
    }

    method RemoveStream(id: StreamId)
      requires Valid()
      modifies this
      ensures Valid()
      ensures Value() == Remove(old(Value()), id) && entries == old(entries) - {id}
      ensures cursor == (if old(cursor) < |order| then old(cursor) else 0) && forall x :: x in order <==> x in old(order) && x != id
    {
      OperationsKeepWellFormed(Value(), OpRemove(id));
      InflightUpdate(entries, id, Entry(0, null, false));
      entries := entries - {id};
      order := Drop(order, id);
      if cursor >= |order| {
        cursor := 0;
      }
    }

    /** completeTask and cancelTask. */
    method FinishTask(id: StreamId, frameId: int)
      requires Valid()
      modifies this
      ensures Valid()
      ensures Value() == Finish(old(Value()), id)
      ensures entries == if id in old(entries) then old(entries)[id := old(entries)[id].(inflight := false)] else old(entries)
    {
      OperationsKeepWellFormed(Value(), OpFinish(id));
      if id in entries {
        InflightUpdate(entries, id, entries[id].(inflight := false));
        entries := entries[id := entries[id].(inflight := false)];
      }
    }

    /** One offer of the scan: the buffer is as it was at the start, and select is called on it. */
    method Offer(buffer: StreamBuffer, ghost bundles: set<FrameBundle>, ghost offered: Buffer) returns (frame: FrameBundle?)
      requires buffer.Valid() && buffer.frames.Values <= bundles && buffer.Value() == offered
      modifies bundles
      ensures frame == null ==> Select(offered).1.None? && forall f :: f in bundles ==> f.inferState == old(f.inferState)
      ensures frame != null ==> Select(offered).1 == Some(frame.frameId) && buffer.Value() == Select(offered).0
      ensures forall f :: f in bundles && f !in buffer.frames.Values ==> f.inferState == old(f.inferState)
    {
      frame := buffer.SelectFrameForInference();
    }

    /** The scan of tryAcquireLocked: offer each idle stream's buffer in turn until one yields a frame. */
    method SelectFromFirstReady(ghost bundles: set<FrameBundle>, ghost offers: map<StreamId, Buffer>)
      returns (offset: Option<nat>, frame: FrameBundle?)
      requires Valid() && BuffersWithin(bundles) && order != [] && offers == Offers()
      modifies bundles
      ensures offset == PickFrom(order, cursor, ReadyIds(entries, offers), 0)
      ensures offset.None? ==> frame == null && forall f :: f in bundles ==> f.inferState == old(f.inferState)
      ensures offset.Some? ==>
        var id := order[At(cursor, offset.value, |order|)];
        && id in entries && id in offers && Yielded(entries[id], offers[id], frame)
        && forall f :: f in bundles && f !in entries[id].buffer.frames.Values ==> f.inferState == old(f.inferState)
    {
      ghost var ready := ReadyIds(entries, offers);
      var i := 0;
      while i < |order|
        invariant Scanned(order, cursor, ready, i)
        invariant forall f :: f in bundles ==> f.inferState == old(f.inferState)
      {
        ScanStep(order, cursor, ready, i);
        var id := order[At(cursor, i, |order|)];
        assert id in Inflight(entries);
        assert entries[id].buffer != null ==>
          old(entries[id].buffer.Valid()) && id in offers && old(entries[id].buffer.Value()) == offers[id];
        if entries[id].buffer != null { SameBuffer(entries[id].buffer); }
        frame := OfferStream(id, bundles, offers);
        if frame != null {
          offset := Some(i);
          return;
        }
        i := i + 1;
      }
      ScanStep(order, cursor, ready, i);
      return None, null;
    }

    /** One stream of the scan: only one that is idle and has a buffer is asked. */
    method OfferStream(id: StreamId, ghost bundles: set<FrameBundle>, ghost offers: map<StreamId, Buffer>)
      returns (frame: FrameBundle?)
      requires id in entries
      requires var buffer := entries[id].buffer; buffer != null ==>
        buffer.Valid() && buffer.frames.Values <= bundles && id in offers && buffer.Value() == offers[id]
      requires entries[id].buffer == null ==> id !in offers
      modifies bundles
      ensures frame == null <==> id !in ReadyIds(entries, offers)
      ensures frame == null ==> forall f :: f in bundles ==> f.inferState == old(f.inferState)
      ensures frame != null ==>
        && id in offers && Yielded(entries[id], offers[id], frame)
        && forall f :: f in bundles && f !in entries[id].buffer.frames.Values ==> f.inferState == old(f.inferState)
    {
      frame := null;
      if !entries[id].inflight && entries[id].buffer != null {
        frame := Offer(entries[id].buffer, bundles, offers[id]);
      }
    }

    /** The bookkeeping of a successful scan: mark the stream in flight and move the cursor past it. */
    method Commit(offset: nat, ghost ready: set<StreamId>) returns (id: StreamId)
      requires Valid() && order != [] && PickFrom(order, cursor, ready, 0) == Some(offset)
      requires order[At(cursor, offset, |order|)] in entries
      modifies this
      ensures Valid() && Value() == Acquire(old(Value()), ready).0
      ensures id == old(order[At(cursor, offset, |order|)]) && Acquire(old(Value()), ready).1 == Some(id)
      ensures entries == old(entries)[id := old(entries)[id].(inflight := true)]
    {
      OperationsKeepWellFormed(Value(), OpAcquire(ready));
      AcquireAt(Value(), ready, offset);
      var index := At(cursor, offset, |order|);
      id := order[index];
      var entry := entries[id].(inflight := true);
      InflightUpdate(entries, id, entry);
      cursor := After(index, |order|);
      entries := entries[id := entry];
    }

    method TryAcquireLocked(ghost bundles: set<FrameBundle>) returns (task: Option<InferTask>)
      requires Valid() && BuffersWithin(bundles)
      modifies this, bundles
      ensures Valid()
      ensures Value() == Acquire(old(Value()), ReadyIds(old(entries), old(Offers()))).0
      ensures Acquire(old(Value()), ReadyIds(old(entries), old(Offers()))).1 == if task.Some? then Some(task.value.streamId) else None
      ensures task.None? ==> entries == old(entries) && forall f :: f in bundles ==> f.inferState == old(f.inferState)
      ensures task.Some? ==> var id := task.value.streamId; var buffer := task.value.buffer;
        && id in old(entries) && old(entries)[id].buffer == buffer && task.value.config == old(entries)[id].config
        && entries == old(entries)[id := old(entries)[id].(inflight := true)]
        && id in old(Offers()) && buffer.Value() == Select(old(Offers())[id]).0
        && Select(old(Offers())[id]).1 == Some(task.value.frame.frameId)
        && forall f :: f in bundles && f !in buffer.frames.Values ==> f.inferState == old(f.inferState)
    {
      if order == [] {
        return None;
      }
      ghost var offers := Offers();
      ghost var ready := ReadyIds(entries, offers);
      var offset, frame := SelectFromFirstReady(bundles, offers);
      if offset.None? {
        return None;
      }
      var entry := entries[order[At(cursor, offset.value, |order|)]];
      label scanned:
      var id := Commit(offset.value, ready);
      SameBuffer@scanned(entry.buffer);
      task := Some(InferTask(id, entry.config, entry.buffer, frame));
    }
  }
}
