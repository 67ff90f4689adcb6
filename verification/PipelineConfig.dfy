/** The registry part of Pipeline (src/pipeline/Pipeline.cpp) as a class whose fields the main loop, arriving
    configurations and stop requests reassign; proved to do what modules Reconcile, LateStops and ConfigArrival
    say on values. */
module PipelineConfig {
  import opened MergeRules
  import opened ConfigFilter
  import opened Reconcile
  import opened ConfigArrival
  import opened LateStops

  /** The diff while the running streams in `rest` are still to be looked at. */
  ghost predicate Diffed(r: Registry, desired: map<string, StreamConfig>, rest: set<string>,
                         stop: seq<string>, update: seq<string>, moves: seq<string>)
    requires Linked(r)
  {
    && NoRepeats(stop) && NoRepeats(update) && NoRepeats(moves)
    && (forall id :: id in stop <==> id in r.streams && id !in rest && !Stays(r, desired, id))
    && (forall id :: id in update <==>
          id !in rest && Stays(r, desired, id) && r.contexts[r.streams[id]].runtime != desired[id])
    && (forall id :: id in moves <==> id !in rest && Moves(r, desired, id))
  }

  datatype Verdict = Drop | Move | Refresh | Leave

  ghost predicate IsVerdict(r: Registry, desired: map<string, StreamConfig>, id: string, v: Verdict)
    requires Linked(r)
  {
    && (v.Drop? <==> id !in desired) && (v.Move? <==> Moves(r, desired, id))
    && (v.Refresh? <==> Stays(r, desired, id) && r.contexts[r.streams[id]].runtime != desired[id])
  }

  lemma DiffedOneMore(r: Registry, desired: map<string, StreamConfig>, rest: set<string>,
                      stop: seq<string>, update: seq<string>, moves: seq<string>, id: string, v: Verdict)
    requires Linked(r) && Diffed(r, desired, rest, stop, update, moves) && id in rest && id in r.streams
    requires IsVerdict(r, desired, id, v)
    ensures Diffed(r, desired, rest - {id},
                   if v.Drop? || v.Move? then stop + [id] else stop,
                   if v.Refresh? then update + [id] else update,
                   if v.Move? then moves + [id] else moves)
    ensures |rest - {id}| < |rest| && id !in stop
  {
  }

  lemma EraseOneMore(r: Registry, ids: seq<string>, id: string)
    requires id in r.streams && id !in ids && forall i :: i in ids ==> i in r.streams
    ensures id in Erase(r, ids).streams && Erase(r, ids).streams - {id} == Erase(r, ids + [id]).streams
    ensures HandlesOf(r.streams, ids + [id]) == HandlesOf(r.streams, ids) + [Erase(r, ids).streams[id]]
  {
  }

  /** The whole state of the loop that computes it. */
  ghost predicate Diffing(r: Registry, desired: map<string, StreamConfig>, rest: set<string>,
                          stop: seq<string>, update: seq<string>, moves: seq<string>,
                          streams: map<string, Handle>, streamsToStop: seq<Handle>)
    requires Linked(r)
  {
    && Diffed(r, desired, rest, stop, update, moves) && rest <= r.streams.Keys
    && streams == Erase(r, stop).streams && streamsToStop == HandlesOf(r.streams, stop)
  }

  lemma NothingDiffed(r: Registry, desired: map<string, StreamConfig>)
    requires Linked(r)
    ensures Diffing(r, desired, r.streams.Keys, [], [], [], r.streams, [])
  {
    assert Erase(r, []).streams == r.streams;
  }

  lemma StillRunning(r: Registry, desired: map<string, StreamConfig>, rest: set<string>,
                     stop: seq<string>, update: seq<string>, moves: seq<string>,
                     streams: map<string, Handle>, streamsToStop: seq<Handle>, id: string)
    requires Linked(r) && Diffing(r, desired, rest, stop, update, moves, streams, streamsToStop) && id in rest
    ensures id in streams && id in r.streams && streams[id] == r.streams[id]
  {
  }

  lemma DiffingOneMore(r: Registry, desired: map<string, StreamConfig>, rest: set<string>,
                       stop: seq<string>, update: seq<string>, moves: seq<string>,
                       streams: map<string, Handle>, streamsToStop: seq<Handle>, id: string, v: Verdict)
    requires Linked(r) && Diffing(r, desired, rest, stop, update, moves, streams, streamsToStop)
    requires id in rest && id in streams && IsVerdict(r, desired, id, v)
    ensures var goes := v.Drop? || v.Move?;
      Diffing(r, desired, rest - {id},
              if goes then stop + [id] else stop, if v.Refresh? then update + [id] else update,
              if v.Move? then moves + [id] else moves,
              if goes then streams - {id} else streams, if goes then streamsToStop + [streams[id]] else streamsToStop)
    ensures |rest - {id}| < |rest|
  {
    DiffedOneMore(r, desired, rest, stop, update, moves, id, v);
    EraseOneMore(r, stop, id);
  }

  class Pipeline {
    const agentId: string
    var configs: map<int, AgentConfig>
    var hasPendingConfig: bool
    var pendingStopStreams: seq<Handle>
    var streams: map<string, Handle>
    var contexts: map<Handle, Context>
    var scheduler: map<string, Entry>
    var next: Handle

    ghost function State(): Registry
      reads this
    {
      Registry(streams, contexts, scheduler, next)
    }

    ghost function LoopState(): Loop
      reads this
    {
      Loop(State(), pendingStopStreams)
    }

    constructor (agentId: string)
      ensures Orderly(LoopState()) && Runs(State(), map[]) && pendingStopStreams == []
      ensures configs == Received(agentId, []) && !hasPendingConfig
    {
      this.agentId, configs, hasPendingConfig, pendingStopStreams := agentId, map[], false, [];
      streams, contexts, scheduler, next := map[], map[], map[], 0;
    }

    method HandleSocketConfig(cfg: AgentConfig)
      modifies this`configs, this`hasPendingConfig
      ensures configs == Arrive(agentId, old(configs), cfg)
      ensures cfg.agentId == "" || cfg.agentId == agentId ==> configs == old(configs)[cfg.configId := cfg] && hasPendingConfig
      ensures cfg.agentId != "" && cfg.agentId != agentId ==> configs == old(configs) && hasPendingConfig == old(hasPendingConfig)
    {
      if cfg.agentId != "" && cfg.agentId != agentId {
        return;
      }
      configs := configs[cfg.configId := cfg];
      hasPendingConfig := true;
    }

    method RequestAsyncStopStream(h: Handle)
      requires h in contexts && Orderly(LoopState())
      modifies this`contexts, this`streams, this`pendingStopStreams
      ensures LoopState() == Step(old(LoopState()), RequestStop(h)) && Orderly(LoopState())
    {
      StepKeepsOrder(LoopState(), RequestStop(h));
      if contexts[h].stopped {
        return;
      }
      var id := contexts[h].streamId;
      contexts := contexts[h := contexts[h].(stopped := true)];
      if id in streams && streams[id] == h {
        streams := streams - {id};
      }
      pendingStopStreams := pendingStopStreams + [h];
    }

    method StopStream(h: Handle)
      requires h in contexts
      modifies this`contexts, this`scheduler
      ensures State() == Stop(old(State()), h)
    {
      var c := contexts[h];
      contexts := contexts[h := c.(stopped := true)];
      scheduler := scheduler - {c.streamId};
    }

    method UpdateStreamRuntime(id: string, config: StreamConfig)
      requires id in streams && streams[id] in contexts
      modifies this`contexts, this`scheduler
      ensures State() == Update(old(State()), id, config)
    {
      var h := streams[id];
      var c := contexts[h].(runtime := config);
      var same := SameAlgorithms(c.detectorFor, config.algorithms);
      if !same {
        c := c.(detectorFor := config.algorithms, reloads := c.reloads + 1);
      }
      contexts := contexts[h := c];
      scheduler := scheduler[id := Entry(config, h)];
    }

    method BuildStreamContext(config: StreamConfig) returns (h: Handle)
      modifies this`contexts, this`scheduler, this`next
      ensures h == old(next) && next == h + 1
      ensures contexts == old(contexts)[h := Built(config, true)]
      ensures scheduler == old(scheduler)[config.streamId := Entry(config, h)]
    {
      h := next;
      next := next + 1;
      contexts := contexts[h := Context(config.streamId, Transport(config), config, config.algorithms, 0, false)];
      scheduler := scheduler[config.streamId := Entry(config, h)];
    }

    /** The loop body of the builds: a context that asked to be stopped by then is stopped, not registered. */
    method StartStream(config: StreamConfig, flagged: bool)
      modifies this`streams, this`contexts, this`scheduler, this`next, this`pendingStopStreams
      ensures State() == Start(old(State()), config, !flagged)
      ensures pendingStopStreams == old(pendingStopStreams) + (if flagged then [old(next)] else [])
    {
      var h := BuildStreamContext(config);
      if flagged {
        pendingStopStreams := pendingStopStreams + [h];
        StopStream(h);
        assert scheduler == old(scheduler) - {config.streamId};
        return;
      }
      streams := streams[config.streamId := h];
    }

    /** What the first loop of the locked section does with one running stream. */
    method Judge(id: string, desired: map<string, StreamConfig>, ghost r: Registry) returns (verdict: Verdict)
      requires Linked(r) && contexts == r.contexts && id in streams && id in r.streams && streams[id] == r.streams[id]
      ensures IsVerdict(r, desired, id, verdict)
    {
      if id !in desired {
        return Drop;
      }
      if !IsSameTransport(contexts[streams[id]].transport, desired[id]) {
        return Move;
      }
      var same := IsSameRuntime(contexts[streams[id]].runtime, desired[id]);
      return if same then Leave else Refresh;
    }

    /** The first loop of the locked section: running streams that go are erased and their contexts
        collected. */
    method DiffRunning(desired: map<string, StreamConfig>)
        returns (streamsToStop: seq<Handle>, ghost stop: seq<string>, update: seq<string>, moves: seq<string>)
      requires Linked(State())
      modifies this`streams
      ensures Diffed(old(State()), desired, {}, stop, update, moves)
      ensures State() == Erase(old(State()), stop)
      ensures streamsToStop == HandlesOf(old(streams), stop)
    {
      ghost var r := State();
      streamsToStop, stop, update, moves := [], [], [], [];
      var rest := streams.Keys;
      NothingDiffed(r, desired);
      while exists id :: id in rest
        invariant Diffing(r, desired, rest, stop, update, moves, streams, streamsToStop)
        decreases |rest|
      {
        var id :| id in rest;
        StillRunning(r, desired, rest, stop, update, moves, streams, streamsToStop, id);
        var verdict := Judge(id, desired, r);
        DiffingOneMore(r, desired, rest, stop, update, moves, streams, streamsToStop, id, verdict);
        rest := rest - {id};
        if verdict.Drop? || verdict.Move? {
          streamsToStop := streamsToStop + [streams[id]];
          streams := streams - {id};
          stop := stop + [id];
        }
        if verdict.Move? {
          moves := moves + [id];
        }
        if verdict.Refresh? {
          update := update + [id];
        }
      }
      assert rest == {};
    }

    /** The second loop: desired streams that are not running, the ones just erased among them. */
    method FindMissing(desired: map<string, StreamConfig>) returns (missing: seq<string>)
      ensures NoRepeats(missing) && forall id :: id in missing <==> id in desired && id !in streams
    {
      missing := [];
      var rest := desired.Keys;
      while exists id :: id in rest
        invariant NoRepeats(missing) && rest <= desired.Keys
        invariant forall id :: id in missing <==> id in desired && id !in rest && id !in streams
        decreases |rest|
      {
        var id :| id in rest;
        rest := rest - {id};
        if id !in streams {
          missing := missing + [id];
        }
      }
    }

    method StopStreams(handles: seq<Handle>)
      requires forall h :: h in handles ==> h in contexts
      modifies this`contexts, this`scheduler
      ensures State() == StopAll(old(State()), handles)
    {
      ghost var r := State();
      for i := 0 to |handles|
        invariant State() == StopAll(r, handles[..i])
      {
        assert handles[..i + 1][..i] == handles[..i];
        StopStream(handles[i]);
      }
      assert handles[..|handles|] == handles;
    }

    method UpdateStreams(desired: map<string, StreamConfig>, ids: seq<string>)
      requires forall id :: id in ids ==> id in desired && id in streams && streams[id] in contexts
      modifies this`contexts, this`scheduler
      ensures State() == UpdateAll(old(State()), desired, ids)
    {
      ghost var r := State();
      for i := 0 to |ids|
        invariant State() == UpdateAll(r, desired, ids[..i])
      {
        assert ids[..i + 1][..i] == ids[..i];
        UpdateStreamRuntime(ids[i], desired[ids[i]]);
      }
      assert ids[..|ids|] == ids;
    }

    method StartStreams(desired: map<string, StreamConfig>, ids: seq<string>, started: nat -> bool)
      requires Keyed(desired) && forall id :: id in ids ==> id in desired
      modifies this`streams, this`contexts, this`scheduler, this`next, this`pendingStopStreams
      ensures State() == StartAll(old(State()), desired, ids, started)
      ensures pendingStopStreams == old(pendingStopStreams) + Flagged(old(next), |ids|, started)
    {
      ghost var r, pending := State(), pendingStopStreams;
      for i := 0 to |ids|
        invariant State() == StartAll(r, desired, ids[..i], started)
        invariant pendingStopStreams == pending + Flagged(r.next, i, started)
      {
        assert ids[..i + 1][..i] == ids[..i];
        StartStream(desired[ids[i]], !started(i));
      }
      assert ids[..|ids|] == ids;
    }

    /** applyConfigBatch; started(k) says whether the k-th context has not asked to be stopped by the time it is to
        be registered. */
    method ApplyConfigBatch(configs: map<int, AgentConfig>, started: nat -> bool) returns (ghost p: Plan)
      requires WellFormed(State())
      modifies this`streams, this`contexts, this`scheduler, this`next, this`pendingStopStreams
      ensures Plans(old(State()), DesiredStreams(configs), p)
      ensures State() == Applied(old(State()), DesiredStreams(configs), p, started)
      ensures pendingStopStreams == old(pendingStopStreams) + Flagged(old(next), |p.Starts()|, started)
    {
      var desired := BuildMergedStreams(configs);
      ghost var r := State();
      var streamsToStop, update, moves;
      ghost var stop;
      streamsToStop, stop, update, moves := DiffRunning(desired);
      var missing := FindMissing(desired);
      p := Plan(stop, update, moves, missing);
      PlanIsComplete(r, desired, p);
      StopStreams(streamsToStop);
      UpdateStreams(desired, update);
      StartStreams(desired, moves + missing, started);
    }

    /** The requests that the main loop has taken. */
    method ServePendingStops()
      requires Orderly(LoopState())
      modifies this`contexts, this`scheduler, this`pendingStopStreams
      ensures LoopState() == Step(old(LoopState()), ServeStops) && Orderly(LoopState())
    {
      StepKeepsOrder(LoopState(), ServeStops);
      var streamsToStop := pendingStopStreams;
      pendingStopStreams := [];
      StopStreams(streamsToStop);
    }

    /** One round of mainLoop: what is pending is stopped, then what has arrived is applied. */
    method MainLoopRound(started: nat -> bool) returns (ghost p: Plan)
      requires Orderly(LoopState())
      modifies this`hasPendingConfig, this`streams, this`contexts, this`scheduler, this`next, this`pendingStopStreams
      ensures !hasPendingConfig && Orderly(LoopState())
      ensures !old(hasPendingConfig) ==> LoopState() == Step(old(LoopState()), ServeStops)
      ensures old(hasPendingConfig) ==>
        var r := Step(old(LoopState()), ServeStops).registry;
        && Plans(r, DesiredStreams(configs), p)
        && LoopState() == AfterBatch(r, DesiredStreams(configs), p, started)
    {
      var hasConfigUpdate := hasPendingConfig;
      hasPendingConfig := false;
      ServePendingStops();
      p := Plan([], [], [], []);
      if hasConfigUpdate {
        ghost var r := State();
        p := ApplyConfigBatch(configs, started);
        BatchIsOrderly(r, DesiredStreams(configs), p, started);
      }
    }
  }

  lemma PlanIsComplete(r: Registry, desired: map<string, StreamConfig>, p: Plan)
    requires WellFormed(r) && Keyed(desired) && Diffed(r, desired, {}, p.stop, p.update, p.moves)
    requires NoRepeats(p.missing)
    requires forall id :: id in p.missing <==> id in desired && id !in Erase(r, p.stop).streams
    ensures Plans(r, desired, p)
  {
  }
}
