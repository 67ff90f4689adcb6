/** src/pipeline/ConfigFilter.cpp: the fold that merges all configurations into one per stream, and the
    relations that decide whether a running stream is restarted, updated or left alone. */
module ConfigFilter {
  import opened Common
  import opened MergeRules

  // ---------------------------------------------------------------------------------------------
  // Relations
  // ---------------------------------------------------------------------------------------------

  /** isSameTransportStreamConfig: the deduplication interval does not take part. */
  predicate IsSameTransport(a: StreamConfig, b: StreamConfig) {
    && a.enabled == b.enabled && a.streamId == b.streamId && a.rtspUrl == b.rtspUrl && a.newRtspUrl == b.newRtspUrl
    && a.reconnectIntervalS == b.reconnectIntervalS && a.alarmSnapshotDir == b.alarmSnapshotDir
    && a.alarmRecordDir == b.alarmRecordDir && a.alarmRecordDurationS == b.alarmRecordDurationS
  }

  /** That is equality up to the algorithms, the tracker and the deduplication interval. */
  lemma SameTransportMeans(a: StreamConfig, b: StreamConfig)
    ensures IsSameTransport(a, b)
      <==> a.(algorithms := b.algorithms, tracker := b.tracker, alarmDedupIntervalS := b.alarmDedupIntervalS) == b
  {
  }

  /** The operator== loops over algorithms, hence hasDetectorConfigChanged up to the sign. */
  method SameAlgorithms(a: seq<AlgorithmConfig>, b: seq<AlgorithmConfig>) returns (same: bool)
    ensures same <==> a == b
  {
    if |a| != |b| {
      return false;
    }
    for i := 0 to |a|
      invariant a[..i] == b[..i]
    {
      if a[i] != b[i] {
        return false;
      }
    }
    return true;
  }

  method IsSameRuntime(a: StreamConfig, b: StreamConfig) returns (same: bool)
    ensures same <==> a == b
  {
    if !IsSameTransport(a, b) {
      return false;
    }
    if a.alarmDedupIntervalS != b.alarmDedupIntervalS || a.tracker.Some? != b.tracker.Some? {
      return false;
    }
    var algorithms := SameAlgorithms(a.algorithms, b.algorithms);
    if !algorithms {
      return false;
    }
    if a.tracker.None? {
      return true;
    }
    return a.tracker.value == b.tracker.value;
  }

  // ---------------------------------------------------------------------------------------------
  // One stream's merge
  // ---------------------------------------------------------------------------------------------

  /** algorithm_index_by_id names exactly the named algorithms, each at its place. */
  ghost predicate IndexAgrees(index: map<string, nat>, algorithms: seq<AlgorithmConfig>) {
    && (forall id :: id in index ==> id != "" && index[id] < |algorithms| && algorithms[index[id]].algorithmId == id)
    && (forall k :: 0 <= k < |algorithms| && algorithms[k].algorithmId != "" ==> algorithms[k].algorithmId in index)
  }

  lemma IndexStep(index: map<string, nat>, algorithms: seq<AlgorithmConfig>, a: AlgorithmConfig)
    requires IndexAgrees(index, algorithms)
    ensures a.algorithmId == "" ==> IndexAgrees(index, algorithms + [a])
    ensures a.algorithmId != "" && a.algorithmId !in index ==>
      !HasId(algorithms, a.algorithmId) && IndexAgrees(index[a.algorithmId := |algorithms|], algorithms + [a])
    ensures a.algorithmId in index ==> IndexAgrees(index, algorithms[index[a.algorithmId] := a])
  {
  }

  lemma {:induction false} MentionsGrow(mentions: seq<StreamConfig>, stream: StreamConfig)
    ensures AllAlgorithms(mentions + [stream]) == AllAlgorithms(mentions) + stream.algorithms
    ensures LastTracker(mentions + [stream]) == if stream.tracker.Some? then stream.tracker else LastTracker(mentions)
  {
    assert (mentions + [stream])[..|mentions|] == mentions;
  }

  const DISABLED_TRACKER: TrackerConfig := TrackerConfig(false, "", 0.0, 0.0, 0.0, 0.0, 0.0, 0, 0)
  const EMPTY_CONFIG: StreamConfig := StreamConfig(false, "", "", "", 0, "", "", 0, 0, [], None)

  class StreamMergeState {
    var hasBaseConfig: bool
    var baseConfig: StreamConfig
    var algorithms: seq<AlgorithmConfig>
    var algorithmIndexById: map<string, nat>
    var trackerConfig: Option<TrackerConfig>
    var trackerDisableConfig: Option<TrackerConfig>
    var trackerExplicitlyDisabled: bool

    /** The mentions of the stream merged so far. */
    ghost var mentions: seq<StreamConfig>
    ghost const streamId: string

    ghost predicate AlgorithmsAgree(all: seq<AlgorithmConfig>)
      reads this
    {
      algorithms == MergedAlgorithms(all) && IndexAgrees(algorithmIndexById, algorithms)
    }

    ghost predicate TrackerAgrees(last: Option<TrackerConfig>)
      reads this
    {
      && trackerExplicitlyDisabled == trackerDisableConfig.Some?
      && !(trackerDisableConfig.Some? && trackerConfig.Some?)
      && (if trackerExplicitlyDisabled then trackerDisableConfig else trackerConfig) == last
    }

    ghost predicate Valid()
      reads this
    {
      && hasBaseConfig == (mentions != [])
      && (mentions != [] ==> baseConfig == Transport(mentions[|mentions| - 1]))
      && AlgorithmsAgree(AllAlgorithms(mentions))
      && TrackerAgrees(LastTracker(mentions))
    }

    constructor (ghost id: string)
      ensures Valid() && mentions == [] && streamId == id
    {
      streamId := id;
      hasBaseConfig := false;
      baseConfig := EMPTY_CONFIG;
      algorithms, algorithmIndexById := [], map[];
      trackerConfig, trackerDisableConfig, trackerExplicitlyDisabled := None, None, false;
      mentions := [];
    }

    /** The loop body of mergeAlgorithms. */
    method MergeAlgorithm(algorithm: AlgorithmConfig, ghost all: seq<AlgorithmConfig>)
      requires AlgorithmsAgree(all)
      modifies this`algorithms, this`algorithmIndexById
      ensures AlgorithmsAgree(all + [algorithm])
    {
      var id := algorithm.algorithmId;
      IndexStep(algorithmIndexById, algorithms, algorithm);
      if id == "" {
        MergeNewOne(all, algorithm);
        algorithms := algorithms + [algorithm];
        return;
      }
      if id !in algorithmIndexById {
        NamesAreCovered(all, id);
        MergeNewOne(all, algorithm);
        algorithmIndexById := algorithmIndexById[id := |algorithms|];
        algorithms := algorithms + [algorithm];
        return;
      }
      MergeNamesake(all, algorithm, algorithmIndexById[id]);
      algorithms := algorithms[algorithmIndexById[id] := algorithm];
    }

    method MergeAlgorithms(stream: StreamConfig, ghost all: seq<AlgorithmConfig>)
      requires AlgorithmsAgree(all)
      modifies this`algorithms, this`algorithmIndexById
      ensures AlgorithmsAgree(all + stream.algorithms)
    {
      ghost var now := all;
      for i := 0 to |stream.algorithms|
        invariant now == all + stream.algorithms[..i]
        invariant AlgorithmsAgree(now)
      {
        MergeAlgorithm(stream.algorithms[i], now);
        now := now + [stream.algorithms[i]];
      }
      assert now == all + stream.algorithms;
    }

    method MergeTracker(stream: StreamConfig, ghost last: Option<TrackerConfig>)
      requires TrackerAgrees(last)
      modifies this`trackerConfig, this`trackerDisableConfig, this`trackerExplicitlyDisabled
      ensures TrackerAgrees(if stream.tracker.Some? then stream.tracker else last)
    {
      if stream.tracker.None? {
        return;
      }
      if !stream.tracker.value.enabled {
        trackerExplicitlyDisabled := true;
        trackerDisableConfig := stream.tracker;
        trackerConfig := None;
        return;
      }
      trackerExplicitlyDisabled := false;
      trackerDisableConfig := None;
      trackerConfig := stream.tracker;
    }

    /** The part of buildMergedStreams that works on one state. */
    method Merge(stream: StreamConfig)
      requires Valid()
      modifies this`hasBaseConfig, this`baseConfig, this`algorithms, this`algorithmIndexById
      modifies this`trackerConfig, this`trackerDisableConfig, this`trackerExplicitlyDisabled, this`mentions
      ensures Valid() && mentions == old(mentions) + [stream]
    {
      baseConfig := Transport(stream);
      hasBaseConfig := true;
      MergeAlgorithms(stream, AllAlgorithms(mentions));
      MergeTracker(stream, LastTracker(mentions));
      MentionsGrow(mentions, stream);
      mentions := mentions + [stream];
    }

    /** finalizeMergedStreamConfig. */
    method Finalize() returns (merged: StreamConfig)
      requires Valid() && mentions != []
      ensures merged == Meaning(mentions)
    {
      merged := baseConfig.(algorithms := [], tracker := None);
      for i := 0 to |algorithms|
        invariant merged == baseConfig.(algorithms := algorithms[..i], tracker := None)
      {
        merged := merged.(algorithms := merged.algorithms + [algorithms[i]]);
      }
      if trackerExplicitlyDisabled {
        merged := merged.(tracker := if trackerDisableConfig.Some? then trackerDisableConfig else Some(DISABLED_TRACKER));
      } else if trackerConfig.Some? {
        merged := merged.(tracker := trackerConfig);
      }
    }
  }

  // ---------------------------------------------------------------------------------------------
  // All streams
  // ---------------------------------------------------------------------------------------------

  type States = map<string, StreamMergeState>

  /** One state object per id, its own, holding exactly the mentions of that id. */
  ghost predicate Holds(states: States, seen: seq<StreamConfig>)
    reads states.Values
  {
    forall id :: id in states ==>
      states[id].streamId == id && states[id].Valid() && states[id].mentions == Occurrences(seen, id)
  }

  /** ... and one for exactly the ids of accepted streams. */
  ghost predicate Represents(states: States, seen: seq<StreamConfig>)
    reads states.Values
  {
    Holds(states, seen) && states.Keys == Ids(seen)
  }

  lemma IdsOfMore(seen: seq<StreamConfig>, stream: StreamConfig)
    ensures Ids(seen + [stream]) == if Accepted(stream) then Ids(seen) + {stream.streamId} else Ids(seen)
  {
    forall c | c in seen ensures c in seen + [stream] {}
    if Accepted(stream) { assert stream in seen + [stream]; }
  }

  lemma {:induction false} MentionIsKnown(seen: seq<StreamConfig>, id: string)
    requires Occurrences(seen, id) != []
    ensures id in Ids(seen)
  {
    assert Occurrences(seen, id)[0] in Occurrences(seen, id);
  }

  lemma {:induction false} NoMentionYet(seen: seq<StreamConfig>, id: string)
    requires id !in Ids(seen)
    ensures Occurrences(seen, id) == []
  {
    if Occurrences(seen, id) != [] { MentionIsKnown(seen, id); }
  }

  lemma {:induction false} OneMoreState(states: States, more: States, id: string, state: StreamMergeState, seen: seq<StreamConfig>)
    requires Holds(states, seen) && more == states[id := state]
    requires state.streamId == id && state.Valid() && state.mentions == Occurrences(seen, id)
    ensures Holds(more, seen) && more.Keys == states.Keys + {id}
  {
    forall i | i in more
      ensures more[i].streamId == i && more[i].Valid() && more[i].mentions == Occurrences(seen, i)
    {
      if i != id { assert i in states && more[i] == states[i]; }
    }
    assert forall i :: i in more <==> i in states || i == id;
  }

  /** merged_states[stream_id]: the state of the stream, made on first use. */
  method StateOf(states: States, id: string, ghost seen: seq<StreamConfig>) returns (r: States)
    requires Represents(states, seen)
    ensures Holds(r, seen) && r.Keys == states.Keys + {id}
    ensures forall i :: i in r ==> if i in states then r[i] == states[i] else fresh(r[i])
  {
    r := states;
    if id !in states {
      NoMentionYet(seen, id);
      var state := new StreamMergeState(id);
      r := states[id := state];
      OneMoreState(states, r, id, state, seen);
    }
  }

  method MergeInto(states: States, stream: StreamConfig, ghost seen: seq<StreamConfig>)
    requires Holds(states, seen) && stream.streamId in states && Accepted(stream)
    modifies states[stream.streamId]
    ensures Holds(states, seen + [stream])
  {
    var state := states[stream.streamId];
    state.Merge(stream);
    forall id | id in states
      ensures states[id].streamId == id && states[id].Valid() && states[id].mentions == Occurrences(seen + [stream], id)
    {
      OneMoreMention(seen, stream, id);
      if id != stream.streamId { assert states[id] != state; }
    }
  }

  lemma SkippedMention(states: States, stream: StreamConfig, seen: seq<StreamConfig>)
    requires Holds(states, seen) && !Accepted(stream)
    ensures Holds(states, seen + [stream])
  {
    forall id | id in states ensures Occurrences(seen + [stream], id) == Occurrences(seen, id) {
      OneMoreMention(seen, stream, id);
    }
  }

  /** The loop body of buildMergedStreams. */
  method MergeStream(states: States, stream: StreamConfig, ghost seen: seq<StreamConfig>) returns (r: States)
    requires Represents(states, seen)
    modifies states.Values
    ensures Represents(r, seen + [stream])
    ensures forall i :: i in r ==> fresh(r[i]) || (i in states && r[i] == states[i])
    ensures !stream.enabled || stream.streamId == "" || stream.rtspUrl == "" ==> r == states
    ensures stream.enabled && stream.streamId != "" && stream.rtspUrl != "" ==> stream.streamId in r
  {
    IdsOfMore(seen, stream);
    if !stream.enabled {
      SkippedMention(states, stream, seen);
      return states;
    }
    if stream.streamId == "" {
      SkippedMention(states, stream, seen);
      return states;
    }
    if stream.rtspUrl == "" {
      SkippedMention(states, stream, seen);
      return states;
    }
    r := StateOf(states, stream.streamId, seen);
    MergeInto(r, stream, seen);
  }

  method MergeAgentConfig(states: States, agentConfig: AgentConfig, ghost seen: seq<StreamConfig>) returns (r: States)
    requires Represents(states, seen)
    modifies states.Values
    ensures Represents(r, seen + agentConfig.streams)
    ensures forall i :: i in r ==> fresh(r[i]) || (i in states && r[i] == states[i])
  {
    r := states;
    ghost var now := seen;
    for i := 0 to |agentConfig.streams|
      invariant SeenSoFar(agentConfig.streams, i, seen, now)
      invariant Represents(r, now)
      invariant forall id :: id in r ==> fresh(r[id]) || (id in states && r[id] == states[id])
    {
      r := MergeStream(r, agentConfig.streams[i], now);
      SeenOneMore(agentConfig.streams, i, seen, now);
      now := now + [agentConfig.streams[i]];
    }
    SeenAll(agentConfig.streams, seen, now);
  }

  ghost predicate SeenSoFar(streams: seq<StreamConfig>, i: nat, seen: seq<StreamConfig>, now: seq<StreamConfig>) {
    i <= |streams| && now == seen + streams[..i]
  }

  lemma SeenOneMore(streams: seq<StreamConfig>, i: nat, seen: seq<StreamConfig>, now: seq<StreamConfig>)
    requires i < |streams| && SeenSoFar(streams, i, seen, now)
    ensures SeenSoFar(streams, i + 1, seen, now + [streams[i]])
  {
    assert streams[..i + 1] == streams[..i] + [streams[i]];
  }

  lemma SeenAll(streams: seq<StreamConfig>, seen: seq<StreamConfig>, now: seq<StreamConfig>)
    requires SeenSoFar(streams, |streams|, seen, now)
    ensures now == seen + streams
  {
  }

  lemma MinExists(s: set<int>)
    requires exists k :: k in s
    ensures exists m :: m in s && forall k :: k in s ==> m <= k
  {
    var x :| x in s;
    if exists y :: y in s - {x} {
      MinExists(s - {x});
      var m :| m in s - {x} && forall k :: k in s - {x} ==> m <= k;
      assert forall k :: k in s ==> k == x || k in s - {x};
      var bottom := Min(x, m);
      assert bottom in s;
    } else {
      assert forall k :: k in s ==> k == x || k in s - {x};
    }
  }

  method Smallest(s: set<int>) returns (m: int)
    requires exists k :: k in s
    ensures m in s && forall k :: k in s ==> m <= k
  {
    MinExists(s);
    m :| m in s && forall k :: k in s ==> m <= k;
  }

  /** The configurations in `done`, all before those in `rest`, gave the streams in `seen`. */
  ghost predicate DoneBefore(configs: map<int, AgentConfig>, done: set<int>, rest: set<int>, seen: seq<StreamConfig>) {
    && done + rest == configs.Keys && (forall i, j :: i in done && j in rest ==> i < j)
    && seen == StreamsOf(configs, done)
  }

  lemma NothingDone(configs: map<int, AgentConfig>)
    ensures DoneBefore(configs, {}, configs.Keys, [])
  {
  }

  lemma {:induction false} DoneCompletely(configs: map<int, AgentConfig>, done: set<int>, rest: set<int>, seen: seq<StreamConfig>)
    requires DoneBefore(configs, done, rest, seen) && !exists k :: k in rest
    ensures seen == StreamsOf(configs, configs.Keys)
  {
    assert forall k :: k in done + rest <==> k in done;
    assert done + rest == done;
  }

  lemma DoneOneMore(configs: map<int, AgentConfig>, done: set<int>, rest: set<int>, seen: seq<StreamConfig>, id: int)
    requires DoneBefore(configs, done, rest, seen) && id in rest && forall k :: k in rest ==> id <= k
    ensures id in configs && DoneBefore(configs, done + {id}, rest - {id}, seen + configs[id].streams)
    ensures |rest - {id}| < |rest|
  {
    StreamsOfOneMore(configs, done, id);
  }

  /** The next round of the iteration below. */
  method MergeNext(states: States, configs: map<int, AgentConfig>, rest: set<int>, ghost done: set<int>,
                   ghost seen: seq<StreamConfig>) returns (r: States, configId: int)
    requires DoneBefore(configs, done, rest, seen) && Represents(states, seen) && exists k :: k in rest
    modifies states.Values
    ensures configId in configs && |rest - {configId}| < |rest|
    ensures DoneBefore(configs, done + {configId}, rest - {configId}, seen + configs[configId].streams)
    ensures Represents(r, seen + configs[configId].streams)
    ensures forall i :: i in r ==> fresh(r[i]) || (i in states && r[i] == states[i])
  {
    configId := Smallest(rest);
    DoneOneMore(configs, done, rest, seen, configId);
    r := MergeAgentConfig(states, configs[configId], seen);
  }

  /** The iteration over the ordered map of configurations. */
  method MergeAll(configs: map<int, AgentConfig>) returns (r: States, ghost seen: seq<StreamConfig>)
    ensures Represents(r, seen) && seen == StreamsOf(configs, configs.Keys)
    ensures forall i :: i in r ==> fresh(r[i])
  {
    r, seen := map[], [];
    var rest := configs.Keys;
    ghost var done: set<int> := {};
    NothingDone(configs);
    while exists k :: k in rest
      invariant DoneBefore(configs, done, rest, seen)
      invariant Represents(r, seen)
      invariant forall i :: i in r ==> fresh(r[i])
      decreases |rest|
    {
      var configId;
      r, configId := MergeNext(r, configs, rest, done, seen);
      seen := seen + configs[configId].streams;
      rest := rest - {configId};
      done := done + {configId};
    }
    DoneCompletely(configs, done, rest, seen);
  }

  ghost predicate FinalizesTo(state: StreamMergeState, merged: StreamConfig)
    reads state
  {
    state.Valid() && state.mentions != [] && Meaning(state.mentions) == merged
  }

  method FinalizeOne(state: StreamMergeState, ghost expected: StreamConfig) returns (merged: StreamConfig)
    requires FinalizesTo(state, expected)
    ensures merged == expected
  {
    merged := state.Finalize();
  }

  ghost predicate Ready(states: States, expected: map<string, StreamConfig>)
    reads states.Values
  {
    && (forall id :: id in states <==> id in expected)
    && (forall id :: id in states ==> FinalizesTo(states[id], expected[id]))
  }

  /** The loop that fills desired_streams. */
  method FinalizeAll(states: States, ghost expected: map<string, StreamConfig>) returns (desired: map<string, StreamConfig>)
    requires Ready(states, expected)
    ensures desired == expected
  {
    desired := map[];
    var rest := states.Keys;
    while exists id :: id in rest
      invariant FilledExcept(desired, rest, expected)
      decreases |rest|
    {
      var id :| id in rest;
      assert FinalizesTo(states[id], expected[id]);
      var merged := FinalizeOne(states[id], expected[id]);
      assert merged == expected[id];
      FilledOneMore(desired, rest, expected, id);
      desired := desired[id := merged];
      rest := rest - {id};
    }
    FilledCompletely(desired, rest, expected);
  }

  lemma FilledCompletely(desired: map<string, StreamConfig>, rest: set<string>, expected: map<string, StreamConfig>)
    requires FilledExcept(desired, rest, expected) && !exists id :: id in rest
    ensures desired == expected
  {
    assert forall id :: id in desired <==> id in expected;
  }

  ghost predicate FilledExcept(desired: map<string, StreamConfig>, rest: set<string>, expected: map<string, StreamConfig>) {
    && (forall id :: id in expected <==> id in rest || id in desired)
    && (forall id :: id in desired ==> desired[id] == expected[id])
  }

  lemma FilledOneMore(desired: map<string, StreamConfig>, rest: set<string>, expected: map<string, StreamConfig>, id: string)
    requires FilledExcept(desired, rest, expected) && id in rest
    ensures FilledExcept(desired[id := expected[id]], rest - {id}, expected) && |rest - {id}| < |rest|
  {
  }

  lemma MentionsMeanTheDesired(states: States, seen: seq<StreamConfig>, id: string)
    requires Represents(states, seen) && id in states
    ensures FinalizesTo(states[id], Desired(seen)[id])
  {
    var c :| c in seen && Accepted(c) && c.streamId == id;
    assert c in Occurrences(seen, id);
  }

  lemma ReadyToFinalize(states: States, seen: seq<StreamConfig>)
    requires Represents(states, seen)
    ensures Ready(states, Desired(seen))
  {
    forall id | id in states ensures FinalizesTo(states[id], Desired(seen)[id]) {
      MentionsMeanTheDesired(states, seen, id);
    }
  }

  /** buildMergedStreams computes the declarative meaning of the configurations. */
  method BuildMergedStreams(configs: map<int, AgentConfig>) returns (desired: map<string, StreamConfig>)
    ensures desired == DesiredStreams(configs)
    ensures forall id :: id in desired <==> exists k, c :: k in configs && c in configs[k].streams && AsksFor(c, id)
  {
    forall id ensures id in DesiredStreams(configs) <==> exists k, c :: k in configs && c in configs[k].streams && AsksFor(c, id) {
      AskedForIff(configs, id);
    }
    var states: States;
    ghost var seen;
    states, seen := MergeAll(configs);
    ReadyToFinalize(states, seen);
    desired := FinalizeAll(states, Desired(seen));
  }
}
