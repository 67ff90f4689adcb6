/** Pipeline::handleSocketConfig (src/pipeline/Pipeline.cpp): configurations arrive in any order and are kept
    by their ids; whose word counts is decided by the ids. */
module ConfigArrival {
  import opened Common
  import opened MergeRules

  // ---------------------------------------------------------------------------------------------
  // Arrivals
  // ---------------------------------------------------------------------------------------------

  /** Is the configuration for this agent, or for any? */
  predicate ForUs(local: string, cfg: AgentConfig) { cfg.agentId == "" || cfg.agentId == local }

  /** One arrival: a configuration for another agent is ignored, any other replaces the one with its id. */
  function Arrive(local: string, configs: map<int, AgentConfig>, cfg: AgentConfig): map<int, AgentConfig> {
    if ForUs(local, cfg) then configs[cfg.configId := cfg] else configs
  }

  lemma ArrivingMeans(local: string, configs: map<int, AgentConfig>, cfg: AgentConfig)
    ensures cfg.agentId == "" || cfg.agentId == local ==> Arrive(local, configs, cfg) == configs[cfg.configId := cfg]
    ensures cfg.agentId != "" && cfg.agentId != local ==> Arrive(local, configs, cfg) == configs
  {
  }

  function Received(local: string, arrivals: seq<AgentConfig>): map<int, AgentConfig>
    decreases |arrivals|
  {
    if arrivals == [] then map[]
    else Arrive(local, Received(local, arrivals[..|arrivals| - 1]), arrivals[|arrivals| - 1])
  }

  predicate Carries(local: string, cfg: AgentConfig, k: int) { ForUs(local, cfg) && cfg.configId == k }

  /** Is arrival n the last one for us with the id k? */
  predicate IsLatest(local: string, arrivals: seq<AgentConfig>, k: int, n: nat)
    requires n < |arrivals|
  {
    Carries(local, arrivals[n], k) && forall j :: n < j < |arrivals| ==> !Carries(local, arrivals[j], k)
  }

  lemma {:induction false} LatestIsKept(local: string, arrivals: seq<AgentConfig>, k: int, n: nat)
    requires n < |arrivals| && IsLatest(local, arrivals, k, n)
    ensures k in Received(local, arrivals) && Received(local, arrivals)[k] == arrivals[n]
    decreases |arrivals|
  {
    var last := |arrivals| - 1;
    if n < last {
      assert !Carries(local, arrivals[last], k);
      LatestIsKept(local, arrivals[..last], k, n);
    }
  }

  lemma {:induction false} KeptHasArrived(local: string, arrivals: seq<AgentConfig>, k: int) returns (n: nat)
    requires k in Received(local, arrivals)
    ensures n < |arrivals| && IsLatest(local, arrivals, k, n)
    decreases |arrivals|
  {
    var last := |arrivals| - 1;
    if Carries(local, arrivals[last], k) {
      n := last;
    } else {
      n := KeptHasArrived(local, arrivals[..last], k);
    }
  }

  /** Of every id the latest arrival is kept, and nothing else: the order among different ids is forgotten. */
  lemma {:induction false} LatestOfEachIdIsKept(local: string, arrivals: seq<AgentConfig>, k: int, cfg: AgentConfig)
    ensures k in Received(local, arrivals) && Received(local, arrivals)[k] == cfg
      <==> exists n :: 0 <= n < |arrivals| && IsLatest(local, arrivals, k, n) && arrivals[n] == cfg
  {
    if n :| 0 <= n < |arrivals| && IsLatest(local, arrivals, k, n) && arrivals[n] == cfg {
      LatestIsKept(local, arrivals, k, n);
    }
    if k in Received(local, arrivals) && Received(local, arrivals)[k] == cfg {
      var n := KeptHasArrived(local, arrivals, k);
      LatestIsKept(local, arrivals, k, n);
    }
  }

  // ---------------------------------------------------------------------------------------------
  // What is said about a stream
  // ---------------------------------------------------------------------------------------------

  /** What configurations can disagree about. Anonymous algorithms are not among it: all of them are kept. */
  datatype Aspect = TheTransport | TheTracker | TheAlgorithm(algorithmId: string)

  datatype Value = IsTransport(config: StreamConfig) | IsTracker(tracker: TrackerConfig) | IsAlgorithm(algorithm: AlgorithmConfig)

  /** The last word of the mentions of a stream on one aspect of it. */
  function Says(mentions: seq<StreamConfig>, aspect: Aspect): Option<Value> {
    match aspect
    case TheTransport =>
      if mentions == [] then None else Some(IsTransport(Transport(mentions[|mentions| - 1])))
    case TheTracker =>
      if LastTracker(mentions).None? then None else Some(IsTracker(LastTracker(mentions).value))
    case TheAlgorithm(name) => Algorithm(AllAlgorithms(mentions), name)
  }

  function Algorithm(s: seq<AlgorithmConfig>, name: string): Option<Value> {
    if name != "" && HasId(s, name) then Some(IsAlgorithm(s[LastWith(s, name)])) else None
  }

  /** What a merged result holds on one aspect of a stream. */
  function Holds(desired: map<string, StreamConfig>, id: string, aspect: Aspect): Option<Value> {
    if id in desired then HeldBy(desired[id], aspect) else None
  }

  function HeldBy(merged: StreamConfig, aspect: Aspect): Option<Value> {
    match aspect
    case TheTransport => Some(IsTransport(Transport(merged)))
    case TheTracker => if merged.tracker.None? then None else Some(IsTracker(merged.tracker.value))
    case TheAlgorithm(name) => Algorithm(merged.algorithms, name)
  }

  lemma MergedAlgorithmsHoldTheLast(all: seq<AlgorithmConfig>, name: string)
    ensures Algorithm(MergedAlgorithms(all), name) == Algorithm(all, name)
  {
    if name != "" { NamesAreCovered(all, name); }
  }

  lemma MeaningHoldsTheLastWord(mentions: seq<StreamConfig>, aspect: Aspect)
    requires mentions != []
    ensures HeldBy(Meaning(mentions), aspect) == Says(mentions, aspect)
  {
    if aspect.TheAlgorithm? { MergedAlgorithmsHoldTheLast(AllAlgorithms(mentions), aspect.algorithmId); }
  }

  lemma {:induction false} MergedHoldsTheLastWord(s: seq<StreamConfig>, id: string, aspect: Aspect)
    ensures Holds(Desired(s), id, aspect) == Says(Occurrences(s, id), aspect)
  {
    IdsOfOccurrences(s, id);
    if id in Ids(s) {
      MeaningHoldsTheLastWord(Occurrences(s, id), aspect);
      assert Holds(Desired(s), id, aspect) == HeldBy(Meaning(Occurrences(s, id)), aspect);
    }
  }

  lemma {:induction false} IdsOfOccurrences(s: seq<StreamConfig>, id: string)
    ensures id in Ids(s) <==> Occurrences(s, id) != []
  {
    if Occurrences(s, id) != [] { assert Occurrences(s, id)[0] in Occurrences(s, id); }
  }

  // ---------------------------------------------------------------------------------------------
  // Later mentions overrule earlier ones
  // ---------------------------------------------------------------------------------------------

  lemma {:induction false} OccurrencesJoin(s: seq<StreamConfig>, t: seq<StreamConfig>, id: string)
    ensures Occurrences(s + t, id) == Occurrences(s, id) + Occurrences(t, id)
    decreases |t|
  {
    if t == [] {
      assert s + t == s;
    } else {
      assert (s + t)[..|s + t| - 1] == s + t[..|t| - 1];
      OccurrencesJoin(s, t[..|t| - 1], id);
    }
  }

  lemma {:induction false} AlgorithmsJoin(s: seq<StreamConfig>, t: seq<StreamConfig>)
    ensures AllAlgorithms(s + t) == AllAlgorithms(s) + AllAlgorithms(t)
    decreases |t|
  {
    if t == [] {
      assert s + t == s;
    } else {
      assert (s + t)[..|s + t| - 1] == s + t[..|t| - 1];
      AlgorithmsJoin(s, t[..|t| - 1]);
    }
  }

  lemma {:induction false} TrackersJoin(s: seq<StreamConfig>, t: seq<StreamConfig>)
    ensures LastTracker(s + t) == if LastTracker(t).Some? then LastTracker(t) else LastTracker(s)
    decreases |t|
  {
    if t == [] {
      assert s + t == s;
    } else {
      assert (s + t)[..|s + t| - 1] == s + t[..|t| - 1];
      TrackersJoin(s, t[..|t| - 1]);
    }
  }

  lemma {:induction false} NamesJoin(s: seq<AlgorithmConfig>, t: seq<AlgorithmConfig>, name: string)
    ensures Algorithm(s + t, name) == if Algorithm(t, name).Some? then Algorithm(t, name) else Algorithm(s, name)
  {
    if HasId(t, name) {
      assert (s + t)[|s| + LastWith(t, name)].algorithmId == name;
    } else if HasId(s, name) {
      assert (s + t)[LastWith(s, name)].algorithmId == name;
    }
    if HasId(s + t, name) && !HasId(s, name) {
      assert (s + t)[LastWith(s + t, name)] == t[LastWith(s + t, name) - |s|];
    }
  }

  lemma LaterMentionsOverrule(s: seq<StreamConfig>, t: seq<StreamConfig>, aspect: Aspect)
    ensures Says(s + t, aspect) == if Says(t, aspect).Some? then Says(t, aspect) else Says(s, aspect)
  {
    match aspect
    case TheTransport =>
      if t == [] { assert s + t == s; }
    case TheTracker => TrackersJoin(s, t);
    case TheAlgorithm(name) =>
      AlgorithmsJoin(s, t);
      NamesJoin(AllAlgorithms(s), AllAlgorithms(t), name);
  }

  // ---------------------------------------------------------------------------------------------
  // The largest id that says something
  // ---------------------------------------------------------------------------------------------

  /** What one configuration says about a stream. */
  function Word(cfg: AgentConfig, id: string, aspect: Aspect): Option<Value> {
    Says(Occurrences(cfg.streams, id), aspect)
  }

  predicate Speaks(configs: map<int, AgentConfig>, k: int, id: string, aspect: Aspect) {
    k in configs && Word(configs[k], id, aspect).Some?
  }

  /** Is k the largest of the ids that say something? */
  ghost predicate Decides(configs: map<int, AgentConfig>, ids: set<int>, k: int, id: string, aspect: Aspect) {
    k in ids && Speaks(configs, k, id, aspect) && forall j :: j in ids && j > k ==> !Speaks(configs, j, id, aspect)
  }

  ghost predicate Settled(configs: map<int, AgentConfig>, ids: set<int>, id: string, aspect: Aspect, said: Option<Value>) {
    && (said.None? <==> forall k :: k in ids ==> !Speaks(configs, k, id, aspect))
    && (said.Some? ==> exists k :: Decides(configs, ids, k, id, aspect))
    && (forall k :: Decides(configs, ids, k, id, aspect) ==> said == Word(configs[k], id, aspect))
  }

  lemma SettledWithAWord(configs: map<int, AgentConfig>, rest: set<int>, m: int, id: string, aspect: Aspect)
    requires Speaks(configs, m, id, aspect) && forall k :: k in rest ==> k < m
    ensures Settled(configs, rest + {m}, id, aspect, Word(configs[m], id, aspect))
  {
    assert m in rest + {m};
    assert Decides(configs, rest + {m}, m, id, aspect);
  }

  lemma SilentIdsDecideNothing(configs: map<int, AgentConfig>, rest: set<int>, m: int, id: string, aspect: Aspect, k: int)
    requires !Speaks(configs, m, id, aspect)
    ensures Decides(configs, rest + {m}, k, id, aspect) <==> Decides(configs, rest, k, id, aspect)
  {
    assert forall j :: j in rest + {m} <==> j == m || j in rest;
  }

  lemma SettledWithoutAWord(configs: map<int, AgentConfig>, rest: set<int>, m: int, id: string, aspect: Aspect, said: Option<Value>)
    requires !Speaks(configs, m, id, aspect) && Settled(configs, rest, id, aspect, said)
    ensures Settled(configs, rest + {m}, id, aspect, said)
  {
    forall k ensures Decides(configs, rest + {m}, k, id, aspect) <==> Decides(configs, rest, k, id, aspect) {
      SilentIdsDecideNothing(configs, rest, m, id, aspect, k);
    }
  }

  ghost function SaidIn(configs: map<int, AgentConfig>, ids: set<int>, id: string, aspect: Aspect): Option<Value>
    requires ids <= configs.Keys
  {
    Says(Occurrences(StreamsOf(configs, ids), id), aspect)
  }

  lemma {:induction false} LargestDecides(configs: map<int, AgentConfig>, ids: set<int>, id: string, aspect: Aspect)
    requires ids <= configs.Keys
    ensures Settled(configs, ids, id, aspect, SaidIn(configs, ids, id, aspect))
    decreases |ids|
  {
    if exists k :: k in ids {
      var rest, m := LargestApart(ids);
      LargestDecides(configs, rest, id, aspect);
      SettledWithOneMore(configs, rest, m, id, aspect);
    } else {
      NothingSaid(configs, ids, id, aspect);
    }
  }

  lemma LargestApart(ids: set<int>) returns (rest: set<int>, m: int)
    requires exists k :: k in ids
    ensures ids == rest + {m} && |rest| < |ids| && forall k :: k in rest ==> k < m
  {
    m := MaxOf(ids);
    rest := ids - {m};
  }

  lemma NothingSaid(configs: map<int, AgentConfig>, ids: set<int>, id: string, aspect: Aspect)
    requires ids <= configs.Keys && !exists k :: k in ids
    ensures Settled(configs, ids, id, aspect, SaidIn(configs, ids, id, aspect))
  {
    assert StreamsOf(configs, ids) == [];
    assert Occurrences([], id) == [];
  }

  lemma SettledWithOneMore(configs: map<int, AgentConfig>, rest: set<int>, m: int, id: string, aspect: Aspect)
    requires rest + {m} <= configs.Keys && forall k :: k in rest ==> k < m
    requires Settled(configs, rest, id, aspect, SaidIn(configs, rest, id, aspect))
    ensures Settled(configs, rest + {m}, id, aspect, SaidIn(configs, rest + {m}, id, aspect))
  {
    assert m in rest + {m};
    SaidWithOneMore(configs, rest, m, id, aspect);
    if Speaks(configs, m, id, aspect) {
      SettledWithAWord(configs, rest, m, id, aspect);
    } else {
      SettledWithoutAWord(configs, rest, m, id, aspect, SaidIn(configs, rest, id, aspect));
    }
  }

  lemma SaidWithOneMore(configs: map<int, AgentConfig>, rest: set<int>, m: int, id: string, aspect: Aspect)
    requires rest + {m} <= configs.Keys && m in configs && forall k :: k in rest ==> k < m
    ensures SaidIn(configs, rest + {m}, id, aspect)
      == if Speaks(configs, m, id, aspect) then Word(configs[m], id, aspect) else SaidIn(configs, rest, id, aspect)
  {
    var s, t := StreamsOf(configs, rest), configs[m].streams;
    StreamsOfOneMore(configs, rest, m);
    OccurrencesJoin(s, t, id);
    LaterMentionsOverrule(Occurrences(s, id), Occurrences(t, id), aspect);
  }

  /** On every aspect of a stream the result holds the word of the largest configuration id that has one. */
  lemma LargestIdWins(configs: map<int, AgentConfig>, id: string, aspect: Aspect)
    ensures Settled(configs, configs.Keys, id, aspect, Holds(DesiredStreams(configs), id, aspect))
  {
    MergedHoldsTheLastWord(StreamsOf(configs, configs.Keys), id, aspect);
    LargestDecides(configs, configs.Keys, id, aspect);
  }

  // ---------------------------------------------------------------------------------------------
  // When the latest arrival wins
  // ---------------------------------------------------------------------------------------------

  /** Is k the largest id that says something, and larger than i? */
  ghost predicate Overrules(configs: map<int, AgentConfig>, i: int, k: int, id: string, aspect: Aspect) {
    k > i && Decides(configs, configs.Keys, k, id, aspect)
  }

  /** Does the result hold what the latest arrival says? */
  ghost predicate LatestWins(configs: map<int, AgentConfig>, a: AgentConfig, id: string, aspect: Aspect) {
    Holds(DesiredStreams(configs[a.configId := a]), id, aspect) == Word(a, id, aspect)
  }

  /** The larger id that has the say, if there is one, says the same. */
  ghost predicate NotContradicted(configs: map<int, AgentConfig>, a: AgentConfig, id: string, aspect: Aspect) {
    forall k :: Overrules(configs, a.configId, k, id, aspect) ==> Word(configs[k], id, aspect) == Word(a, id, aspect)
  }

  /** The latest arrival, if it says something, wins exactly when no larger id contradicts it. */
  lemma LatestWinsIff(configs: map<int, AgentConfig>, a: AgentConfig, id: string, aspect: Aspect)
    requires Word(a, id, aspect).Some?
    ensures LatestWins(configs, a, id, aspect) <==> NotContradicted(configs, a, id, aspect)
  {
    var i, now := a.configId, configs[a.configId := a];
    LargestIdWins(now, id, aspect);
    assert Speaks(now, i, id, aspect);
    var top :| Decides(now, now.Keys, top, id, aspect);
    OnlyOneOverrules(configs, a, top, id, aspect);
    assert now[top] == if top == i then a else configs[top];
    assert LatestWins(configs, a, id, aspect) <==> Word(now[top], id, aspect) == Word(a, id, aspect);
  }

  lemma OnlyOneOverrules(configs: map<int, AgentConfig>, a: AgentConfig, top: int, id: string, aspect: Aspect)
    requires Word(a, id, aspect).Some?
    requires var now := configs[a.configId := a]; Decides(now, now.Keys, top, id, aspect)
    ensures top == a.configId || Overrules(configs, a.configId, top, id, aspect)
    ensures forall k :: Overrules(configs, a.configId, k, id, aspect) ==> k == top
  {
    var now := configs[a.configId := a];
    assert Speaks(now, a.configId, id, aspect);
    if top > a.configId { OverrulingStays(configs, a, top, id, aspect); }
    forall k | Overrules(configs, a.configId, k, id, aspect) ensures k == top {
      OverrulingStays(configs, a, k, id, aspect);
    }
  }

  lemma OverrulingStays(configs: map<int, AgentConfig>, a: AgentConfig, k: int, id: string, aspect: Aspect)
    requires k > a.configId
    ensures var now := configs[a.configId := a];
      Decides(now, now.Keys, k, id, aspect) <==> Overrules(configs, a.configId, k, id, aspect)
  {
    var now := configs[a.configId := a];
    assert forall j :: j > a.configId ==> (Speaks(now, j, id, aspect) <==> Speaks(configs, j, id, aspect));
    assert forall j :: j in now && j > k ==> j in configs;
    assert forall j :: j in configs && j > k ==> j in now;
  }

  /** Of the configurations with the id i that may arrive, all win that say something: the rule for which no
      look at their contents is needed. */
  ghost predicate EveryArrivalWins(configs: map<int, AgentConfig>, i: int, id: string, aspect: Aspect) {
    forall a: AgentConfig :: a.configId == i && Word(a, id, aspect).Some? ==> LatestWins(configs, a, id, aspect)
  }

  /** That is so exactly when no larger id says anything about that aspect of the stream. */
  lemma LatestAlwaysWinsIff(configs: map<int, AgentConfig>, i: int, id: string, aspect: Aspect)
    ensures EveryArrivalWins(configs, i, id, aspect) <==> forall k :: k in configs && k > i ==> !Speaks(configs, k, id, aspect)
  {
    if k :| k in configs && k > i && Speaks(configs, k, id, aspect) {
      SomeArrivalLoses(configs, i, k, id, aspect);
    } else {
      forall a: AgentConfig | a.configId == i && Word(a, id, aspect).Some? ensures LatestWins(configs, a, id, aspect) {
        LatestWinsIff(configs, a, id, aspect);
      }
    }
  }

  lemma SomeArrivalLoses(configs: map<int, AgentConfig>, i: int, k: int, id: string, aspect: Aspect)
    requires k > i && Speaks(configs, k, id, aspect)
    ensures !EveryArrivalWins(configs, i, id, aspect)
  {
    var a, b := TwoWords(i, configs[k], id, aspect);
    LargestIdWins(configs, id, aspect);
    var top :| Decides(configs, configs.Keys, top, id, aspect);
    assert Overrules(configs, i, top, id, aspect);
    LatestWinsIff(configs, a, id, aspect);
    LatestWinsIff(configs, b, id, aspect);
    assert !LatestWins(configs, a, id, aspect) || !LatestWins(configs, b, id, aspect);
  }

  /** What can be said at all can be said in two ways. */
  lemma TwoWords(i: int, cfg: AgentConfig, id: string, aspect: Aspect) returns (a: AgentConfig, b: AgentConfig)
    requires Word(cfg, id, aspect).Some?
    ensures a.configId == b.configId == i && Word(a, id, aspect).Some? && Word(b, id, aspect).Some?
    ensures Word(a, id, aspect) != Word(b, id, aspect)
  {
    SpeakingNeedsNames(cfg, id, aspect);
    a, b := Example(i, id, aspect, "a", 0), Example(i, id, aspect, "b", 1);
    ExampleSays(i, id, aspect, "a", 0);
    ExampleSays(i, id, aspect, "b", 1);
    assert "a"[0] != "b"[0];
  }

  /** Only an accepted mention says something, and only of a named algorithm. */
  lemma SpeakingNeedsNames(cfg: AgentConfig, id: string, aspect: Aspect)
    requires Word(cfg, id, aspect).Some?
    ensures id != "" && (aspect.TheAlgorithm? ==> aspect.algorithmId != "")
  {
    var mentions := Occurrences(cfg.streams, id);
    if mentions != [] { assert mentions[0] in mentions; }
  }

  /** A configuration that says one thing about every aspect of a stream, told apart by url and n. */
  function Example(i: int, id: string, aspect: Aspect, url: string, n: nat): AgentConfig {
    var algorithm := AlgorithmConfig(if aspect.TheAlgorithm? then aspect.algorithmId else "", "", n as real, 0, 0, 0, []);
    var tracker := TrackerConfig(true, "", 0.0, 0.0, 0.0, 0.0, 0.0, n, 0);
    AgentConfig("", i, [StreamConfig(true, id, url, "", 0, "", "", 0, 0, [algorithm], Some(tracker))])
  }

  lemma ExampleSays(i: int, id: string, aspect: Aspect, url: string, n: nat)
    requires id != "" && url != "" && (aspect.TheAlgorithm? ==> aspect.algorithmId != "")
    ensures var c := Example(i, id, aspect, url, n).streams[0];
      Word(Example(i, id, aspect, url, n), id, aspect) == Some(
        match aspect
        case TheTransport => IsTransport(Transport(c))
        case TheTracker => IsTracker(c.tracker.value)
        case TheAlgorithm(_) => IsAlgorithm(c.algorithms[0]))
  {
    var streams := Example(i, id, aspect, url, n).streams;
    OneMention(streams, id);
    if aspect.TheAlgorithm? {
      assert streams[0].algorithms[0].algorithmId == aspect.algorithmId;
      assert LastWith(streams[0].algorithms, aspect.algorithmId) == 0;
    }
  }

  lemma {:induction false} OneMention(streams: seq<StreamConfig>, id: string)
    requires |streams| == 1 && Accepted(streams[0]) && streams[0].streamId == id
    ensures Occurrences(streams, id) == streams && AllAlgorithms(streams) == streams[0].algorithms
  {
    assert streams[..0] == [] && streams == [streams[0]];
  }

  /** The same over the arrivals. */
  lemma {:induction false} LatestArrivalWinsIff(local: string, arrivals: seq<AgentConfig>, a: AgentConfig, id: string, aspect: Aspect)
    requires ForUs(local, a) && Word(a, id, aspect).Some?
    ensures Holds(DesiredStreams(Received(local, arrivals + [a])), id, aspect) == Word(a, id, aspect)
      <==> NotContradicted(Received(local, arrivals), a, id, aspect)
  {
    assert (arrivals + [a])[..|arrivals|] == arrivals;
    assert Received(local, arrivals + [a]) == Received(local, arrivals)[a.configId := a];
    LatestWinsIff(Received(local, arrivals), a, id, aspect);
  }

  /** Configuration 2 arrives, then configuration 1 with another url for the same camera: the earlier one wins. */
  lemma AnEarlierArrivalWins(local: string) returns (first: AgentConfig, second: AgentConfig)
    ensures ForUs(local, first) && ForUs(local, second)
    ensures Word(first, "cam", TheTransport).Some? && Word(second, "cam", TheTransport).Some?
    ensures Word(first, "cam", TheTransport) != Word(second, "cam", TheTransport)
    ensures Holds(DesiredStreams(Received(local, [first, second])), "cam", TheTransport) == Word(first, "cam", TheTransport)
  {
    first, second := Example(2, "cam", TheTransport, "a", 0), Example(1, "cam", TheTransport, "b", 0);
    ExampleSays(2, "cam", TheTransport, "a", 0);
    ExampleSays(1, "cam", TheTransport, "b", 0);
    assert first.streams[0].rtspUrl[0] != second.streams[0].rtspUrl[0];
    LargerThenSmaller(local, first, second);
    LargestIdWins(map[2 := first][1 := second], "cam", TheTransport);
    LargerDecides(first, second);
  }

  lemma {:induction false} LargerThenSmaller(local: string, first: AgentConfig, second: AgentConfig)
    requires ForUs(local, first) && ForUs(local, second) && first.configId == 2 && second.configId == 1
    ensures Received(local, [first, second]) == map[2 := first][1 := second]
  {
    var arrivals := [first, second];
    assert arrivals[..1] == [first] && [first][..0] == [];
    assert Received(local, [first]) == Arrive(local, Received(local, []), first);
  }

  lemma LargerDecides(first: AgentConfig, second: AgentConfig)
    requires Word(first, "cam", TheTransport).Some?
    ensures var configs := map[2 := first][1 := second];
      Decides(configs, configs.Keys, 2, "cam", TheTransport)
  {
    var configs := map[2 := first][1 := second];
    assert configs[2] == first;
  }
}
