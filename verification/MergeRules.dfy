/** What several configurations that mention one stream mean together: the declarative side of
    src/pipeline/ConfigFilter.cpp. Protobuf messages are values compared field by field. */
module MergeRules {
  import opened Common

  datatype Shape =
    | NoShape
    | Box(cx: real, cy: real, width: real, height: real, angle: real)
    | Polygon(points: seq<(real, real)>)

  datatype Roi = Roi(enabled: bool, mode: int, shape: Shape)

  datatype AlgorithmConfig = AlgorithmConfig(
    algorithmId: string, modelPath: string, threshold: real, alarmLevel: int, startDate: int, endDate: int, rois: seq<Roi>)

  datatype TrackerConfig = TrackerConfig(
    enabled: bool, trackerType: string, minThresh: real, highThresh: real, maxIouDistance: real,
    highThreshPerson: real, highThreshMotorbike: real, maxAge: int, nInit: int)

  datatype StreamConfig = StreamConfig(
    enabled: bool, streamId: string, rtspUrl: string, newRtspUrl: string, reconnectIntervalS: int,
    alarmSnapshotDir: string, alarmRecordDir: string, alarmRecordDurationS: int, alarmDedupIntervalS: int,
    algorithms: seq<AlgorithmConfig>, tracker: Option<TrackerConfig>)

  datatype AgentConfig = AgentConfig(agentId: string, configId: int, streams: seq<StreamConfig>)

  // ---------------------------------------------------------------------------------------------
  // Algorithms
  // ---------------------------------------------------------------------------------------------

  predicate HasId(s: seq<AlgorithmConfig>, id: string) {
    exists k :: 0 <= k < |s| && s[k].algorithmId == id
  }

  /** Does position k keep a place of its own: anonymous, or the first with its id? */
  predicate Keeps(all: seq<AlgorithmConfig>, k: nat)
    requires k < |all|
  {
    all[k].algorithmId == "" || !HasId(all[..k], all[k].algorithmId)
  }

  /** The positions that keep a place, ascending. */
  function Kept(all: seq<AlgorithmConfig>): (r: seq<nat>)
    ensures forall j :: 0 <= j < |r| ==> r[j] < |all| && Keeps(all, r[j])
    ensures forall i, j :: 0 <= i < j < |r| ==> r[i] < r[j]
    ensures forall k :: 0 <= k < |all| && Keeps(all, k) ==> k in r
  {
    if all == [] then []
    else
      var n := |all| - 1;
      assert forall k {:trigger all[..n][..k]} :: 0 <= k < n ==> all[..n][..k] == all[..k];
      assert forall k :: 0 <= k < n ==> Keeps(all[..n], k) == Keeps(all, k);
      Kept(all[..n]) + (if Keeps(all, n) then [n] else [])
  }

  function LastWith(s: seq<AlgorithmConfig>, id: string): (k: nat)
    requires HasId(s, id)
    ensures k < |s| && s[k].algorithmId == id
    ensures forall j :: k < j < |s| ==> s[j].algorithmId != id
  {
    if s[|s| - 1].algorithmId == id then |s| - 1 else LastWith(s[..|s| - 1], id)
  }

  /** What stands at a kept position: an anonymous algorithm itself, a named one in its latest version. */
  function ValueAt(all: seq<AlgorithmConfig>, k: nat): (a: AlgorithmConfig)
    requires k < |all|
    ensures a.algorithmId == all[k].algorithmId
  {
    if all[k].algorithmId == "" then all[k] else all[LastWith(all, all[k].algorithmId)]
  }

  /** The merged list: every anonymous algorithm, and every named one once, where it first stood, with its
      latest value. */
  function MergedAlgorithms(all: seq<AlgorithmConfig>): (r: seq<AlgorithmConfig>)
    ensures |r| == |Kept(all)|
    ensures forall j :: 0 <= j < |r| ==> r[j] == ValueAt(all, Kept(all)[j])
  {
    seq(|Kept(all)|, j requires 0 <= j < |Kept(all)| => ValueAt(all, Kept(all)[j]))
  }

  lemma {:induction false} KeptOfMore(all: seq<AlgorithmConfig>, a: AlgorithmConfig)
    ensures Kept(all + [a]) == Kept(all) + (if a.algorithmId == "" || !HasId(all, a.algorithmId) then [|all|] else [])
  {
    assert (all + [a])[..|all|] == all;
  }

  lemma {:induction false} LastWithMore(all: seq<AlgorithmConfig>, a: AlgorithmConfig, id: string)
    requires HasId(all, id)
    ensures HasId(all + [a], id)
    ensures LastWith(all + [a], id) == if a.algorithmId == id then |all| else LastWith(all, id)
  {
    assert (all + [a])[LastWith(all, id)].algorithmId == id;
    assert (all + [a])[..|all|] == all;
  }

  lemma EarlierNamesDiffer(all: seq<AlgorithmConfig>, p: nat, q: nat)
    requires p < q < |all| && Keeps(all, q) && all[q].algorithmId != ""
    ensures all[p].algorithmId != all[q].algorithmId
  {
    assert all[..q][p] == all[p];
  }

  /** Named positions that keep a place have different names. */
  lemma NamesAreUnique(all: seq<AlgorithmConfig>, i: nat, j: nat)
    requires i < |MergedAlgorithms(all)| && j < |MergedAlgorithms(all)|
    requires MergedAlgorithms(all)[i].algorithmId == MergedAlgorithms(all)[j].algorithmId != ""
    ensures i == j
  {
    var p, q := Kept(all)[i], Kept(all)[j];
    if p < q { EarlierNamesDiffer(all, p, q); }
    if q < p { EarlierNamesDiffer(all, q, p); }
  }

  /** A named algorithm that occurs has a place. */
  lemma NamesAreCovered(all: seq<AlgorithmConfig>, id: string)
    requires id != ""
    ensures HasId(all, id) <==> HasId(MergedAlgorithms(all), id)
  {
    if HasId(all, id) {
      var first := FirstWith(all, id);
      assert Keeps(all, first);
      var j :| 0 <= j < |Kept(all)| && Kept(all)[j] == first;
      assert MergedAlgorithms(all)[j].algorithmId == id;
    }
    if HasId(MergedAlgorithms(all), id) {
      var j :| 0 <= j < |MergedAlgorithms(all)| && MergedAlgorithms(all)[j].algorithmId == id;
      assert all[Kept(all)[j]].algorithmId == id;
    }
  }

  ghost function FirstWith(s: seq<AlgorithmConfig>, id: string): (k: nat)
    requires HasId(s, id)
    ensures k < |s| && s[k].algorithmId == id && !HasId(s[..k], id)
  {
    if HasId(s[..|s| - 1], id) then
      var k := FirstWith(s[..|s| - 1], id);
      assert s[..|s| - 1][..k] == s[..k];
      k
    else
      assert s == s[..|s| - 1] + [s[|s| - 1]];
      |s| - 1
  }

  lemma PlacesAfterOneMore(all: seq<AlgorithmConfig>, a: AlgorithmConfig, j: nat)
    requires j < |MergedAlgorithms(all)|
    ensures j < |MergedAlgorithms(all + [a])|
    ensures MergedAlgorithms(all + [a])[j]
      == if MergedAlgorithms(all)[j].algorithmId == a.algorithmId != "" then a else MergedAlgorithms(all)[j]
  {
    KeptOfMore(all, a);
    var k := Kept(all)[j];
    assert Kept(all + [a])[j] == k && (all + [a])[k] == all[k];
    if all[k].algorithmId != "" {
      LastWithMore(all, a, all[k].algorithmId);
    }
  }

  /** One more algorithm is appended if it is anonymous or new ... */
  lemma MergeNewOne(all: seq<AlgorithmConfig>, a: AlgorithmConfig)
    requires a.algorithmId == "" || !HasId(all, a.algorithmId)
    ensures MergedAlgorithms(all + [a]) == MergedAlgorithms(all) + [a]
  {
    KeptOfMore(all, a);
    NamesAreCoveredIf(all, a.algorithmId);
    forall j | 0 <= j < |MergedAlgorithms(all)| ensures MergedAlgorithms(all + [a])[j] == MergedAlgorithms(all)[j] {
      PlacesAfterOneMore(all, a, j);
    }
    assert (all + [a])[|all|] == a;
  }

  lemma NamesAreCoveredIf(all: seq<AlgorithmConfig>, id: string)
    ensures id != "" ==> (HasId(all, id) <==> HasId(MergedAlgorithms(all), id))
  {
    if id != "" { NamesAreCovered(all, id); }
  }

  /** ... and otherwise replaces its namesake, where that one stands. */
  lemma MergeNamesake(all: seq<AlgorithmConfig>, a: AlgorithmConfig, p: nat)
    requires p < |MergedAlgorithms(all)| && MergedAlgorithms(all)[p].algorithmId == a.algorithmId != ""
    ensures MergedAlgorithms(all + [a]) == MergedAlgorithms(all)[p := a]
  {
    assert HasId(MergedAlgorithms(all), a.algorithmId);
    NamesAreCovered(all, a.algorithmId);
    KeptOfMore(all, a);
    forall j | 0 <= j < |MergedAlgorithms(all)|
      ensures MergedAlgorithms(all + [a])[j] == MergedAlgorithms(all)[p := a][j]
    {
      PlacesAfterOneMore(all, a, j);
      if MergedAlgorithms(all)[j].algorithmId == a.algorithmId { NamesAreUnique(all, j, p); }
    }
  }

  function Anonymous(s: seq<AlgorithmConfig>): seq<AlgorithmConfig> {
    if s == [] then []
    else Anonymous(s[..|s| - 1]) + (if s[|s| - 1].algorithmId == "" then [s[|s| - 1]] else [])
  }

  lemma {:induction false} AnonymousAfterReplacing(s: seq<AlgorithmConfig>, p: nat, a: AlgorithmConfig)
    requires p < |s| && s[p].algorithmId != "" && a.algorithmId != ""
    ensures Anonymous(s[p := a]) == Anonymous(s)
  {
    var n := |s| - 1;
    if p == n {
      assert s[p := a][..n] == s[..n];
    } else {
      AnonymousAfterReplacing(s[..n], p, a);
      assert s[p := a][..n] == s[..n][p := a];
    }
  }

  /** Merging neither drops, repeats nor reorders anonymous algorithms. */
  lemma {:induction false} AnonymousAllKept(all: seq<AlgorithmConfig>)
    ensures Anonymous(MergedAlgorithms(all)) == Anonymous(all)
  {
    if all != [] {
      var n := |all| - 1;
      var before, a := all[..n], all[n];
      AnonymousAllKept(before);
      assert before + [a] == all;
      AnonymousOneMore(before, a);
    }
  }

  lemma AnonymousOneMore(all: seq<AlgorithmConfig>, a: AlgorithmConfig)
    ensures Anonymous(MergedAlgorithms(all + [a]))
         == Anonymous(MergedAlgorithms(all)) + (if a.algorithmId == "" then [a] else [])
  {
    var m := MergedAlgorithms(all);
    if a.algorithmId == "" || !HasId(all, a.algorithmId) {
      MergeNewOne(all, a);
      AnonymousOfMore(m, a);
    } else {
      NamesAreCovered(all, a.algorithmId);
      var p :| 0 <= p < |m| && m[p].algorithmId == a.algorithmId;
      MergeNamesake(all, a, p);
      AnonymousAfterReplacing(m, p, a);
    }
  }

  lemma {:induction false} AnonymousOfMore(s: seq<AlgorithmConfig>, a: AlgorithmConfig)
    ensures Anonymous(s + [a]) == Anonymous(s) + (if a.algorithmId == "" then [a] else [])
  {
    assert (s + [a])[..|s|] == s;
  }

  lemma {:induction false} NothingToMerge(m: seq<AlgorithmConfig>)
    requires forall i, j :: 0 <= i < j < |m| && m[j].algorithmId != "" ==> m[i].algorithmId != m[j].algorithmId
    ensures MergedAlgorithms(m) == m
  {
    if m != [] {
      var n := |m| - 1;
      NothingToMerge(m[..n]);
      assert m[..n] + [m[n]] == m;
      if m[n].algorithmId != "" {
        assert forall i :: 0 <= i < n ==> m[..n][i].algorithmId != m[n].algorithmId;
        assert !HasId(m[..n], m[n].algorithmId);
      }
      MergeNewOne(m[..n], m[n]);
    }
  }

  // ---------------------------------------------------------------------------------------------
  // Streams
  // ---------------------------------------------------------------------------------------------

  /** makeTransportStreamConfig: everything but algorithms and tracker. */
  function Transport(c: StreamConfig): StreamConfig {
    StreamConfig(c.enabled, c.streamId, c.rtspUrl, c.newRtspUrl, c.reconnectIntervalS, c.alarmSnapshotDir,
                 c.alarmRecordDir, c.alarmRecordDurationS, c.alarmDedupIntervalS, [], None)
  }

  /** Streams that are disabled or lack an id or a source are skipped. */
  predicate Accepted(c: StreamConfig) { c.enabled && c.streamId != "" && c.rtspUrl != "" }

  /** The accepted mentions of one stream, in order. */
  function Occurrences(s: seq<StreamConfig>, id: string): (r: seq<StreamConfig>)
    ensures forall c :: c in r <==> c in s && Accepted(c) && c.streamId == id
  {
    if s == [] then []
    else
      var c := s[|s| - 1];
      assert s == s[..|s| - 1] + [c];
      Occurrences(s[..|s| - 1], id) + (if Accepted(c) && c.streamId == id then [c] else [])
  }

  function AllAlgorithms(s: seq<StreamConfig>): seq<AlgorithmConfig> {
    if s == [] then [] else AllAlgorithms(s[..|s| - 1]) + s[|s| - 1].algorithms
  }

  /** The last tracker message that is present at all, enabled or not. */
  function LastTracker(s: seq<StreamConfig>): Option<TrackerConfig> {
    if s == [] then None
    else if s[|s| - 1].tracker.Some? then s[|s| - 1].tracker
    else LastTracker(s[..|s| - 1])
  }

  /** What the mentions of a stream mean: transport from the last one, merged algorithms, last tracker. */
  function Meaning(mentions: seq<StreamConfig>): StreamConfig
    requires mentions != []
  {
    Transport(mentions[|mentions| - 1]).(
      algorithms := MergedAlgorithms(AllAlgorithms(mentions)), tracker := LastTracker(mentions))
  }

  function Ids(s: seq<StreamConfig>): set<string> {
    set c | c in s && Accepted(c) :: c.streamId
  }

  function Desired(s: seq<StreamConfig>): (r: map<string, StreamConfig>)
    ensures forall id :: id in r ==> r[id].streamId == id && Accepted(r[id])
  {
    map id | id in Ids(s) :: Meaning(Occurrences(s, id))
  }

  /** Feeding a merged stream back changes nothing. */
  lemma MergingIsIdempotent(mentions: seq<StreamConfig>)
    requires mentions != []
    ensures Meaning([Meaning(mentions)]) == Meaning(mentions)
  {
    var all := AllAlgorithms(mentions);
    var m := Meaning(mentions);
    forall i, j | 0 <= i < j < |m.algorithms| && m.algorithms[j].algorithmId != ""
      ensures m.algorithms[i].algorithmId != m.algorithms[j].algorithmId
    {
      if m.algorithms[i].algorithmId == m.algorithms[j].algorithmId { NamesAreUnique(all, i, j); }
    }
    NothingToMerge(m.algorithms);
    assert [m][..0] == [];
    assert AllAlgorithms([m]) == [] + m.algorithms == m.algorithms;
    if m.tracker.None? { assert LastTracker([m]) == LastTracker([]); }
  }

  // ---------------------------------------------------------------------------------------------
  // Configurations, in ascending order of their ids
  // ---------------------------------------------------------------------------------------------

  lemma MaxExists(s: set<int>)
    requires exists k :: k in s
    ensures exists m :: m in s && forall k :: k in s ==> k <= m
  {
    var x :| x in s;
    if exists y :: y in s - {x} {
      MaxExists(s - {x});
      var m :| m in s - {x} && forall k :: k in s - {x} ==> k <= m;
      assert forall k :: k in s ==> k == x || k in s - {x};
      var top := Max(x, m);
      assert top in s;
    } else {
      assert forall k :: k in s ==> k == x || k in s - {x};
    }
  }

  ghost function MaxOf(s: set<int>): (m: int)
    requires exists k :: k in s
    ensures m in s && forall k :: k in s ==> k <= m
  {
    MaxExists(s);
    var m :| m in s && forall k :: k in s ==> k <= m;
    m
  }

  /** The streams of the configurations with the given ids, by ascending id. */
  ghost function StreamsOf(configs: map<int, AgentConfig>, ids: set<int>): seq<StreamConfig>
    requires ids <= configs.Keys
  {
    if exists k :: k in ids then StreamsOf(configs, ids - {MaxOf(ids)}) + configs[MaxOf(ids)].streams else []
  }

  lemma {:induction false} StreamsOfOneMore(configs: map<int, AgentConfig>, ids: set<int>, id: int)
    requires ids <= configs.Keys && id in configs && forall k :: k in ids ==> k < id
    ensures StreamsOf(configs, ids + {id}) == StreamsOf(configs, ids) + configs[id].streams
  {
    assert id in ids + {id};
    assert MaxOf(ids + {id}) == id;
    assert ids + {id} - {id} == ids;
  }

  /** What a batch of configurations asks for. */
  ghost function DesiredStreams(configs: map<int, AgentConfig>): map<string, StreamConfig> {
    Desired(StreamsOf(configs, configs.Keys))
  }

  // ---------------------------------------------------------------------------------------------
  // What is asked for
  // ---------------------------------------------------------------------------------------------

  /** Does the configuration ask for the stream: enabled, with an id and a source? */
  predicate AsksFor(c: StreamConfig, id: string) { c.enabled && c.streamId == id && id != "" && c.rtspUrl != "" }

  lemma {:induction false} StreamsOfMembers(configs: map<int, AgentConfig>, ids: set<int>, c: StreamConfig)
    requires ids <= configs.Keys
    ensures c in StreamsOf(configs, ids) <==> exists k :: k in ids && c in configs[k].streams
    decreases |ids|
  {
    if exists k :: k in ids {
      var m := MaxOf(ids);
      StreamsOfMembers(configs, ids - {m}, c);
      assert forall k :: k in ids <==> k == m || k in ids - {m};
    }
  }

  /** A stream is in the result exactly when some configuration has it enabled, with an id and a source. */
  lemma AskedForIff(configs: map<int, AgentConfig>, id: string)
    ensures id in DesiredStreams(configs) <==> exists k, c :: k in configs && c in configs[k].streams && AsksFor(c, id)
  {
    var s := StreamsOf(configs, configs.Keys);
    if id in DesiredStreams(configs) {
      var c :| c in s && Accepted(c) && c.streamId == id;
      StreamsOfMembers(configs, configs.Keys, c);
      var k :| k in configs && c in configs[k].streams;
      assert AsksFor(c, id);
    }
    if k, c :| k in configs && c in configs[k].streams && AsksFor(c, id) {
      StreamsOfMembers(configs, configs.Keys, c);
      assert c in s && Accepted(c) && c.streamId == id;
    }
  }

  /** Every stream of the result is enabled, has its key for an id, and has a source. */
  lemma ResultIsEnabled(configs: map<int, AgentConfig>, id: string)
    requires id in DesiredStreams(configs)
    ensures AsksFor(DesiredStreams(configs)[id], id)
  {
  }

  function OnlyEnabled(s: seq<StreamConfig>): seq<StreamConfig> {
    if s == [] then []
    else OnlyEnabled(s[..|s| - 1]) + (if s[|s| - 1].enabled then [s[|s| - 1]] else [])
  }

  function WithoutDisabled(configs: map<int, AgentConfig>): map<int, AgentConfig> {
    map k | k in configs :: configs[k].(streams := OnlyEnabled(configs[k].streams))
  }

  lemma {:induction false} OnlyEnabledJoins(s: seq<StreamConfig>, t: seq<StreamConfig>)
    ensures OnlyEnabled(s + t) == OnlyEnabled(s) + OnlyEnabled(t)
    decreases |t|
  {
    if t == [] {
      assert s + t == s;
    } else {
      assert (s + t)[..|s + t| - 1] == s + t[..|t| - 1];
      OnlyEnabledJoins(s, t[..|t| - 1]);
    }
  }

  lemma {:induction false} OneMoreMention(seen: seq<StreamConfig>, stream: StreamConfig, id: string)
    ensures Occurrences(seen + [stream], id)
         == if Accepted(stream) && stream.streamId == id then Occurrences(seen, id) + [stream] else Occurrences(seen, id)
  {
    assert (seen + [stream])[..|seen|] == seen;
  }

  lemma {:induction false} EnabledMembers(s: seq<StreamConfig>)
    ensures forall c :: c in OnlyEnabled(s) <==> c in s && c.enabled
    decreases |s|
  {
    if s != [] {
      EnabledMembers(s[..|s| - 1]);
      assert s == s[..|s| - 1] + [s[|s| - 1]];
    }
  }

  lemma {:induction false} OnlyEnabledOneMore(s: seq<StreamConfig>, c: StreamConfig)
    ensures OnlyEnabled(s + [c]) == if c.enabled then OnlyEnabled(s) + [c] else OnlyEnabled(s)
  {
    assert (s + [c])[..|s|] == s;
  }

  lemma {:induction false} OneMoreEnabledMention(s: seq<StreamConfig>, c: StreamConfig, id: string)
    requires Occurrences(OnlyEnabled(s), id) == Occurrences(s, id)
    ensures Occurrences(OnlyEnabled(s + [c]), id) == Occurrences(s + [c], id)
  {
    OnlyEnabledOneMore(s, c);
    OneMoreMention(s, c, id);
    if c.enabled { OneMoreMention(OnlyEnabled(s), c, id); }
  }

  lemma {:induction false} EnabledOccurrences(s: seq<StreamConfig>, id: string)
    ensures Occurrences(OnlyEnabled(s), id) == Occurrences(s, id)
    decreases |s|
  {
    if s != [] {
      EnabledOccurrences(s[..|s| - 1], id);
      assert s == s[..|s| - 1] + [s[|s| - 1]];
      OneMoreEnabledMention(s[..|s| - 1], s[|s| - 1], id);
    }
  }

  lemma {:induction false} EnabledStreamsOf(configs: map<int, AgentConfig>, ids: set<int>)
    requires ids <= configs.Keys
    ensures WithoutDisabled(configs).Keys == configs.Keys
    ensures StreamsOf(WithoutDisabled(configs), ids) == OnlyEnabled(StreamsOf(configs, ids))
    decreases |ids|
  {
    assert WithoutDisabled(configs).Keys == configs.Keys;
    if exists k :: k in ids {
      var m := MaxOf(ids);
      EnabledStreamsOf(configs, ids - {m});
      OnlyEnabledJoins(StreamsOf(configs, ids - {m}), configs[m].streams);
    }
  }

  /** Disabled streams leave no trace: without them the result is the same. */
  lemma DisabledLeaveNoTrace(configs: map<int, AgentConfig>)
    ensures DesiredStreams(WithoutDisabled(configs)) == DesiredStreams(configs)
  {
    var s := StreamsOf(configs, configs.Keys);
    EnabledStreamsOf(configs, configs.Keys);
    EnabledMembers(s);
    forall id ensures Occurrences(OnlyEnabled(s), id) == Occurrences(s, id) {
      EnabledOccurrences(s, id);
    }
    SameMentionsSameResult(OnlyEnabled(s), s);
  }

  lemma {:induction false} SameMentionsSameResult(s: seq<StreamConfig>, t: seq<StreamConfig>)
    requires forall c :: c in s && Accepted(c) <==> c in t && Accepted(c)
    requires forall id :: Occurrences(s, id) == Occurrences(t, id)
    ensures Desired(s) == Desired(t)
  {
    assert Ids(s) == Ids(t);
    forall id | id in Ids(t) ensures Desired(s)[id] == Desired(t)[id] {
      assert Occurrences(s, id) == Occurrences(t, id);
    }
  }

  // ---------------------------------------------------------------------------------------------
  // What a merged stream holds, field by field
  // ---------------------------------------------------------------------------------------------

  /** But for algorithms and tracker the merged stream is its last mention. */
  lemma MergedIsTheLastMention(mentions: seq<StreamConfig>)
    requires mentions != []
    ensures var last := mentions[|mentions| - 1];
      Meaning(mentions).(algorithms := last.algorithms, tracker := last.tracker) == last
  {
  }

  /** Its tracker is that of the last mention that has one. */
  lemma {:induction false} MergedTracker(mentions: seq<StreamConfig>) returns (k: int)
    requires mentions != []
    ensures -1 <= k < |mentions| && forall j :: k < j < |mentions| ==> mentions[j].tracker.None?
    ensures k >= 0 ==> mentions[k].tracker.Some?
    ensures Meaning(mentions).tracker == if k < 0 then None else mentions[k].tracker
  {
    k := LastTrackerAt(mentions);
  }

  lemma {:induction false} LastTrackerAt(mentions: seq<StreamConfig>) returns (k: int)
    ensures -1 <= k < |mentions| && forall j :: k < j < |mentions| ==> mentions[j].tracker.None?
    ensures k >= 0 ==> mentions[k].tracker.Some?
    ensures LastTracker(mentions) == if k < 0 then None else mentions[k].tracker
    decreases |mentions|
  {
    if mentions == [] {
      k := -1;
    } else if mentions[|mentions| - 1].tracker.Some? {
      k := |mentions| - 1;
    } else {
      k := LastTrackerAt(mentions[..|mentions| - 1]);
    }
  }

  lemma {:induction false} AllAlgorithmsMembers(mentions: seq<StreamConfig>, id: string)
    ensures HasId(AllAlgorithms(mentions), id) <==> exists c :: c in mentions && HasId(c.algorithms, id)
    decreases |mentions|
  {
    if mentions != [] {
      var front, last := mentions[..|mentions| - 1], mentions[|mentions| - 1];
      AllAlgorithmsMembers(front, id);
      assert mentions == front + [last];
      HasIdJoins(AllAlgorithms(front), last.algorithms, id);
    }
  }

  lemma HasIdJoins(s: seq<AlgorithmConfig>, t: seq<AlgorithmConfig>, id: string)
    ensures HasId(s + t, id) <==> HasId(s, id) || HasId(t, id)
  {
    if k :| 0 <= k < |s| && s[k].algorithmId == id { assert (s + t)[k].algorithmId == id; }
    if k :| 0 <= k < |t| && t[k].algorithmId == id { assert (s + t)[|s| + k].algorithmId == id; }
  }

  /** A named algorithm runs on a stream exactly when some configuration that asks for the stream names it. */
  lemma AlgorithmAskedForIff(configs: map<int, AgentConfig>, id: string, name: string)
    requires id in DesiredStreams(configs) && name != ""
    ensures HasId(DesiredStreams(configs)[id].algorithms, name)
      <==> exists k, c :: k in configs && c in configs[k].streams && AsksFor(c, id) && HasId(c.algorithms, name)
  {
    var mentions := Occurrences(StreamsOf(configs, configs.Keys), id);
    NamesAreCovered(AllAlgorithms(mentions), name);
    AllAlgorithmsMembers(mentions, name);
    if c :| c in mentions && HasId(c.algorithms, name) {
      StreamsOfMembers(configs, configs.Keys, c);
      assert AsksFor(c, id);
    }
    if k, c :| k in configs && c in configs[k].streams && AsksFor(c, id) && HasId(c.algorithms, name) {
      StreamsOfMembers(configs, configs.Keys, c);
      assert c in mentions;
    }
  }
}
