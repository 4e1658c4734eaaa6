/** The feature-row encoder: the fixed tables of agents, maps and model columns,
    and `format_input`, which turns two rosters, a map name, the round number and
    both scores into one row of integers in the order the classifier expects.

    A one-row pandas DataFrame is modelled by a `map<string, int>` from column
    name to value, and the row handed to the classifier by the `seq<int>` of its
    values in column order. Most definitions take the agent and map tables as
    parameters and are instantiated with the program's tables; the tables
    themselves enter the proofs only through `ColumnLayout` and the lemmas about
    the agent table. */
module Features {

  /** The agents in the order the program writes them down, before sorting. */
  const ListedAgents: seq<string> :=
    ["yoru", "chamber", "reyna", "breach", "cypher",
     "phoenix", "sage", "astra", "raze", "viper",
     "jett", "brimstone", "killjoy", "omen", "skye",
     "kayo", "sova"]

  /** `sorted(ListedAgents)`: the agent table the encoder iterates over. */
  const AllAgents: seq<string> :=
    ["astra", "breach", "brimstone", "chamber", "cypher",
     "jett", "kayo", "killjoy", "omen", "phoenix",
     "raze", "reyna", "sage", "skye", "sova",
     "viper", "yoru"]

  /** The maps offered by the map selector; "TBD" stands for an undecided map. */
  const AllMaps: seq<string> :=
    ["Ascent", "Bind", "Breeze", "Fracture", "Haven", "Icebox", "Split", "TBD"]

  /** The column order the trained model was fitted on. */
  const ExpectedColumnOrder: seq<string> :=
    ["RoundNumber", "Team1_RoundScore", "Team2_RoundScore", "team1_astra",
     "team1_breach", "team1_brimstone", "team1_chamber", "team1_cypher",
     "team1_jett", "team1_kayo", "team1_killjoy", "team1_omen",
     "team1_phoenix", "team1_raze", "team1_reyna", "team1_sage",
     "team1_skye", "team1_sova", "team1_viper", "team1_yoru", "team2_astra",
     "team2_breach", "team2_brimstone", "team2_chamber", "team2_cypher",
     "team2_jett", "team2_kayo", "team2_killjoy", "team2_omen",
     "team2_phoenix", "team2_raze", "team2_reyna", "team2_sage",
     "team2_skye", "team2_sova", "team2_viper", "team2_yoru", "Map_Ascent",
     "Map_Bind", "Map_Breeze", "Map_Fracture", "Map_Haven", "Map_Icebox",
     "Map_Split", "Map_TBD"]

  const Team1Prefix: string := "team1_"
  const Team2Prefix: string := "team2_"
  const MapPrefix: string := "Map_"

  /** The three counter columns that lead the row. */
  const CounterColumns: seq<string> := ["RoundNumber", "Team1_RoundScore", "Team2_RoundScore"]

  // ---------------------------------------------------------------------------
  // Helpers on sequences and strings

  predicate Distinct<T(==)>(s: seq<T>) {
    forall i, j :: 0 <= i < j < |s| ==> s[i] != s[j]
  }

  /** Python's `<` on `str`: lexicographic order on code points. */
  predicate StrLess(a: string, b: string)
    decreases |a|
  {
    if |a| == 0 then |b| > 0
    else if |b| == 0 then false
    else if a[0] != b[0] then a[0] < b[0]
    else StrLess(a[1..], b[1..])
  }

  /** Each element is smaller than the next: sorted, without duplicates. */
  predicate StrictlySorted(s: seq<string>) {
    forall i :: 0 <= i < |s| - 1 ==> StrLess(s[i], s[i + 1])
  }

  /** Python's `1 if b else 0`. */
  function Flag(b: bool): int {
    if b then 1 else 0
  }

  function Sum(s: seq<int>): int {
    if s == [] then 0 else s[0] + Sum(s[1..])
  }

  // ---------------------------------------------------------------------------
  // The dictionary `format_input` builds

  /** Distinct names give distinct keys once the same prefix is put in front. */
  lemma PrefixCancels(prefix: string)
    ensures forall a, b :: prefix + a == prefix + b ==> a == b
  {
    forall a, b | prefix + a == prefix + b ensures a == b {
      assert a == (prefix + a)[|prefix|..];
      assert b == (prefix + b)[|prefix|..];
    }
  }

  /** One key per listed agent, the agent's name after `prefix`, holding 1 when
      the agent is on the roster and 0 otherwise. */
  function AgentEncoding(prefix: string, agents: seq<string>, roster: seq<string>): map<string, int> {
    PrefixCancels(prefix);
    map a | a in agents :: prefix + a := Flag(a in roster)
  }

  /** One key per listed map, the map's name after `Map_`, holding 1 for the
      map to predict and 0 for every other map. */
  function MapEncoding(maps: seq<string>, mapToPredict: string): map<string, int> {
    PrefixCancels(MapPrefix);
    map m | m in maps :: MapPrefix + m := Flag(m == mapToPredict)
  }

  /** The dictionary `input_row` over given agent and map tables: the counters,
      then the two rosters' flags and the map flags merged in, a later key
      overriding an earlier one. */
  function InputRowOver(agents: seq<string>, maps: seq<string>,
                        team1: seq<string>, team2: seq<string>, mapToPredict: string,
                        roundNumber: int, team1Score: int, team2Score: int): map<string, int>
  {
    map["RoundNumber" := roundNumber, "Team1_RoundScore" := team1Score,
        "Team2_RoundScore" := team2Score]
    + AgentEncoding(Team1Prefix, agents, team1)
    + AgentEncoding(Team2Prefix, agents, team2)
    + MapEncoding(maps, mapToPredict)
  }

  /** The dictionary `input_row` that `format_input` builds. */
  function InputRow(team1: seq<string>, team2: seq<string>, mapToPredict: string,
                    roundNumber: int, team1Score: int, team2Score: int): map<string, int>
  {
    InputRowOver(AllAgents, AllMaps, team1, team2, mapToPredict, roundNumber, team1Score, team2Score)
  }

  // ---------------------------------------------------------------------------
  // The row by position: an independent statement of what the classifier gets

  /** The flag of each name, in the order of `names`: 1 when it is in `roster`. */
  function Flags(names: seq<string>, roster: seq<string>): (r: seq<int>)
    ensures |r| == |names|
  {
    seq(|names|, k requires 0 <= k < |names| => Flag(names[k] in roster))
  }

  /** The one-hot encoding of `x` against `names`. */
  function OneHot(names: seq<string>, x: string): (r: seq<int>)
    ensures |r| == |names|
  {
    seq(|names|, k requires 0 <= k < |names| => Flag(names[k] == x))
  }

  function FeatureRowOver(agents: seq<string>, maps: seq<string>,
                          team1: seq<string>, team2: seq<string>, mapToPredict: string,
                          roundNumber: int, team1Score: int, team2Score: int): seq<int>
  {
    [roundNumber, team1Score, team2Score]
    + Flags(agents, team1) + Flags(agents, team2) + OneHot(maps, mapToPredict)
  }

  /** The row the classifier should receive: the three counters, 17 team-1
      agent flags, 17 team-2 agent flags and 8 map flags, by position. */
  function FeatureRow(team1: seq<string>, team2: seq<string>, mapToPredict: string,
                      roundNumber: int, team1Score: int, team2Score: int): seq<int>
  {
    FeatureRowOver(AllAgents, AllMaps, team1, team2, mapToPredict, roundNumber, team1Score, team2Score)
  }

  // ---------------------------------------------------------------------------
  // The column table

  /** The same names, each with `prefix` in front: the keys `f'{prefix}{name}'`. */
  function Prefixed(prefix: string, names: seq<string>): (r: seq<string>)
    ensures |r| == |names|
  {
    seq(|names|, k requires 0 <= k < |names| => prefix + names[k])
  }

  lemma PrefixedMember(prefix: string, names: seq<string>, a: string)
    requires a in names
    ensures prefix + a in Prefixed(prefix, names)
  {
    var j :| 0 <= j < |names| && names[j] == a;
    assert Prefixed(prefix, names)[j] == prefix + a;
  }

  /** The columns the dictionary is built with, in the order it builds them:
      the counters, `team1_` in front of each agent, `team2_` in front of each
      agent, `Map_` in front of each map. */
  function Columns(agents: seq<string>, maps: seq<string>): seq<string> {
    CounterColumns + Prefixed(Team1Prefix, agents) + Prefixed(Team2Prefix, agents)
    + Prefixed(MapPrefix, maps)
  }

  lemma CounterColumnAt(k: nat)
    requires k < |CounterColumns|
    ensures ExpectedColumnOrder[k] == CounterColumns[k]
  {
  }

  lemma Team1ColumnAt(k: nat)
    requires k < |AllAgents|
    ensures ExpectedColumnOrder[|CounterColumns| + k] == Team1Prefix + AllAgents[k]
  {
    if k < 9 {
      Team1ColumnLow(k);
    } else {
      Team1ColumnHigh(k);
    }
  }

  lemma Team1ColumnLow(k: nat)
    requires k < 9
    ensures ExpectedColumnOrder[|CounterColumns| + k] == Team1Prefix + AllAgents[k]
  {
  }

  lemma Team1ColumnHigh(k: nat)
    requires 9 <= k < |AllAgents|
    ensures ExpectedColumnOrder[|CounterColumns| + k] == Team1Prefix + AllAgents[k]
  {
  }

  lemma Team2ColumnAt(k: nat)
    requires k < |AllAgents|
    ensures ExpectedColumnOrder[|CounterColumns| + |AllAgents| + k] == Team2Prefix + AllAgents[k]
  {
    if k < 9 {
      Team2ColumnLow(k);
    } else {
      Team2ColumnHigh(k);
    }
  }

  lemma Team2ColumnLow(k: nat)
    requires k < 9
    ensures ExpectedColumnOrder[|CounterColumns| + |AllAgents| + k] == Team2Prefix + AllAgents[k]
  {
  }

  lemma Team2ColumnHigh(k: nat)
    requires 9 <= k < |AllAgents|
    ensures ExpectedColumnOrder[|CounterColumns| + |AllAgents| + k] == Team2Prefix + AllAgents[k]
  {
  }

  lemma MapColumnAt(k: nat)
    requires k < |AllMaps|
    ensures ExpectedColumnOrder[|CounterColumns| + 2 * |AllAgents| + k] == MapPrefix + AllMaps[k]
  {
  }

  /** The hand-written column table is exactly the counters followed by the
      prefixed agent table twice and the prefixed map table: 3 + 17 + 17 + 8 = 45
      columns, so reordering by it keeps the dictionary's own order. */
  lemma ColumnLayout()
    ensures ExpectedColumnOrder == Columns(AllAgents, AllMaps)
    ensures |ExpectedColumnOrder| == 45
  {
    var cols := Columns(AllAgents, AllMaps);
    var n := |AllAgents|;
    forall k | 0 <= k < |ExpectedColumnOrder| ensures ExpectedColumnOrder[k] == cols[k] {
      if k < 3 {
        CounterColumnAt(k);
      } else if k < 3 + n {
        var j := k - 3;
        assert k == |CounterColumns| + j;
        Team1ColumnAt(j);
      } else if k < 3 + 2 * n {
        var j := k - 3 - n;
        assert k == |CounterColumns| + n + j;
        Team2ColumnAt(j);
      } else {
        var j := k - 3 - 2 * n;
        assert k == |CounterColumns| + 2 * n + j;
        MapColumnAt(j);
      }
    }
  }

  // ---------------------------------------------------------------------------
  // The agent and map tables

  /** The agent table is strictly increasing in Python's string order, so the
      per-team agent columns of `ExpectedColumnOrder` follow `sorted(all_agents)`. */
  lemma AgentsSorted()
    ensures StrictlySorted(AllAgents)
  {
    AgentsSortedLow();
    AgentsSortedHigh();
  }

  /** The first eight neighbouring pairs of the agent table are in order. */
  lemma AgentsSortedLow()
    ensures forall i :: 0 <= i < 8 ==> StrLess(AllAgents[i], AllAgents[i + 1])
  {
  }

  /** The last eight neighbouring pairs of the agent table are in order. */
  lemma AgentsSortedHigh()
    ensures forall i :: 8 <= i < 16 ==> StrLess(AllAgents[i], AllAgents[i + 1])
  {
  }

  /** The agent table holds the agents the source lists, each exactly once:
      sorting neither lost nor duplicated an agent. */
  lemma AgentsArePermutation()
    ensures Distinct(AllAgents)
    ensures multiset(AllAgents) == multiset(ListedAgents)
  {
    AgentTablesSameMembers();
    AgentTablesDistinct();
    DistinctSameMembers(AllAgents, ListedAgents);
  }

  lemma AgentTablesSameMembers()
    ensures forall x :: x in AllAgents <==> x in ListedAgents
  {
  }

  lemma AgentTablesDistinct()
    ensures Distinct(AllAgents) && Distinct(ListedAgents)
  {
    SortedAgentsDistinct();
    ListedAgentsDistinct();
  }

  lemma SortedAgentsDistinct()
    ensures Distinct(AllAgents)
  {
  }

  lemma ListedAgentsDistinct()
    ensures Distinct(ListedAgents)
  {
  }

  lemma MapsDistinct()
    ensures Distinct(AllMaps)
  {
  }

  /** In a sequence without duplicates every element occurs once. */
  lemma {:induction false} DistinctCount<T>(s: seq<T>, x: T)
    requires Distinct(s)
    ensures multiset(s)[x] == if x in s then 1 else 0
  {
    if s != [] {
      assert s == [s[0]] + s[1..];
      DistinctCount(s[1..], x);
    }
  }

  /** Two duplicate-free sequences with the same members are permutations of
      each other. */
  lemma DistinctSameMembers<T>(a: seq<T>, b: seq<T>)
    requires Distinct(a) && Distinct(b)
    requires forall x :: x in a <==> x in b
    ensures multiset(a) == multiset(b)
  {
    forall x ensures multiset(a)[x] == multiset(b)[x] {
      DistinctCount(a, x);
      DistinctCount(b, x);
    }
  }

  // ---------------------------------------------------------------------------
  // Looking columns up in the dictionary

  /** Two keys whose prefixes differ at a position inside both prefixes differ. */
  lemma PrefixesKeepKeysApart(p: string, q: string, a: string, b: string, i: nat)
    requires i < |p| && i < |q| && p[i] != q[i]
    ensures p + a != q + b
  {
    assert (p + a)[i] == p[i];
    assert (q + b)[i] == q[i];
  }

  /** No agent or map key collides with a key of another group. */
  lemma KeyGroupsApart()
    ensures forall a, b :: Team1Prefix + a != Team2Prefix + b
    ensures forall a, b :: Team1Prefix + a != MapPrefix + b
    ensures forall a, b :: Team2Prefix + a != MapPrefix + b
  {
    forall a: string, b: string ensures Team1Prefix + a != Team2Prefix + b {
      PrefixesKeepKeysApart(Team1Prefix, Team2Prefix, a, b, 4);
    }
    forall a: string, b: string ensures Team1Prefix + a != MapPrefix + b {
      PrefixesKeepKeysApart(Team1Prefix, MapPrefix, a, b, 0);
    }
    forall a: string, b: string ensures Team2Prefix + a != MapPrefix + b {
      PrefixesKeepKeysApart(Team2Prefix, MapPrefix, a, b, 0);
    }
  }

  /** No agent or map key is a counter column. */
  lemma CountersApart(c: string)
    requires c in CounterColumns
    ensures forall a :: Team1Prefix + a != c && Team2Prefix + a != c && MapPrefix + a != c
  {
    forall a: string ensures Team1Prefix + a != c && Team2Prefix + a != c && MapPrefix + a != c {
      assert (Team1Prefix + a)[0] == 't' && (Team2Prefix + a)[0] == 't' && (MapPrefix + a)[0] == 'M';
      assert c[0] in {'R', 'T'};
    }
  }

  /** The key of a listed agent carries that agent's flag. */
  lemma AgentEncodingAt(prefix: string, agents: seq<string>, roster: seq<string>, a: string)
    requires a in agents
    ensures prefix + a in AgentEncoding(prefix, agents, roster)
    ensures AgentEncoding(prefix, agents, roster)[prefix + a] == Flag(a in roster)
  {
    PrefixCancels(prefix);
  }

  /** The key of a listed map carries that map's flag. */
  lemma MapEncodingAt(maps: seq<string>, mapToPredict: string, m: string)
    requires m in maps
    ensures MapPrefix + m in MapEncoding(maps, mapToPredict)
    ensures MapEncoding(maps, mapToPredict)[MapPrefix + m] == Flag(m == mapToPredict)
  {
    PrefixCancels(MapPrefix);
  }

  /** A key that no listed agent's key equals is not in the encoding. */
  lemma AgentEncodingMiss(prefix: string, agents: seq<string>, roster: seq<string>, c: string)
    requires forall a :: prefix + a != c
    ensures c !in AgentEncoding(prefix, agents, roster)
  {
  }

  /** A key that no listed map's key equals is not in the encoding. */
  lemma MapEncodingMiss(maps: seq<string>, mapToPredict: string, c: string)
    requires forall m :: MapPrefix + m != c
    ensures c !in MapEncoding(maps, mapToPredict)
  {
  }

  /** The counter columns of `input_row` hold the values passed in. */
  lemma CounterLookup(agents: seq<string>, maps: seq<string>,
                      team1: seq<string>, team2: seq<string>, mapToPredict: string,
                      roundNumber: int, team1Score: int, team2Score: int, k: nat)
    requires k < |CounterColumns|
    ensures CounterColumns[k] in InputRowOver(agents, maps, team1, team2, mapToPredict, roundNumber, team1Score, team2Score)
    ensures InputRowOver(agents, maps, team1, team2, mapToPredict, roundNumber, team1Score, team2Score)[CounterColumns[k]]
      == [roundNumber, team1Score, team2Score][k]
  {
    var c := CounterColumns[k];
    CountersApart(c);
    AgentEncodingMiss(Team1Prefix, agents, team1, c);
    AgentEncodingMiss(Team2Prefix, agents, team2, c);
    MapEncodingMiss(maps, mapToPredict, c);
  }

  /** Column `team1_<a>` of `input_row` is team 1's flag for `a`. */
  lemma Team1Lookup(agents: seq<string>, maps: seq<string>,
                    team1: seq<string>, team2: seq<string>, mapToPredict: string,
                    roundNumber: int, team1Score: int, team2Score: int, a: string)
    requires a in agents
    ensures Team1Prefix + a in InputRowOver(agents, maps, team1, team2, mapToPredict, roundNumber, team1Score, team2Score)
    ensures InputRowOver(agents, maps, team1, team2, mapToPredict, roundNumber, team1Score, team2Score)[Team1Prefix + a]
      == Flag(a in team1)
  {
    var c := Team1Prefix + a;
    forall b: string ensures Team2Prefix + b != c && MapPrefix + b != c {
      PrefixesKeepKeysApart(Team2Prefix, Team1Prefix, b, a, 4);
      PrefixesKeepKeysApart(MapPrefix, Team1Prefix, b, a, 0);
    }
    AgentEncodingAt(Team1Prefix, agents, team1, a);
    AgentEncodingMiss(Team2Prefix, agents, team2, c);
    MapEncodingMiss(maps, mapToPredict, c);
  }

  /** Column `team2_<a>` of `input_row` is team 2's flag for `a`. */
  lemma Team2Lookup(agents: seq<string>, maps: seq<string>,
                    team1: seq<string>, team2: seq<string>, mapToPredict: string,
                    roundNumber: int, team1Score: int, team2Score: int, a: string)
    requires a in agents
    ensures Team2Prefix + a in InputRowOver(agents, maps, team1, team2, mapToPredict, roundNumber, team1Score, team2Score)
    ensures InputRowOver(agents, maps, team1, team2, mapToPredict, roundNumber, team1Score, team2Score)[Team2Prefix + a]
      == Flag(a in team2)
  {
    KeyGroupsApart();
    AgentEncodingAt(Team2Prefix, agents, team2, a);
    MapEncodingMiss(maps, mapToPredict, Team2Prefix + a);
  }

  /** Column `Map_<m>` of `input_row` is 1 exactly when `m` is the chosen map. */
  lemma MapLookup(agents: seq<string>, maps: seq<string>,
                  team1: seq<string>, team2: seq<string>, mapToPredict: string,
                  roundNumber: int, team1Score: int, team2Score: int, m: string)
    requires m in maps
    ensures MapPrefix + m in InputRowOver(agents, maps, team1, team2, mapToPredict, roundNumber, team1Score, team2Score)
    ensures InputRowOver(agents, maps, team1, team2, mapToPredict, roundNumber, team1Score, team2Score)[MapPrefix + m]
      == Flag(m == mapToPredict)
  {
    MapEncodingAt(maps, mapToPredict, m);
  }
  // ---------------------------------------------------------------------------
  // Selecting the columns

  /** `input_df[cols]`: the values of `frame` at the columns `cols`, in that
      order; every column must be present. */
  function Select(frame: map<string, int>, cols: seq<string>): (r: seq<int>)
    requires forall c :: c in cols ==> c in frame
    ensures |r| == |cols|
    ensures forall k :: 0 <= k < |cols| ==> r[k] == frame[cols[k]]
  {
    seq(|cols|, k requires 0 <= k < |cols| => frame[cols[k]])
  }

  /** Selecting columns reads only those columns: two frames that agree on
      every selected column give the same row, whatever else they hold. */
  lemma SelectReadsOnlyColumns(frame: map<string, int>, other: map<string, int>, cols: seq<string>)
    requires forall c :: c in cols ==> c in frame && c in other && frame[c] == other[c]
    ensures Select(frame, cols) == Select(other, cols)
  {
    forall k | 0 <= k < |cols| ensures Select(frame, cols)[k] == Select(other, cols)[k] {
      assert cols[k] in cols;
    }
  }

  lemma SelectAppend(frame: map<string, int>, a: seq<string>, b: seq<string>)
    requires forall c :: c in a + b ==> c in frame
    ensures Select(frame, a + b) == Select(frame, a) + Select(frame, b)
  {
  }

  /** Column `k` of `Columns(agents, maps)` is a key of `input_row`. */
  lemma ColumnInInputRow(agents: seq<string>, maps: seq<string>,
                      team1: seq<string>, team2: seq<string>, mapToPredict: string,
                      roundNumber: int, team1Score: int, team2Score: int, k: nat)
    requires k < |Columns(agents, maps)|
    ensures Columns(agents, maps)[k] in InputRowOver(agents, maps, team1, team2, mapToPredict, roundNumber, team1Score, team2Score)
  {
    var n := |agents|;
    if k < 3 {
      CounterLookup(agents, maps, team1, team2, mapToPredict, roundNumber, team1Score, team2Score, k);
    } else if k < 3 + n {
      Team1Lookup(agents, maps, team1, team2, mapToPredict, roundNumber, team1Score, team2Score, agents[k - 3]);
    } else if k < 3 + 2 * n {
      Team2Lookup(agents, maps, team1, team2, mapToPredict, roundNumber, team1Score, team2Score, agents[k - 3 - n]);
    } else {
      MapLookup(agents, maps, team1, team2, mapToPredict, roundNumber, team1Score, team2Score, maps[k - 3 - 2 * n]);
    }
  }

  /** Every key of `input_row` is one of `Columns(agents, maps)`. */
  lemma InputRowKeyInColumns(agents: seq<string>, maps: seq<string>,
                      team1: seq<string>, team2: seq<string>, mapToPredict: string,
                      roundNumber: int, team1Score: int, team2Score: int, c: string)
    requires c in InputRowOver(agents, maps, team1, team2, mapToPredict, roundNumber, team1Score, team2Score)
    ensures c in Columns(agents, maps)
  {
    if c in MapEncoding(maps, mapToPredict) {
      var m :| m in maps && MapPrefix + m == c;
      PrefixedMember(MapPrefix, maps, m);
    } else if c in AgentEncoding(Team2Prefix, agents, team2) {
      var a :| a in agents && Team2Prefix + a == c;
      PrefixedMember(Team2Prefix, agents, a);
    } else if c in AgentEncoding(Team1Prefix, agents, team1) {
      var a :| a in agents && Team1Prefix + a == c;
      PrefixedMember(Team1Prefix, agents, a);
    } else {
      assert c in CounterColumns;
    }
  }

  /** The keys of `input_row` are exactly `Columns(agents, maps)`: no column
      is missing and there is no other key. */
  lemma InputRowKeys(agents: seq<string>, maps: seq<string>,
                      team1: seq<string>, team2: seq<string>, mapToPredict: string,
                      roundNumber: int, team1Score: int, team2Score: int)
    ensures InputRowOver(agents, maps, team1, team2, mapToPredict, roundNumber, team1Score, team2Score).Keys == set c | c in Columns(agents, maps)
  {
    var cols := Columns(agents, maps);
    forall c | c in cols ensures c in InputRowOver(agents, maps, team1, team2, mapToPredict, roundNumber, team1Score, team2Score) {
      var k :| 0 <= k < |cols| && cols[k] == c;
      ColumnInInputRow(agents, maps, team1, team2, mapToPredict, roundNumber, team1Score, team2Score, k);
    }
    forall c | c in InputRowOver(agents, maps, team1, team2, mapToPredict, roundNumber, team1Score, team2Score) ensures c in cols {
      InputRowKeyInColumns(agents, maps, team1, team2, mapToPredict, roundNumber, team1Score, team2Score, c);
    }
  }

  /** The counter columns of the dictionary, read out in order. */
  lemma SelectCounters(agents: seq<string>, maps: seq<string>,
                      team1: seq<string>, team2: seq<string>, mapToPredict: string,
                      roundNumber: int, team1Score: int, team2Score: int, frame: map<string, int>)
    requires frame == InputRowOver(agents, maps, team1, team2, mapToPredict, roundNumber, team1Score, team2Score)
    requires forall c :: c in CounterColumns ==> c in frame
    ensures Select(frame, CounterColumns) == [roundNumber, team1Score, team2Score]
  {
    forall k | 0 <= k < 3 ensures Select(frame, CounterColumns)[k] == [roundNumber, team1Score, team2Score][k] {
      CounterLookup(agents, maps, team1, team2, mapToPredict, roundNumber, team1Score, team2Score, k);
    }
  }

  /** Prefixed columns holding each name's flag read out as the flags, in
      table order. */
  lemma SelectFlags(frame: map<string, int>, prefix: string, names: seq<string>, roster: seq<string>)
    requires forall a :: a in names ==> prefix + a in frame && frame[prefix + a] == Flag(a in roster)
    ensures forall c :: c in Prefixed(prefix, names) ==> c in frame
    ensures Select(frame, Prefixed(prefix, names)) == Flags(names, roster)
  {
    var cols := Prefixed(prefix, names);
    forall c | c in cols ensures c in frame {
      var k :| 0 <= k < |cols| && cols[k] == c;
    }
    forall k | 0 <= k < |names| ensures Select(frame, cols)[k] == Flags(names, roster)[k] {
      assert cols[k] == prefix + names[k];
    }
  }

  /** Prefixed columns holding each name's one-hot flag read out as the
      one-hot encoding, in table order. */
  lemma SelectOneHot(frame: map<string, int>, prefix: string, names: seq<string>, x: string)
    requires forall a :: a in names ==> prefix + a in frame && frame[prefix + a] == Flag(a == x)
    ensures forall c :: c in Prefixed(prefix, names) ==> c in frame
    ensures Select(frame, Prefixed(prefix, names)) == OneHot(names, x)
  {
    var cols := Prefixed(prefix, names);
    forall c | c in cols ensures c in frame {
      var k :| 0 <= k < |cols| && cols[k] == c;
    }
    forall k | 0 <= k < |names| ensures Select(frame, cols)[k] == OneHot(names, x)[k] {
      assert cols[k] == prefix + names[k];
    }
  }

  /** Selecting the dictionary's columns in the order they were built gives the
      positional row. */
  lemma SelectInputRow(agents: seq<string>, maps: seq<string>,
                      team1: seq<string>, team2: seq<string>, mapToPredict: string,
                      roundNumber: int, team1Score: int, team2Score: int)
    ensures forall c :: c in Columns(agents, maps) ==> c in InputRowOver(agents, maps, team1, team2, mapToPredict, roundNumber, team1Score, team2Score)
    ensures Select(InputRowOver(agents, maps, team1, team2, mapToPredict, roundNumber, team1Score, team2Score), Columns(agents, maps))
      == FeatureRowOver(agents, maps, team1, team2, mapToPredict, roundNumber, team1Score, team2Score)
  {
    var frame := InputRowOver(agents, maps, team1, team2, mapToPredict, roundNumber, team1Score, team2Score);
    InputRowKeys(agents, maps, team1, team2, mapToPredict, roundNumber, team1Score, team2Score);
    var p1, p2, pm := Prefixed(Team1Prefix, agents), Prefixed(Team2Prefix, agents), Prefixed(MapPrefix, maps);
    SelectAppend(frame, CounterColumns + p1 + p2, pm);
    SelectAppend(frame, CounterColumns + p1, p2);
    SelectAppend(frame, CounterColumns, p1);
    SelectCounters(agents, maps, team1, team2, mapToPredict, roundNumber, team1Score, team2Score, frame);
    forall a | a in agents ensures Team1Prefix + a in frame && frame[Team1Prefix + a] == Flag(a in team1) {
      Team1Lookup(agents, maps, team1, team2, mapToPredict, roundNumber, team1Score, team2Score, a);
    }
    forall a | a in agents ensures Team2Prefix + a in frame && frame[Team2Prefix + a] == Flag(a in team2) {
      Team2Lookup(agents, maps, team1, team2, mapToPredict, roundNumber, team1Score, team2Score, a);
    }
    forall m | m in maps ensures MapPrefix + m in frame && frame[MapPrefix + m] == Flag(m == mapToPredict) {
      MapLookup(agents, maps, team1, team2, mapToPredict, roundNumber, team1Score, team2Score, m);
    }
    SelectFlags(frame, Team1Prefix, agents, team1);
    SelectFlags(frame, Team2Prefix, agents, team2);
    SelectOneHot(frame, MapPrefix, maps, mapToPredict);
  }
  // ---------------------------------------------------------------------------
  // The encoder

  /** The loop that adds every column of `columns` missing from `frame`, with
      value 0; columns already present keep their value. */
  method FillMissingColumns(frame: map<string, int>, columns: seq<string>)
    returns (filled: map<string, int>)
    ensures filled.Keys == frame.Keys + set c | c in columns
    ensures forall c :: c in frame ==> filled[c] == frame[c]
    ensures forall c :: c in filled && c !in frame ==> filled[c] == 0
  {
    filled := frame;
    var i := 0;
    while i < |columns|
      invariant 0 <= i <= |columns|
      invariant filled.Keys == frame.Keys + set k | 0 <= k < i :: columns[k]
      invariant forall c :: c in frame ==> filled[c] == frame[c]
      invariant forall c :: c in filled && c !in frame ==> filled[c] == 0
    {
      var col := columns[i];
      if col !in filled {
        filled := filled[col := 0];
      }
      i := i + 1;
    }
    assert (set k | 0 <= k < |columns| :: columns[k]) == set c | c in columns by {
      forall c | c in columns ensures c in set k | 0 <= k < |columns| :: columns[k] {
        var k :| 0 <= k < |columns| && columns[k] == c;
      }
    }
  }

  /** Filling a frame that already has every column changes nothing. */
  lemma FillKeepsCoveredFrame(frame: map<string, int>, filled: map<string, int>, columns: seq<string>)
    requires filled.Keys == frame.Keys + set c | c in columns
    requires forall c :: c in frame ==> filled[c] == frame[c]
    requires forall c :: c in columns ==> c in frame
    ensures filled == frame
  {
    assert filled.Keys == frame.Keys;
  }

  /** `format_input`: build the dictionary, fill the missing columns with 0 and
      read the values out in `ExpectedColumnOrder`. Each entry is the
      dictionary's value for the column at that position, and the whole row is
      the positional reference row, so the reorder by column name lands every
      value where the model expects it. */
  method FormatInput(team1: seq<string>, team2: seq<string>, mapToPredict: string,
                     roundNumber: int, team1Score: int, team2Score: int)
    returns (row: seq<int>)
    ensures |row| == |ExpectedColumnOrder| == 45
    ensures forall k :: 0 <= k < |row| ==>
      && ExpectedColumnOrder[k] in InputRow(team1, team2, mapToPredict, roundNumber, team1Score, team2Score)
      && row[k] == InputRow(team1, team2, mapToPredict, roundNumber, team1Score, team2Score)[ExpectedColumnOrder[k]]
    ensures row == FeatureRow(team1, team2, mapToPredict, roundNumber, team1Score, team2Score)
  {
    var inputRow := InputRow(team1, team2, mapToPredict, roundNumber, team1Score, team2Score);
    var frame := FillMissingColumns(inputRow, ExpectedColumnOrder);
    ColumnLayout();
    SelectInputRow(AllAgents, AllMaps, team1, team2, mapToPredict, roundNumber, team1Score, team2Score);
    FillKeepsCoveredFrame(inputRow, frame, ExpectedColumnOrder);
    row := Select(frame, ExpectedColumnOrder);
  }

  /** The missing-column loop never adds a column to the dictionary
      `format_input` builds: its keys are exactly `ExpectedColumnOrder`. */
  lemma NoColumnMissing(team1: seq<string>, team2: seq<string>, mapToPredict: string,
                        roundNumber: int, team1Score: int, team2Score: int)
    ensures InputRow(team1, team2, mapToPredict, roundNumber, team1Score, team2Score).Keys
      == set c | c in ExpectedColumnOrder
  {
    ColumnLayout();
    InputRowKeys(AllAgents, AllMaps, team1, team2, mapToPredict, roundNumber, team1Score, team2Score);
  }

  // ---------------------------------------------------------------------------
  // Properties of the row

  /** The parts of a feature row, by position: the counters pass through
      unchanged, then come team 1's flags, team 2's flags and the map flags. */
  lemma FeatureRowParts(agents: seq<string>, maps: seq<string>,
                        team1: seq<string>, team2: seq<string>, mapToPredict: string,
                        roundNumber: int, team1Score: int, team2Score: int)
    ensures var row := FeatureRowOver(agents, maps, team1, team2, mapToPredict,
                                      roundNumber, team1Score, team2Score);
      && |row| == 3 + 2 * |agents| + |maps|
      && row[..3] == [roundNumber, team1Score, team2Score]
      && row[3..3 + |agents|] == Flags(agents, team1)
      && row[3 + |agents|..3 + 2 * |agents|] == Flags(agents, team2)
      && row[3 + 2 * |agents|..] == OneHot(maps, mapToPredict)
  {
  }

  /** Over a duplicate-free name table, the flags count the names in the roster. */
  lemma {:induction false} FlagsCount(names: seq<string>, roster: seq<string>)
    requires Distinct(names)
    ensures Sum(Flags(names, roster)) == |set a | a in names && a in roster|
  {
    if names != [] {
      var rest := names[1..];
      assert Flags(names, roster) == [Flag(names[0] in roster)] + Flags(rest, roster);
      assert Flags(names, roster)[1..] == Flags(rest, roster);
      FlagsCount(rest, roster);
      var here := if names[0] in roster then {names[0]} else {};
      assert (set a | a in names && a in roster) == here + set a | a in rest && a in roster;
      assert names[0] !in rest;
    }
  }

  /** A duplicate-free sequence has as many members as elements. */
  lemma {:induction false} DistinctCardinality(s: seq<string>)
    requires Distinct(s)
    ensures |set a | a in s| == |s|
  {
    if s != [] {
      DistinctCardinality(s[1..]);
      assert (set a | a in s) == {s[0]} + set a | a in s[1..];
      assert s[0] !in s[1..];
    }
  }

  /** For a duplicate-free roster drawn from the agent table, the team's flags
      add up to the roster's size. */
  lemma RosterFlagsSum(roster: seq<string>)
    requires Distinct(roster)
    requires forall a :: a in roster ==> a in AllAgents
    ensures Sum(Flags(AllAgents, roster)) == |roster|
  {
    AgentTablesDistinct();
    FlagsCount(AllAgents, roster);
    assert (set a | a in AllAgents && a in roster) == set a | a in roster;
    DistinctCardinality(roster);
  }

  /** Over a duplicate-free table, a one-hot encoding has a single 1 when `x`
      is listed and none otherwise. */
  lemma {:induction false} OneHotCount(names: seq<string>, x: string)
    requires Distinct(names)
    ensures Sum(OneHot(names, x)) == Flag(x in names)
  {
    if names != [] {
      assert OneHot(names, x)[1..] == OneHot(names[1..], x);
      OneHotCount(names[1..], x);
      assert names[0] == x ==> x !in names[1..];
    }
  }

  /** The map flags hold exactly one 1 when the chosen map is one of the eight
      maps, "TBD" included, and are all 0 for any other text. */
  lemma MapFlagsSum(mapToPredict: string)
    ensures mapToPredict in AllMaps ==> Sum(OneHot(AllMaps, mapToPredict)) == 1
    ensures mapToPredict !in AllMaps ==>
      forall k :: 0 <= k < |AllMaps| ==> OneHot(AllMaps, mapToPredict)[k] == 0
  {
    MapsDistinct();
    OneHotCount(AllMaps, mapToPredict);
  }

  /** The row depends on a roster only through which listed agents it holds:
      order, duplicates and unknown agents make no difference. */
  lemma RosterAsSet(team1: seq<string>, team1': seq<string>, team2: seq<string>, team2': seq<string>,
                    mapToPredict: string, roundNumber: int, team1Score: int, team2Score: int)
    requires forall a :: a in AllAgents ==> (a in team1 <==> a in team1')
    requires forall a :: a in AllAgents ==> (a in team2 <==> a in team2')
    ensures FeatureRow(team1, team2, mapToPredict, roundNumber, team1Score, team2Score)
         == FeatureRow(team1', team2', mapToPredict, roundNumber, team1Score, team2Score)
  {
    assert Flags(AllAgents, team1) == Flags(AllAgents, team1');
    assert Flags(AllAgents, team2) == Flags(AllAgents, team2');
  }

  /** An agent outside the agent table contributes no flag. */
  lemma UnknownAgentIgnored(team1: seq<string>, team2: seq<string>, a: string,
                            mapToPredict: string, roundNumber: int, team1Score: int, team2Score: int)
    requires a !in AllAgents
    ensures FeatureRow(team1 + [a], team2, mapToPredict, roundNumber, team1Score, team2Score)
         == FeatureRow(team1, team2, mapToPredict, roundNumber, team1Score, team2Score)
    ensures FeatureRow(team1, team2 + [a], mapToPredict, roundNumber, team1Score, team2Score)
         == FeatureRow(team1, team2, mapToPredict, roundNumber, team1Score, team2Score)
  {
    RosterAsSet(team1 + [a], team1, team2, team2, mapToPredict, roundNumber, team1Score, team2Score);
    RosterAsSet(team1, team1, team2 + [a], team2, mapToPredict, roundNumber, team1Score, team2Score);
  }
}
