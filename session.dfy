/** The match session: the state the predictor window keeps between button
    presses (the two rosters, the map, the round number and both scores) and
    the handlers of the "start match", "team won" and "reset match" buttons.

    Each prediction the window asks for is recorded as the feature row handed
    to the classifier; the classifier itself, the percentages and the widgets
    are not modelled. */
module Session {
  import opened Features

  /** The two tabs of the window. */
  datatype Tab = SetupTab | PredictionTab

  /** The warnings `start_match` shows when it refuses to start a match. */
  datatype Warning = NoTeam1Agent | TooManyTeam1Agents | NoTeam2Agent | TooManyTeam2Agents

  datatype StartOutcome = Started | Refused(warning: Warning)

  /** The largest roster `start_match` accepts. */
  const MaxRoster: nat := 5

  /** `r` is `s` with some elements dropped: the elements of `r` occur in `s`
      in the same order. */
  predicate Subsequence<T(==)>(r: seq<T>, s: seq<T>)
    decreases |s|
  {
    || r == []
    || (s != [] && ((r[0] == s[0] && Subsequence(r[1..], s[1..])) || Subsequence(r, s[1..])))
  }

  /** The agents whose checkbox is ticked, taken in the order the checkboxes
      (`names`) are listed. */
  function Selected(names: seq<string>, checked: set<string>): (r: seq<string>)
    ensures forall a :: a in r <==> a in names && a in checked
    ensures |r| <= |names|
  {
    if names == [] then []
    else (if names[0] in checked then [names[0]] else []) + Selected(names[1..], checked)
  }

  /** Reading the checkboxes keeps their order and, over a list without
      duplicates, repeats no agent. */
  lemma {:induction false} SelectedKeepsOrder(names: seq<string>, checked: set<string>)
    ensures Subsequence(Selected(names, checked), names)
    ensures Distinct(names) ==> Distinct(Selected(names, checked))
  {
    if names != [] {
      var rest := Selected(names[1..], checked);
      SelectedKeepsOrder(names[1..], checked);
      if names[0] in checked {
        var r := [names[0]] + rest;
        assert Selected(names, checked) == r;
        assert r[1..] == rest;
        if Distinct(names) {
          assert names[0] !in names[1..];
          forall i, j | 0 <= i < j < |r| ensures r[i] != r[j] {
            if i == 0 {
              assert r[j] == rest[j - 1];
            } else {
              assert r[i] == rest[i - 1] && r[j] == rest[j - 1];
            }
          }
        }
      } else {
        assert Selected(names, checked) == rest;
      }
    }
  }

  /** A roster `start_match` lets through: one to five agents. */
  predicate RosterSizeOk(roster: seq<string>) {
    1 <= |roster| <= MaxRoster
  }

  /** The roster taken from ticked checkboxes has one agent per ticked box of
      a listed agent, no agent twice. */
  lemma SelectedRoster(checked: set<string>)
    ensures Distinct(Selected(AllAgents, checked))
    ensures |Selected(AllAgents, checked)| == |set a | a in AllAgents && a in checked|
  {
    AgentTablesDistinct();
    SelectedKeepsOrder(AllAgents, checked);
    var r := Selected(AllAgents, checked);
    DistinctCardinality(r);
    assert (set a | a in r) == set a | a in AllAgents && a in checked;
  }

  /** The team flags of a roster taken from the checkboxes are exactly the
      ticked boxes, and they add up to the roster's size. */
  lemma CheckboxFlags(checked: set<string>)
    ensures forall k :: 0 <= k < |AllAgents| ==>
      Flags(AllAgents, Selected(AllAgents, checked))[k] == Flag(AllAgents[k] in checked)
    ensures Sum(Flags(AllAgents, Selected(AllAgents, checked))) == |Selected(AllAgents, checked)|
  {
    SelectedRoster(checked);
    RosterFlagsSum(Selected(AllAgents, checked));
  }

  /** The first row a successful start hands to the classifier: round 1 with
      no score, between one and five flags set for each team, and exactly one
      map flag when the map is one of the eight known maps. */
  lemma OpeningRow(checked1: set<string>, checked2: set<string>, mapToPredict: string)
    requires RosterSizeOk(Selected(AllAgents, checked1))
    requires RosterSizeOk(Selected(AllAgents, checked2))
    ensures var row := FeatureRow(Selected(AllAgents, checked1), Selected(AllAgents, checked2),
                                  mapToPredict, 1, 0, 0);
      && |row| == 45
      && row[..3] == [1, 0, 0]
      && 1 <= Sum(row[3..20]) <= MaxRoster
      && 1 <= Sum(row[20..37]) <= MaxRoster
      && (mapToPredict in AllMaps ==> Sum(row[37..]) == 1)
  {
    var team1, team2 := Selected(AllAgents, checked1), Selected(AllAgents, checked2);
    FeatureRowParts(AllAgents, AllMaps, team1, team2, mapToPredict, 1, 0, 0);
    CheckboxFlags(checked1);
    CheckboxFlags(checked2);
    MapFlagsSum(mapToPredict);
  }

  /** The window's match state. */
  class MatchPredictor {
    /** The agents offered as checkboxes, in the order they are shown. */
    const agentBoxes: seq<string>
    var team1Agents: seq<string>
    var team2Agents: seq<string>
    var selectedMap: string
    var roundNumber: int
    var team1Score: int
    var team2Score: int
    var tab: Tab
    /** The rows handed to the classifier, oldest first. */
    var requests: seq<seq<int>>

    /** Every round played so far has gone to exactly one team. */
    ghost predicate Valid()
      reads this
    {
      && 0 <= team1Score && 0 <= team2Score
      && roundNumber == 1 + team1Score + team2Score
      && (forall k :: 0 <= k < |requests| ==> |requests[k]| == |ExpectedColumnOrder|)
    }

    /** The row the classifier gets for the current state. */
    ghost function CurrentRow(): seq<int>
      reads this
    {
      FeatureRow(team1Agents, team2Agents, selectedMap, roundNumber, team1Score, team2Score)
    }

    constructor ()
      ensures Valid() && agentBoxes == AllAgents
      ensures team1Agents == [] && team2Agents == [] && selectedMap == AllMaps[0]
      ensures roundNumber == 1 && team1Score == 0 && team2Score == 0
      ensures tab == SetupTab && requests == []
    {
      agentBoxes := AllAgents;
      team1Agents, team2Agents := [], [];
      selectedMap := AllMaps[0];
      roundNumber, team1Score, team2Score := 1, 0, 0;
      tab := SetupTab;
      requests := [];
    }

    /** Typing or picking a map in the map selector, which accepts any text. */
    method SelectMap(m: string)
      requires Valid()
      modifies this`selectedMap
      ensures Valid() && selectedMap == m
    {
      selectedMap := m;
    }

    /** `make_prediction`: encode the current state and hand the row to the
        classifier. */
    method MakePrediction()
      requires Valid()
      modifies this`requests
      ensures Valid()
      ensures requests == old(requests) + [CurrentRow()]
    {
      var row := FormatInput(team1Agents, team2Agents, selectedMap, roundNumber, team1Score, team2Score);
      requests := requests + [row];
    }

    /** `start_match`: read both rosters from the checkboxes and, when each
        has one to five agents, start a new match at round 1 with no score and
        ask for a first prediction. Team 1's roster is stored before it is
        checked, and team 2's once team 1's has passed, so a refused start
        still replaces them; the round, the scores, the tab and the
        predictions stay as they were. */
    method StartMatch(checked1: set<string>, checked2: set<string>) returns (outcome: StartOutcome)
      requires Valid() && agentBoxes == AllAgents
      modifies this
      ensures Valid()
      ensures selectedMap == old(selectedMap)
      ensures team1Agents == Selected(agentBoxes, checked1)
      ensures team2Agents ==
        if RosterSizeOk(team1Agents) then Selected(agentBoxes, checked2) else old(team2Agents)
      ensures outcome.Started? <==> RosterSizeOk(team1Agents) && RosterSizeOk(team2Agents)
      ensures outcome == Refused(NoTeam1Agent) <==> |team1Agents| == 0
      ensures outcome == Refused(TooManyTeam1Agents) <==> |team1Agents| > MaxRoster
      ensures outcome == Refused(NoTeam2Agent) <==>
        RosterSizeOk(team1Agents) && |team2Agents| == 0
      ensures outcome == Refused(TooManyTeam2Agents) <==>
        RosterSizeOk(team1Agents) && |team2Agents| > MaxRoster
      ensures outcome.Refused? ==>
        && roundNumber == old(roundNumber) && team1Score == old(team1Score)
        && team2Score == old(team2Score) && tab == old(tab) && requests == old(requests)
      ensures outcome.Started? ==>
        && roundNumber == 1 && team1Score == 0 && team2Score == 0 && tab == PredictionTab
        && requests == old(requests) + [CurrentRow()]
    {
      team1Agents := Selected(agentBoxes, checked1);
      if |team1Agents| == 0 {
        return Refused(NoTeam1Agent);
      }
      if |team1Agents| > MaxRoster {
        return Refused(TooManyTeam1Agents);
      }
      team2Agents := Selected(agentBoxes, checked2);
      if |team2Agents| == 0 {
        return Refused(NoTeam2Agent);
      }
      if |team2Agents| > MaxRoster {
        return Refused(TooManyTeam2Agents);
      }
      BeginMatch();
      outcome := Started;
    }

    /** The end of a successful `start_match`: round 1, no score, a first
        prediction and the prediction tab. */
    method BeginMatch()
      requires Valid()
      modifies this
      ensures Valid()
      ensures team1Agents == old(team1Agents) && team2Agents == old(team2Agents)
      ensures selectedMap == old(selectedMap)
      ensures roundNumber == 1 && team1Score == 0 && team2Score == 0 && tab == PredictionTab
      ensures requests == old(requests) + [CurrentRow()]
    {
      roundNumber, team1Score, team2Score := 1, 0, 0;
      MakePrediction();
      tab := PredictionTab;
    }

    /** `team1_won`: team 1 takes the round; the next round begins and a new
        prediction is asked for. */
    method Team1Won()
      requires Valid()
      modifies this
      ensures Valid()
      ensures team1Score == old(team1Score) + 1 && team2Score == old(team2Score)
      ensures roundNumber == old(roundNumber) + 1
      ensures team1Agents == old(team1Agents) && team2Agents == old(team2Agents)
      ensures selectedMap == old(selectedMap) && tab == old(tab)
      ensures requests == old(requests) + [CurrentRow()]
    {
      team1Score := team1Score + 1;
      roundNumber := roundNumber + 1;
      MakePrediction();
    }

    /** `team2_won`: team 2 takes the round; the next round begins and a new
        prediction is asked for. */
    method Team2Won()
      requires Valid()
      modifies this
      ensures Valid()
      ensures team2Score == old(team2Score) + 1 && team1Score == old(team1Score)
      ensures roundNumber == old(roundNumber) + 1
      ensures team1Agents == old(team1Agents) && team2Agents == old(team2Agents)
      ensures selectedMap == old(selectedMap) && tab == old(tab)
      ensures requests == old(requests) + [CurrentRow()]
    {
      team2Score := team2Score + 1;
      roundNumber := roundNumber + 1;
      MakePrediction();
    }

    /** `reset_match`: go back to the setup tab. The match state is left as
        it is; only the next successful start clears it. */
    method ResetMatch()
      requires Valid()
      modifies this`tab
      ensures Valid() && tab == SetupTab
    {
      tab := SetupTab;
    }
  }
}
