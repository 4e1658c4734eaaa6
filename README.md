# Valorant round-win predictor: encoder and match session

The program is a single Tkinter window that asks a pre-trained classifier how likely each team is to win a Valorant match, round by round.
Two pieces of it hold the logic, and this project models both in Dafny:

- `features.dfy` (module `Features`) models the **feature-row encoder**
  `format_input` and the constant tables it uses:
  - the agent list, sorted;
  - the eight maps;
  - the 45-column order the model was fitted on.

  `format_input` builds a dictionary from two rosters, a map name, the round
  number and both scores, fills any missing column with 0, and reorders the
  columns by name. Here the dictionary is a `map<string, int>` and the row the
  classifier receives is a `seq<int>`. The fill loop is a method with loop
  invariants.

  `FormatInput` is proved against an independent, positional reference row
  (`FeatureRow`): three counters, then 17 team-1 flags, 17 team-2 flags and 8
  map flags. It is also proved to agree with the dictionary column by column.
  Lemmas state what the row means:
  - the counters pass through unchanged;
  - flag `team1_<a>` is 1 exactly when `a` is on team 1;
  - agents outside the table are ignored;
  - a duplicate-free roster's flags sum to its size;
  - the map flags are one-hot for a listed map and all zero otherwise;
  - the column table lists the agents in sorted order.
- `session.dfy` (module `Session`) models the **match session**. Class
  `MatchPredictor` holds the fields the window updates in place:
  - both rosters, the chosen map, the round number and both scores;
  - the visible tab;
  - a log of the rows handed to the classifier, which stands in for the
    classifier itself.

  Its methods are the button handlers `start_match`, `team1_won`,
  `team2_won` and `reset_match`, plus `make_prediction`. Their invariant is
  `roundNumber == 1 + team1Score + team2Score`, with both scores non-negative.

  The checkbox state is an input: the set of ticked agents for each team. The
  roster is read from it in checkbox order, which is the sorted agent table.

  A refused start still overwrites the rosters, as the source does:
  - team 1's roster always;
  - team 2's roster once team 1's has passed the size check.

  The rest of the match state is left alone. After such a refusal, a later
  "team won" press predicts with the overwritten roster.

The column list has 45 entries (3 + 17 + 17 + 8).

## Model

| member | source | states |
|---|---|---|
| Features.AgentsSorted | Valorant_Win_Prediction_UI.py:30-33 | The agent table is strictly increasing in Python's string order, which is what `sorted` produces. |
| Features.AgentsArePermutation | Valorant_Win_Prediction_UI.py:30-33 | The sorted agent table has the same agents as the list written in the source, each exactly once (multiset equality, no duplicates). |
| Features.ColumnLayout | Valorant_Win_Prediction_UI.py:39-49 | The expected column order is the three counters, then `team1_` and `team2_` in front of each agent in sorted order, then `Map_` in front of each map. It has 45 entries. |
| Features.AgentEncoding | Valorant_Win_Prediction_UI.py:454-455 | The per-team comprehension: one key per listed agent, the agent's name after the team prefix, holding the agent's flag. No ensures; its meaning is stated by the Team1Lookup, Team2Lookup and InputRowKeys rows. |
| Features.MapEncoding | Valorant_Win_Prediction_UI.py:458 | The map comprehension: one key per listed map, `Map_` and the map's name, holding 1 for the map to predict. No ensures; its meaning is stated by the MapLookup and InputRowKeys rows. |
| Features.InputRowOver | Valorant_Win_Prediction_UI.py:461-468 | The merge of the counters and the three encodings, a later key overriding an earlier one, over given agent and map tables. No ensures; its meaning is stated by the CounterLookup, Team1Lookup, Team2Lookup, MapLookup and InputRowKeys rows. |
| Features.InputRow | Valorant_Win_Prediction_UI.py:461-468 | `InputRowOver` over the program's agent and map tables. No ensures; its meaning is stated by the NoColumnMissing and FormatInput rows. |
| Features.CounterLookup | Valorant_Win_Prediction_UI.py:461-468 | In the merged dictionary, `RoundNumber`, `Team1_RoundScore` and `Team2_RoundScore` hold the round number and the two scores passed in. No agent or map key overrides them. |
| Features.Team1Lookup | Valorant_Win_Prediction_UI.py:454 | The key `team1_<a>` is present for every listed agent `a`. Its value is 1 exactly when `a` is on team 1. |
| Features.Team2Lookup | Valorant_Win_Prediction_UI.py:455 | The key `team2_<a>` is present for every listed agent `a`. Its value is 1 exactly when `a` is on team 2. |
| Features.MapLookup | Valorant_Win_Prediction_UI.py:458 | The key `Map_<m>` is present for every listed map `m`. Its value is 1 exactly when `m` is the map to predict. |
| Features.InputRowKeys | Valorant_Win_Prediction_UI.py:454-468 | The merged dictionary's keys are exactly the counter, team and map columns, with no other key. |
| Features.NoColumnMissing | Valorant_Win_Prediction_UI.py:461-474 | The dictionary `format_input` builds already has every expected column, so the fill loop has nothing to add. |
| Features.SelectReadsOnlyColumns | Valorant_Win_Prediction_UI.py:475 | Reordering by a column list reads only the listed columns: two frames that agree on them give the same row, whatever other keys they hold. |
| Features.SelectInputRow | Valorant_Win_Prediction_UI.py:454-475 | Selecting the dictionary's columns in table order gives the positional row: counters, team-1 flags, team-2 flags, map flags. |
| Features.FillMissingColumns | Valorant_Win_Prediction_UI.py:472-474 | The loop adds every listed column that is missing, with value 0. Columns already present keep their values, and no other key is added. |
| Features.FillKeepsCoveredFrame | Valorant_Win_Prediction_UI.py:472-474 | Filling a frame that already holds every listed column leaves it unchanged. |
| Features.FormatInput | Valorant_Win_Prediction_UI.py:452-476 | The row has 45 entries. Entry k is the dictionary's value for the k-th expected column. The whole row equals the positional reference row. |
| Features.FlagsCount | Valorant_Win_Prediction_UI.py:454-455 | Over a duplicate-free agent table, the flags add up to the number of listed agents on the roster. |
| Features.RosterFlagsSum | Valorant_Win_Prediction_UI.py:454-455 | For a duplicate-free roster drawn from the agent table, the team's flags sum to the roster's length. |
| Features.OneHotCount | Valorant_Win_Prediction_UI.py:458 | Over a duplicate-free table, the one-hot flags sum to 1 when the value is listed and to 0 otherwise. |
| Features.MapFlagsSum | Valorant_Win_Prediction_UI.py:35-36 | The map flags hold exactly one 1 for any of the eight maps, "TBD" included. They are all 0 for any other text. |
| Features.RosterAsSet | Valorant_Win_Prediction_UI.py:454-455 | Two rosters with the same listed agents give the same row, whatever their order, duplicates or unlisted entries. |
| Features.UnknownAgentIgnored | Valorant_Win_Prediction_UI.py:454-455 | Adding an agent outside the table to either roster leaves the row unchanged. |
| Session.Selected | Valorant_Win_Prediction_UI.py:361 | The roster read from the checkboxes holds exactly the listed agents that are ticked, and it is no longer than the list of checkboxes. |
| Session.SelectedKeepsOrder | Valorant_Win_Prediction_UI.py:361 | The roster is a subsequence of the checkbox list, so it keeps the checkboxes' order. It has no duplicates when the list has none. |
| Session.SelectedRoster | Valorant_Win_Prediction_UI.py:361 | A roster read from the agent checkboxes has no duplicates. Its length is the number of ticked listed agents. |
| Session.CheckboxFlags | Valorant_Win_Prediction_UI.py:361 | Each team flag in the row equals its checkbox, and the flags sum to the roster's length. |
| Session.OpeningRow | Valorant_Win_Prediction_UI.py:378-387 | The first row after a successful start:<br>• has 45 entries and starts with round 1 and scores 0-0;<br>• has one to five flags set for each team;<br>• has exactly one map flag set when the map is listed. |
| Session.MatchPredictor.constructor | Valorant_Win_Prediction_UI.py:52-57 | A new window starts with empty rosters, the first map, round 1, scores 0-0, the setup tab and no predictions. The checkboxes list the sorted agent table. |
| Session.MatchPredictor.SelectMap | Valorant_Win_Prediction_UI.py:237-239 | The map selector takes any text as the chosen map. |
| Session.MatchPredictor.MakePrediction | Valorant_Win_Prediction_UI.py:397-403 | Exactly one row is handed to the classifier: the encoding of the current rosters, map, round and scores. |
| Session.MatchPredictor.StartMatch | Valorant_Win_Prediction_UI.py:359-390 | The checkboxes list the agent table, as every constructed window has them. Rosters are read from the ticked boxes in that order. Start is refused with the matching warning when a roster is empty or has more than five agents; it starts exactly when both have one to five. On refusal, team 1's roster (and team 2's once team 1's passed) is overwritten while round, scores, tab and predictions are unchanged. On success, round 1, scores 0-0, one prediction for the new state and the prediction tab. |
| Session.MatchPredictor.BeginMatch | Valorant_Win_Prediction_UI.py:378-390 | The tail of a successful start sets round 1 and scores 0-0, asks for one prediction of the new state and shows the prediction tab. Rosters and map are unchanged. |
| Session.MatchPredictor.Team1Won | Valorant_Win_Prediction_UI.py:436-440 | Team 1's score and the round number each go up by one. Team 2's score, the rosters, the map and the tab are unchanged. One prediction for the new state is added. The round invariant is kept. |
| Session.MatchPredictor.Team2Won | Valorant_Win_Prediction_UI.py:442-446 | Team 2's score and the round number each go up by one. Team 1's score, the rosters, the map and the tab are unchanged. One prediction for the new state is added. The round invariant is kept. |
| Session.MatchPredictor.ResetMatch | Valorant_Win_Prediction_UI.py:448-450 | Only the tab changes, back to setup. Rosters, round, scores and predictions are kept. |

## Left out

- The classifier (`load_model`, the pickle file it reads, and `predict_proba`) is foreign code and I/O. It is replaced by the log `requests` of the rows it would receive.
- The win percentages, their `100 - p` complement and two-decimal formatting, and `update_probability_bars` with its pixel widths and delayed retry are left out: they are floating point and screen drawing.
- `update_score_display` is left out: it only sets label texts, from fields the model already has.
- Widget construction, fonts, colours, canvases, scrollbars and message boxes are presentation. The warnings survive as the `Refused` outcomes of `StartMatch`.
- Switching tabs by clicking the tab header is left out. That means `Team1Won` and `Team2Won` may be called in any tab, which matches the source, and `ResetMatch` and a successful `StartMatch` are the only tab changes modelled.
- The pandas DataFrame is left out: a one-row frame is a name-to-integer map, and the reordered frame is the sequence of its values.
- Scores and the round number are unbounded integers, as Python's are.
