# Matchday pipeline core, modelled in Dafny

This project models the data logic of a football-analytics pipeline. The pipeline reads
play-by-play event records and team lineup records, validates them, and derives five tables:

- each player's time on the pitch;
- the match duration;
- the passes per player;
- the goal timeline;
- the first foul of the second half.

A set of asset checks then judges each table.

The modelled parts are:

- `parse_timestamp_to_seconds`, the timestamp parser (`utils.py`);
- `DataValidator.validate_lineup` and `DataValidator.validate_events`, which build a
  `ValidationResult` (`models.py`);
- the validation gates `validated_lineup` and `validated_events`, with the event-type
  histogram (`assets/validation.py`);
- the computational bodies of the five analysis assets (`assets/analysis.py`);
- the six `check_*` asset checks (`checks/asset_checks.py`).

The records are parsed JSON, so they are modelled as a `Json` datatype (module `Json`).

- Numbers are `real`, so `1` and `1.0` are the same value, as in Python.
- `dict.get(k, default)`, `k in x`, `len(x)` and `bool(x)` are total functions over it.
- Where the Python code would raise (`event["type"]` on a missing key, `.get` on a string,
  `in` on a number), the model has a `requires` clause stating what the input must provide.
- Empty tables are handled differently. `player_time_on_pitch` and `total_passes_per_player`
  raise KeyError on one, because pandas builds a DataFrame without columns from an empty
  list. Their models return a `Result`, which is `Failure` exactly when the table would be
  empty (see "## Findings").
- `for x in d.get(k, [])` accepts a list, and also an empty dict or string, which it iterates
  zero times.

Python dicts that the loops mutate (`period_durations`, `player_passes`, `event_types`) are
insertion-ordered association lists (module `OrderedDict`): `d[k] = v` overwrites in place
or appends. The `sorted(...)` and pandas `sort_values` calls are modelled by an insertion
sort. Only its promise is relied on: the result is ordered by the key and is a permutation
of its input.

The code works by changing state step by step, and the model keeps that form. Each loop is
a Dafny `method` with its invariants, and each method is proved equal to a specification
function of its input:

- `TimeOnPitch.PlayerTimeOnPitch` equals `TimeOnPitchAsset`, which is `TimeTable` or a failure;
- `MatchDuration.CalculateMatchDuration` equals `DurationRow`;
- `PassCounts.TotalPassesPerPlayer` equals `PassesAsset`, which is `PassTable` or a failure;
- `GoalTimeline.GetGoalMinutes` equals `GoalTable`;
- `FirstFoul.GetFirstFoulInSecondHalf` equals `FoulTable`;
- `Models.ValidateLineup` and `Models.ValidateEvents` equal `LineupReport` and `EventsReport`;
- `Validation.ValidatedLineup` and `Validation.ValidatedEvents` equal `LineupGateOf` and `EventsGateOf`.

What the pipeline promises is then proved as lemmas about those functions. The asset checks
are pure, and are functions whose contracts state when they pass.

Where the pipeline's written description and its code disagree, the model follows the code:

- `validate_events` checks the required keys on the first event only, not on every event.
- The duplicate-id warning is a single fixed message, not a list of indices.
- No step removes duplicate events or players. Own goals are the only de-duplication, through
  the `(period, timestamp)` key set.
- Match duration keeps the last "Half End" time of each period. So two period-1 "Half End"
  events at 00:45:00 and 00:48:30 and one period-2 event at 00:45:15 give
  2910 + 2715 = 5625 seconds, not the sum of all three
  (`MatchDuration.OverwriteExampleFormatted`).
- The pass-count sort is not promised to be stable, so no tie order is claimed.
- `player_time_on_pitch` compares the whole `type` value of a team event with the string
  "Half End". The other analyses compare `type.name`.

## Model

| member | source | states |
|---|---|---|
| Utils.Split | src/matchday_pipeline/defs/utils.py:11 | `ts.split(":")` gives at least one piece, and no piece contains the separator |
| Utils.SplitJoin | src/matchday_pipeline/defs/utils.py:11 | joining the pieces with ":" gives back the original string |
| Utils.SplitCount | src/matchday_pipeline/defs/utils.py:11-13 | there is one piece more than there are colons, so exactly three pieces means exactly two colons |
| Utils.ParseFloat | src/matchday_pipeline/defs/utils.py:17 | a seconds field that parses is never negative |
| Utils.ParseTimestampToSeconds | src/matchday_pipeline/defs/utils.py:1-21 | never negative and never raises; non-zero only for a string with exactly two colons, so falsy or non-string input and a wrong number of parts give 0.0 |
| Utils.FieldsValue | src/matchday_pipeline/defs/utils.py:15-19 | for digit fields h and m and a seconds field s that parses, "h:m:s" gives `h*3600 + m*60 + s` |
| Utils.DecimalFieldValue | src/matchday_pipeline/defs/utils.py:17 | a "whole.frac" seconds field is read as the decimal it spells |
| Utils.SecondsMonotone | src/matchday_pipeline/defs/utils.py:19 | with h and m fixed, a larger seconds field gives a strictly larger result |
| Utils.NonZeroIsWellFormed | src/matchday_pipeline/defs/utils.py:10-21 | any string mapped to a non-zero value is two digit fields and a parsable seconds field joined by colons |
| Utils.FormatRoundTrip | src/matchday_pipeline/defs/utils.py:15-19 | parsing a rendered "HH:MM:SS.mmm" gives back `h*3600 + m*60 + s + ms/1000` |
| Utils.ZeroTimestamp | src/matchday_pipeline/defs/assets/analysis.py:150 | the default timestamp "00:00:00.000" is worth 0 seconds |
| Utils.ParserZeroExamples | src/matchday_pipeline/defs/utils.py:7-8 | None and an unparsable string give 0.0 |
| Decimal.NatToStringValue | src/matchday_pipeline/defs/models.py:53 | the decimal text of an index denotes that index |
| Decimal.NatToStringInjective | src/matchday_pipeline/defs/models.py:53 | different indices are rendered differently |
| Events.SecondsOfTimestamp | src/matchday_pipeline/defs/assets/analysis.py:492-493 | parsing `event.get("timestamp", "00:00:00.000")` gives the event's time in seconds, 0 when it has no timestamp |
| OrderedDict.LookupIffKey | src/matchday_pipeline/defs/assets/analysis.py:244 | `d.get(k)` finds a value exactly when `k` is a key |
| OrderedDict.PutKeys | src/matchday_pipeline/defs/assets/analysis.py:154 | `d[k] = v` keeps the keys in order and appends `k` only when it is new |
| OrderedDict.PutOther | src/matchday_pipeline/defs/assets/analysis.py:154 | `d[k] = v` leaves every other key's value alone |
| OrderedDict.PutLookup | src/matchday_pipeline/defs/assets/analysis.py:154 | after `d[k] = v`, `d[k]` is `v` |
| OrderedDict.PutPut | src/matchday_pipeline/defs/assets/analysis.py:154 | a second assignment to a key replaces the first, in the same place |
| OrderedDict.PutKeepsDistinct | src/matchday_pipeline/defs/assets/analysis.py:154 | assignment never creates a duplicate key |
| OrderedDict.Tally | src/matchday_pipeline/defs/assets/validation.py:75 | `d[k] = d.get(k, 0) + 1` adds one to `k`'s count, appends `k` when it is new, and changes no other count |
| OrderedDict.TallyTotal | src/matchday_pipeline/defs/assets/validation.py:75 | one tally adds exactly one to the sum of the counts |
| Sorting.SortBy | src/matchday_pipeline/defs/assets/analysis.py:423 | the sort returns its input reordered (same multiset) and non-decreasing by the key |
| Models.ValidateLineup | src/matchday_pipeline/defs/models.py:38-58 | the loops build exactly `LineupReport(data)` |
| Models.MissingFieldsExact | src/matchday_pipeline/defs/models.py:45-47 | a name is reported missing exactly when it is required and absent, and the report keeps the order of the required list |
| Models.LineupValidity | src/matchday_pipeline/defs/models.py:41-58 | `errors` is empty; valid exactly when every required key is present; missing names are exactly the absent ones, in list order; `record_count` is the length of `lineup`, or 0 without one |
| Models.MissingPlayerIdMessageInjective | src/matchday_pipeline/defs/models.py:53 | a warning's text determines the index it names |
| Models.PlayerIdWarningsExact | src/matchday_pipeline/defs/models.py:50-53 | the warnings are exactly the messages for the entries without `player_id`, each naming its index |
| Models.PlayerIdWarningsDistinct | src/matchday_pipeline/defs/models.py:50-53 | no warning is repeated, so there is exactly one per entry without `player_id` |
| Models.ValidateEvents | src/matchday_pipeline/defs/models.py:60-85 | the loops build exactly `EventsReport(data)` |
| Models.EventsReportShape | src/matchday_pipeline/defs/models.py:67-85 | non-list input gives invalid, one error and count 0; a list gives no error, its length as count, and is valid exactly when it is empty or its first event has every required key, the missing list naming the absent ones |
| Models.OnlyFirstEventChecked | src/matchday_pipeline/defs/models.py:72-76 | two lists with the same first event get the same validity and missing list, whatever follows |
| Models.EventIdsHas | src/matchday_pipeline/defs/models.py:79 | the id of every event that has one is collected |
| Models.EventIdsFrom | src/matchday_pipeline/defs/models.py:79 | every collected id is the id of some event |
| Models.EventIdsMembers | src/matchday_pipeline/defs/models.py:79 | the collected ids are exactly the ids of the events that carry one |
| Models.SharedIdSnoc | src/matchday_pipeline/defs/models.py:79-80 | one more event shares an id exactly when ids were already shared or the new event repeats an earlier id |
| Models.EventIdsDistinct | src/matchday_pipeline/defs/models.py:79-80 | the collected ids are pairwise distinct exactly when no two events share an id |
| Models.DuplicateWarningIff | src/matchday_pipeline/defs/models.py:79-83 | the one duplicate warning appears exactly when two events share an id, there is at most one warning, and validity does not depend on it |
| Validation.AllValidSnoc | src/matchday_pipeline/defs/assets/validation.py:29-30 | after one more result, `all_valid` holds exactly when it held before and the new result is valid |
| Validation.ValidateTeam | src/matchday_pipeline/defs/assets/validation.py:26-30 | one loop step appends the team's `validate_lineup` result and keeps `all_valid` equal to "every result so far is valid" |
| Validation.ValidateTeams | src/matchday_pipeline/defs/assets/validation.py:25-35 | every team is validated, in order, and `all_valid` says whether every result is valid |
| Validation.ValidatedLineup | src/matchday_pipeline/defs/assets/validation.py:12-48 | the gate computes exactly `LineupGateOf(raw)` |
| Validation.SumRecordCounts | src/matchday_pipeline/defs/assets/validation.py:43 | `total_players` is the sum of the results' record counts |
| Validation.LineupGatePasses | src/matchday_pipeline/defs/assets/validation.py:18-38 | the gate passes exactly when every team (a non-list input counts as one team) has every required lineup key |
| Validation.LineupGatePassed | src/matchday_pipeline/defs/assets/validation.py:40-48 | on success the input itself is handed on, not the wrapped list, with the team count and the sum of the record counts |
| Validation.LineupGateFailed | src/matchday_pipeline/defs/assets/validation.py:25-38 | on failure every team has still been validated, in order |
| Validation.ValidatedEvents | src/matchday_pipeline/defs/assets/validation.py:56-88 | the gate computes exactly `EventsGateOf(raw)` |
| Validation.EventTypeCountsExact | src/matchday_pipeline/defs/assets/validation.py:72-75 | the histogram has one key per distinct type name, "Unknown" for events without a type, holding the number of events with that name |
| Validation.EventTypeCountsTotal | src/matchday_pipeline/defs/assets/validation.py:72-75 | the counts add up to the number of events |
| Validation.TopEventsSpec | src/matchday_pipeline/defs/assets/validation.py:83 | `top_events` holds min(5, number of types) histogram entries, largest count first, and no entry left out has a larger count than one kept |
| Validation.EventsGateSpec | src/matchday_pipeline/defs/assets/validation.py:61-88 | the gate passes exactly when `validate_events` is valid; then it hands on its input, whose length equals the histogram's total, with at most 5 top entries |
| TimeOnPitch.LatestHalfEnd | src/matchday_pipeline/defs/assets/analysis.py:35-43 | the events loop computes `MatchEndTime(events)` |
| TimeOnPitch.SecondsOnPitch | src/matchday_pipeline/defs/assets/analysis.py:49-69 | the positions loop computes `TotalTime(positions, match_end_time)` |
| TimeOnPitch.PlayerTimeRow | src/matchday_pipeline/defs/assets/analysis.py:46-82 | one player's row is `PlayerRow` of the entry |
| TimeOnPitch.TeamPlayerTimes | src/matchday_pipeline/defs/assets/analysis.py:46-82 | the players loop appends exactly the team's rows, in lineup order |
| TimeOnPitch.PlayerTimeOnPitch | src/matchday_pipeline/defs/assets/analysis.py:28-89 | the function's outcome is exactly `TimeOnPitchAsset(validated_lineup)` |
| TimeOnPitch.TimeOnPitchAsset | src/matchday_pipeline/defs/assets/analysis.py:85-89 | raises KeyError exactly when no team has a lineup entry, since `df["played_match"]` finds no column; otherwise returns the time table, with one row per lineup entry |
| TimeOnPitch.MatchEndTimeBound | src/matchday_pipeline/defs/assets/analysis.py:38-43 | every "Half End" event sets a match end no earlier than its own time |
| TimeOnPitch.MatchEndTimeAttained | src/matchday_pipeline/defs/assets/analysis.py:38-43 | a match end is the time of one of the team's "Half End" events |
| TimeOnPitch.MatchEndTimeIsMax | src/matchday_pipeline/defs/assets/analysis.py:35-43 | the match end is None exactly when the team has no "Half End" event, and otherwise is the largest "Half End" time |
| TimeOnPitch.TotalTimeAppend | src/matchday_pipeline/defs/assets/analysis.py:52-69 | the total over two lists of positions is the sum of their totals |
| TimeOnPitch.TotalTimeNonNegative | src/matchday_pipeline/defs/assets/analysis.py:67-69 | when no non-empty spell ends before it starts, the total is not negative (durations are not clamped) |
| TimeOnPitch.PlayerRowsSpec | src/matchday_pipeline/defs/assets/analysis.py:46-82 | one row per lineup entry, in order, with its `player_id`, its name or "Unknown", the team's name and match id, its total, `seconds = 60 * minutes`, and `played_match` exactly when the total is positive |
| TimeOnPitch.PlayerRowsLength | src/matchday_pipeline/defs/assets/analysis.py:46-82 | a team gets as many rows as its lineup has entries |
| TimeOnPitch.TeamRowsLength | src/matchday_pipeline/defs/assets/analysis.py:46 | a team's rows are as many as the entries of its `lineup` |
| TimeOnPitch.TimeTableLength | src/matchday_pipeline/defs/assets/analysis.py:31-82 | the table has one row per lineup entry over all teams |
| TimeOnPitch.TimeTableBlock | src/matchday_pipeline/defs/assets/analysis.py:31-82 | team `k`'s rows sit right after the rows of the teams before it |
| TimeOnPitch.TimeTableLayout | src/matchday_pipeline/defs/assets/analysis.py:31-82 | the table is exactly the teams' rows one after the other, teams in input order |
| TimeOnPitch.TotalTimeSingle | src/matchday_pipeline/defs/assets/analysis.py:53-69 | an empty position adds nothing, and a non-empty one adds `end - start` |
| TimeOnPitch.ClosedSpell | src/matchday_pipeline/defs/assets/analysis.py:64-68 | a spell with a `to` lasts its parsed `to` minus its parsed `from`, whatever the match end |
| TimeOnPitch.OpenSpell | src/matchday_pipeline/defs/assets/analysis.py:58-63 | a spell with `to` None ends at the match end, or at 5400 when the team has no "Half End" event |
| TimeOnPitch.ClosedSpellExample | src/matchday_pipeline/defs/assets/analysis.py:54-68 | a spell between two "HH:MM:SS.000" times lasts the difference of the times in seconds |
| TimeOnPitch.OpenSpellExample | src/matchday_pipeline/defs/assets/analysis.py:58-63 | an open spell from kick-off, with no "Half End" event, lasts 5400 seconds |
| MatchDuration.RecordPeriodDurations | src/matchday_pipeline/defs/assets/analysis.py:142-154 | the events loop builds exactly `PeriodDurations(events)` |
| MatchDuration.SumPeriodDurations | src/matchday_pipeline/defs/assets/analysis.py:157-161 | the summing loop computes the sum of the recorded durations |
| MatchDuration.CalculateMatchDuration | src/matchday_pipeline/defs/assets/analysis.py:140-177 | the function returns exactly `DurationRow(events)` |
| MatchDuration.RecordedPeriodsSnoc | src/matchday_pipeline/defs/assets/analysis.py:145-154 | one more event adds its period to the recorded periods exactly when it is a "Half End" event with a period |
| MatchDuration.PeriodKeys | src/matchday_pipeline/defs/assets/analysis.py:145-154 | each recorded period is a key exactly once, and the keys are the periods of the recording events |
| MatchDuration.LastWriteWinsAt | src/matchday_pipeline/defs/assets/analysis.py:145-154 | a period's value is the parsed timestamp of the last event recording that period |
| MatchDuration.LastWriteWins | src/matchday_pipeline/defs/assets/analysis.py:145-154 | the same for every period at once: later "Half End" events overwrite earlier ones |
| MatchDuration.DurationRowSpec | src/matchday_pipeline/defs/assets/analysis.py:157-177 | `num_periods` is the number of distinct recorded periods, the total is the sum of their durations, milliseconds are 1000 times seconds and seconds are 60 times minutes, and `match_id` comes from the first event |
| MatchDuration.DurationsNonNegative | src/matchday_pipeline/defs/assets/analysis.py:153-161 | no recorded duration, and so no total, is negative |
| MatchDuration.SumNonNegative | src/matchday_pipeline/defs/assets/analysis.py:157-161 | a sum of non-negative durations is not negative |
| MatchDuration.PeriodDurationsLast | src/matchday_pipeline/defs/assets/analysis.py:154 | a recording event assigns its time to its period in the dict built so far |
| MatchDuration.OverwriteStep | src/matchday_pipeline/defs/assets/analysis.py:154 | a second "Half End" of the same period replaces the first's time |
| MatchDuration.NewPeriodStep | src/matchday_pipeline/defs/assets/analysis.py:145-154 | a "Half End" of a new period is appended after those already recorded |
| MatchDuration.OverwriteExample | src/matchday_pipeline/defs/assets/analysis.py:145-161 | period 1 ending at 2700 and then 2910 s and period 2 at 2715 s give 2 periods and 5625 s |
| MatchDuration.OverwriteExampleFormatted | src/matchday_pipeline/defs/assets/analysis.py:145-161 | the same with the timestamps written as "HH:MM:SS.000" strings: the first period-1 time does not count |
| PassCounts.Record | src/matchday_pipeline/defs/assets/analysis.py:244-252 | a counted pass leaves its passer with an entry one pass larger, whose names are unchanged, or are the pass's own for a new entry |
| PassCounts.RecordOther | src/matchday_pipeline/defs/assets/analysis.py:244-252 | a counted pass leaves every other player's entry alone |
| PassCounts.AddAbsentKeys | src/matchday_pipeline/defs/assets/analysis.py:263-268 | adding a lineup player appends its id only when it is not yet a key |
| PassCounts.CountPass | src/matchday_pipeline/defs/assets/analysis.py:233-252 | one step of the events loop records the pass exactly when it is a "Pass" with a known player id |
| PassCounts.CountPasses | src/matchday_pipeline/defs/assets/analysis.py:230-252 | the events loop builds exactly `PassTally(events)` |
| PassCounts.AddTeamPlayers | src/matchday_pipeline/defs/assets/analysis.py:256-268 | the lineup loop for one team builds exactly `PadPlayers` |
| PassCounts.AddLineupPlayers | src/matchday_pipeline/defs/assets/analysis.py:255-268 | the lineup loop over all teams builds exactly `PadTeams` |
| PassCounts.TotalPassesPerPlayer | src/matchday_pipeline/defs/assets/analysis.py:213-287 | the function's outcome is exactly `PassesAsset(events, lineup)` |
| PassCounts.PassesAsset | src/matchday_pipeline/defs/assets/analysis.py:284-287 | raises KeyError exactly when no player made a counted pass and the lineup lists no player, since `sort_values("total_passes")` finds no column; otherwise returns the pass table |
| PassCounts.PassTallyCounts | src/matchday_pipeline/defs/assets/analysis.py:237-252 | a player has an entry exactly when they made a counted pass, and it holds their number of counted passes |
| PassCounts.PassTallyNamesStep | src/matchday_pipeline/defs/assets/analysis.py:244-249 | an existing entry keeps its names; a new entry takes the names of the pass that created it |
| PassCounts.PassTallyFirst | src/matchday_pipeline/defs/assets/analysis.py:244-249 | an entry's player and team names are those of the player's first counted pass |
| PassCounts.PassTallyDistinct | src/matchday_pipeline/defs/assets/analysis.py:244 | each player id is a key at most once |
| PassCounts.RecordTotal | src/matchday_pipeline/defs/assets/analysis.py:252 | each counted pass adds exactly one to the sum of the counts |
| PassCounts.PassTallyTotal | src/matchday_pipeline/defs/assets/analysis.py:233-252 | the counts add up to the number of counted passes |
| PassCounts.PadPlayersPrefix | src/matchday_pipeline/defs/assets/analysis.py:258-268 | the lineup loop for one team keeps the existing entries and appends only zero entries with the team's name, for ids not yet present |
| PassCounts.PadPlayersHas | src/matchday_pipeline/defs/assets/analysis.py:258-268 | every player of the team has an entry afterwards |
| PassCounts.PadPlayersCovers | src/matchday_pipeline/defs/assets/analysis.py:258-268 | every lineup entry's id is a key afterwards |
| PassCounts.PadPlayersDistinct | src/matchday_pipeline/defs/assets/analysis.py:263-268 | the keys stay distinct |
| PassCounts.PadTeamsPrefix | src/matchday_pipeline/defs/assets/analysis.py:255-268 | the lineup loop keeps the events loop's entries, so counted players keep their counts, and appends only zero entries for new ids |
| PassCounts.PadTeamsCovers | src/matchday_pipeline/defs/assets/analysis.py:255-268 | every player of every team has an entry afterwards |
| PassCounts.PadTeamsDistinct | src/matchday_pipeline/defs/assets/analysis.py:255-268 | the keys stay distinct |
| PassCounts.PadPlayersOrigin | src/matchday_pipeline/defs/assets/analysis.py:258-268 | the lineup loop for one team adds only ids of that team's players |
| PassCounts.PadTeamsOrigin | src/matchday_pipeline/defs/assets/analysis.py:255-268 | the lineup loop adds only ids of lineup players |
| PassCounts.RowsIds | src/matchday_pipeline/defs/assets/analysis.py:273-281 | the rows carry the dict's keys, in order |
| PassCounts.PermutationIds | src/matchday_pipeline/defs/assets/analysis.py:287 | reordering the rows keeps their set of ids and keeps them distinct |
| PassCounts.PaddedCount | src/matchday_pipeline/defs/assets/analysis.py:230-268 | after both loops, every entry holds its player's number of counted passes |
| PassCounts.PaddedOrigin | src/matchday_pipeline/defs/assets/analysis.py:230-268 | after both loops, every entry belongs to a player who passed or who is in the lineup |
| PassCounts.PaddedHasPassers | src/matchday_pipeline/defs/assets/analysis.py:230-268 | after both loops, every passer has an entry |
| PassCounts.PassTableOrder | src/matchday_pipeline/defs/assets/analysis.py:273-287 | the table is non-increasing in `total_passes` and is a reordering of the dict's rows; its ids are the dict's keys and are distinct |
| PassCounts.PassTableRows | src/matchday_pipeline/defs/assets/analysis.py:230-287 | each row holds its player's number of counted passes, and belongs to a passer or a lineup player |
| PassCounts.PassTableEmpty | src/matchday_pipeline/defs/assets/analysis.py:230-287 | the table is empty exactly when no player made a counted pass and the lineup lists no player |
| PassCounts.PassTableCovers | src/matchday_pipeline/defs/assets/analysis.py:230-287 | every player with a counted pass and every lineup player has a row |
| GoalTimeline.ClassifyEvent | src/matchday_pipeline/defs/assets/analysis.py:343-368 | the classification computes `Classify` and adds the key of each "Own Goal Against" event to the processed set |
| GoalTimeline.BuildGoalRow | src/matchday_pipeline/defs/assets/analysis.py:370-416 | the row built for a goal is `RowOf(event, goal_type)` |
| GoalTimeline.ScanEvent | src/matchday_pipeline/defs/assets/analysis.py:342-416 | one step of the events loop appends `NewGoals` and updates the processed own goals |
| GoalTimeline.CollectGoals | src/matchday_pipeline/defs/assets/analysis.py:338-416 | the events loop builds exactly `Goals(events)` |
| GoalTimeline.GetGoalMinutes | src/matchday_pipeline/defs/assets/analysis.py:338-447 | the function returns exactly `GoalTable(events)`; it requires what the events loop reads and, since the metadata block raises otherwise, a number or bool `minute` and a hashable period and team name on every goal row |
| GoalTimeline.RowMetadataIff | src/matchday_pipeline/defs/assets/analysis.py:404-447 | a goal row's `minute`, `period` and `team_name` can be summarised by the metadata block (a number or bool minute; hashable period and team) exactly when the event's own `minute` is absent, null, a number or a bool and its period and team name are hashable |
| GoalTimeline.MetadataReadableOf | src/matchday_pipeline/defs/assets/analysis.py:426-447 | when every scored shot and "Own Goal Against" event has such fields, the metadata block cannot raise on any row of the table, which is what `GetGoalMinutes` requires |
| GoalTimeline.OwnGoalKeyIn | src/matchday_pipeline/defs/assets/analysis.py:355-365 | every "Own Goal Against" event's key ends up processed |
| GoalTimeline.OwnGoalKeyFrom | src/matchday_pipeline/defs/assets/analysis.py:355-365 | every processed key is that of an "Own Goal Against" event |
| GoalTimeline.OwnGoalKeysSpec | src/matchday_pipeline/defs/assets/analysis.py:355-365 | a key is processed exactly when some "Own Goal Against" event carries it |
| GoalTimeline.GoalsCount | src/matchday_pipeline/defs/assets/analysis.py:342-416 | there is one goal per scored shot and one per distinct own-goal key |
| GoalTimeline.OwnGoalOncePerKey | src/matchday_pipeline/defs/assets/analysis.py:355-365 | each own-goal key that an "Own Goal Against" event carries gives exactly one "Own Goal" row, and no other key gives any |
| GoalTimeline.RowKey | src/matchday_pipeline/defs/assets/analysis.py:399-408 | a row carries its goal type and its event's period and timestamp |
| GoalTimeline.GoalsFrom | src/matchday_pipeline/defs/assets/analysis.py:350-370 | each row comes from a scored shot (as "Goal") or an "Own Goal Against" event (as "Own Goal"); "Own Goal For" gives none |
| GoalTimeline.ShotGoalRows | src/matchday_pipeline/defs/assets/analysis.py:350-354 | there are as many "Goal" rows as shots whose outcome is "Goal" |
| GoalTimeline.ClockSpec | src/matchday_pipeline/defs/assets/analysis.py:376-377 | for a non-negative time, the clock minute is at least 0, the clock second lies in [0, 60), and `60*minute + second` is the whole seconds of the time |
| GoalTimeline.SortedTable | src/matchday_pipeline/defs/assets/analysis.py:422-424 | numbering the sorted goals keeps every goal, orders them by time and numbers them 1 to n |
| GoalTimeline.GoalTableSpec | src/matchday_pipeline/defs/assets/analysis.py:419-424 | the table holds exactly the collected goals, ordered by time, numbered 1 to n |
| FirstFoul.BuildFoulRow | src/matchday_pipeline/defs/assets/analysis.py:491-522 | the record built for a foul is `FoulOf(event)` |
| FirstFoul.GetFirstFoulInSecondHalf | src/matchday_pipeline/defs/assets/analysis.py:483-528 | the loop with its `break` returns exactly `FoulTable(events)` |
| FirstFoul.FirstFoulAt | src/matchday_pipeline/defs/assets/analysis.py:486-524 | the result is the record of a period-2 "Foul Committed" event that no earlier such event precedes |
| FirstFoul.FirstFoulFrom | src/matchday_pipeline/defs/assets/analysis.py:486-524 | any result is the record of the first period-2 foul |
| FirstFoul.FirstFoulNone | src/matchday_pipeline/defs/assets/analysis.py:486-524 | there is no result exactly when no event is a period-2 foul |
| FirstFoul.FoulTableSpec | src/matchday_pipeline/defs/assets/analysis.py:527-528 | the table is empty exactly when there is no period-2 foul, and otherwise holds just the first one's record |
| FirstFoul.FoulRowFacts | src/matchday_pipeline/defs/assets/analysis.py:505-518 | the record has period 2 and a non-negative time, and its `match_time` is "Unknown" exactly when the minute or the second is None |
| AssetChecks.NoNegativeTimes | src/matchday_pipeline/defs/checks/asset_checks.py:17-18 | no row is counted as negative exactly when every time is at least 0 |
| AssetChecks.CheckPlayerTimeOnPitch | src/matchday_pipeline/defs/checks/asset_checks.py:9-32 | passes exactly when the table is non-empty and no time is negative; ERROR exactly when it fails |
| AssetChecks.MeanWithin | src/matchday_pipeline/defs/checks/asset_checks.py:47-48 | for n > 0 rows, `0 < total/n <= 5400` exactly when `0 < total <= 5400*n` |
| AssetChecks.CheckAvgTimeOnPitch | src/matchday_pipeline/defs/checks/asset_checks.py:39-55 | passes exactly when the table is non-empty and the mean time lies in (0, 5400]; ERROR exactly when it fails |
| AssetChecks.TotalSecondsBounds | src/matchday_pipeline/defs/checks/asset_checks.py:47-48 | times within [0, 5400] add up to at most 5400 per row, and to more than 0 when one is positive |
| AssetChecks.AvgPassesWhenEachWithin | src/matchday_pipeline/defs/checks/asset_checks.py:47-48 | a table whose times all lie in [0, 5400], one of them positive, passes the average check |
| AssetChecks.CheckMatchDurationPositive | src/matchday_pipeline/defs/checks/asset_checks.py:62-80 | passes exactly when the table is non-empty and its first row's total is positive; ERROR exactly when it fails |
| AssetChecks.DurationFirstRowOnly | src/matchday_pipeline/defs/checks/asset_checks.py:72 | rows after the first do not change the outcome |
| AssetChecks.SumPositive | src/matchday_pipeline/defs/assets/analysis.py:157-161 | a sum of non-negative durations is positive exactly when one of them is |
| AssetChecks.DurationCheckOnTable | src/matchday_pipeline/defs/checks/asset_checks.py:72-73 | on the table `calculate_match_duration` builds, the check passes exactly when some recorded period has a positive time |
| AssetChecks.MaxPassesSpec | src/matchday_pipeline/defs/checks/asset_checks.py:96 | the maximum is one of the counts, and no count exceeds it |
| AssetChecks.ShareBelowHalf | src/matchday_pipeline/defs/checks/asset_checks.py:97 | for a positive total, `max/total < 0.5` exactly when `2*max < total` |
| AssetChecks.CheckPassDistribution | src/matchday_pipeline/defs/checks/asset_checks.py:87-104 | passes exactly when the table is non-empty and every player has less than half the total; ERROR only for an empty table, WARN otherwise, pass or fail |
| AssetChecks.PassSumPermutation | src/matchday_pipeline/defs/checks/asset_checks.py:95 | the total does not depend on the order of the rows |
| AssetChecks.PassSumRows | src/matchday_pipeline/defs/checks/asset_checks.py:95 | the rows of a dict of entries add up to the entries' total |
| AssetChecks.PassTableTotal | src/matchday_pipeline/defs/checks/asset_checks.py:95 | the total of the table `total_passes_per_player` builds is the number of counted passes |
| AssetChecks.PassCheckOnTable | src/matchday_pipeline/defs/checks/asset_checks.py:87-104 | on that table, the check passes exactly when it is non-empty and no player made half the counted passes or more |
| AssetChecks.NoInvalidMinutes | src/matchday_pipeline/defs/checks/asset_checks.py:116-119 | no minute is counted as invalid exactly when every minute lies in [0, 120] |
| AssetChecks.CheckGoalMinutes | src/matchday_pipeline/defs/checks/asset_checks.py:107-133 | passes exactly when every minute lies in [0, 120], so an empty table passes; ERROR exactly when it fails |
| AssetChecks.RowMinuteInRange | src/matchday_pipeline/defs/assets/analysis.py:376-406 | a goal event with its own minute in [0, 120], or else a time before the 121st minute, gives a row minute in [0, 120] |
| AssetChecks.GoalCheckOnTable | src/matchday_pipeline/defs/checks/asset_checks.py:116-119 | when every goal event's minute is in range, the check passes on the table `get_goal_minutes` builds |
| AssetChecks.CheckFirstFoulSecondHalf | src/matchday_pipeline/defs/checks/asset_checks.py:140-158 | passes exactly when the table is empty or its first row's time is at least 0; ERROR exactly when it fails |
| AssetChecks.FirstFoulCheckPasses | src/matchday_pipeline/defs/checks/asset_checks.py:150-151 | for timestamps whose fields are unsigned digits, the table `get_first_foul_in_second_half` builds always passes with WARN, because the parser then never returns a negative time |
| Findings.EmptyLineupRaises | src/matchday_pipeline/defs/assets/analysis.py:85-89 | an empty list of teams passes `validated_lineup`, and `player_time_on_pitch` then raises |
| Findings.NoPlayersRaises | src/matchday_pipeline/defs/assets/analysis.py:284-287 | empty event and team lists pass both gates, and `total_passes_per_player` then raises |
| Findings.EmptyTimeTableReported | src/matchday_pipeline/defs/checks/asset_checks.py:9-55 | the time table is empty exactly when no team has a lineup entry, and both time checks then fail with ERROR |
| Findings.EmptyPassTableReported | src/matchday_pipeline/defs/checks/asset_checks.py:87-104 | with no counted pass and no lineup player the pass table is empty, and the distribution check fails with ERROR |

## Left out

- Dagster wiring, logging, the metadata passed to `context.add_output_metadata`, markdown
  previews, `os.makedirs` and the CSV files are not modelled. `validated_lineup` and
  `validated_events` keep the figures their metadata reports: team count, total players,
  event count, number of types and top events.
- The check descriptions and metadata are not modelled. Only `passed` and `severity` are.
- Ingestion (reading and parsing the JSON files), `load_db.py`, `sql_queries.py`,
  `definitions.py`, the jobs, `config.py` and `resources.py` are not part of this model.
  They are I/O, database and SQL-engine work.
- `round(x, 2)` and `round(x, 3)` on the output times are not modelled, because times are
  exact reals. This affects `seconds_on_pitch`, `minutes_on_pitch`, the duration columns and
  `timestamp_seconds` of goals and fouls. A check that compares a rounded value with 0 gets
  the same answer as on the exact value, except for values of magnitude below half the
  rounding step. That is 0.005 for the 2-place columns (`seconds_on_pitch`,
  `minutes_on_pitch`, `match_duration_minutes`, the `period_<p>` durations) and 0.0005 for
  the 3-place ones. So a spell from "00:00:00.004" to "00:00:00.000" totals -0.004, which
  rounds to -0.0: check_player_time_on_pitch passes on it, while AssetChecks.CheckPlayerTimeOnPitch on the exact -0.004 fails with ERROR.
  check_avg_time_on_pitch also compares the mean of the rounded `seconds_on_pitch` with 5400,
  so a mean within 0.005 of 5400 can be judged differently.
- Floating-point arithmetic in general is not modelled. Sums and means are exact.
- The `match_time` text of goals and fouls is not rendered. Goals keep the computed minute
  and second (`ClockMinute`, `ClockSecond`). Fouls keep a `Clock(minute, second)` value, or
  `UnknownTime`.
- FirstFoul.FoulEventReadable accepts a float with an integral value as the `second` that
  `{second:02d}` formats. Python raises on a float there.
- GoalTimeline.OwnGoalKey: the own-goal key `f"{period}_{timestamp}"` is modelled as the
  pair `(period, timestamp)`, so the two can differ in both directions.
  - The text can make two different pairs collide. Period "1_2" with timestamp "3" and period
    "1" with timestamp "2_3" give the same text but different pairs.
  - The text can also tell apart periods the model treats as one. Period `1` renders as "1"
    and `1.0` as "1.0". The model reads both as the same number, and so keeps one own-goal
    row where the code keeps two.
- Utils.ParseTimestampToSeconds, Utils.ParseFloat and Utils.NonZeroIsWellFormed model
  Python's `int()` and `float()` on digit fields only ("12", "05.5", ".5", "5."). Signs,
  surrounding whitespace, underscores, exponents, "inf" and "nan" are treated as parse
  failures (0.0), although Python accepts some of them. Their "never negative" and
  "non-zero only for two digit fields" hold only under this restriction.
- Python's `True == 1` and `hash(True) == hash(1)` are not modelled. A boolean and a number
  are different keys and different ids.
- `sorted(period_durations.keys())` raises on periods that cannot be compared. The model
  requires comparable periods, and only their sum, which does not depend on the order, is
  kept.
- The tie order of `sort_values` (pass counts, goal timeline) and of `sorted(...)` for
  `top_events` is not claimed. Only the ordering by key and the permutation are.
- AssetChecks.CheckPassDistribution treats a non-empty table whose counts are all 0 as a
  failure. pandas computes NaN for 0/0, and `NaN < 0.5` is false, so this matches.
- AssetChecks.CheckGoalMinutes requires every `minute` to be a number. `get_goal_minutes`
  already raises on a row whose `minute` is not a number or a bool (`GetGoalMinutes`
  requires `MetadataReadable`), but a bool minute reaches the check, and pandas comparisons
  on bools are not modelled.
- No duplicate-removal step exists in the code, so none is modelled.
- A non-list `validated_events` is rejected by `validate_events` before the analyses run.
- TimeOnPitch.PlayerTimeOnPitch and PassCounts.TotalPassesPerPlayer take the teams as a list.
  A single team given as a dict passes `validated_lineup` (validation.py:18-20) and is handed
  on unwrapped (validation.py:48, `Validation.LineupGatePassed`). Both analyses then iterate
  the dict's keys and call `.get` on a string, which raises AttributeError. This failure is
  not modelled.
- TimeOnPitch.PlayerTimeOnPitch requires every lineup entry to have a `player_id`
  (`PlayerReadable`), because `player["player_id"]` raises KeyError without one.
  `validate_lineup` only warns about a missing `player_id` (models.py:50-53), so the gate lets
  such a lineup through. The KeyError is not modelled.
- AssetChecks.FirstFoulCheckPasses, FirstFoul.FoulRowFacts and
  MatchDuration.DurationsNonNegative rest on the parser never returning a negative time.
  That holds for the unsigned digit fields modelled here. Python's `int()` and `float()` also
  accept "-1", "-5.0" and "nan", so "00:-1:00" parses to -60.0. On such a timestamp
  check_first_foul_second_half fails with ERROR, and a recorded duration can be negative.

## Findings

| source | as written | input that shows it | evidently intended | confidence | as-written member | corrected member |
|---|---|---|---|---|---|---|
| src/matchday_pipeline/defs/assets/analysis.py:85-89 | `pd.DataFrame(player_times)["played_match"]` raises KeyError when `player_times` is empty | `validated_lineup == []`, which `validated_lineup` accepts | the empty table is handed on, as the `if total_players > 0` guard at line 91 expects, and check_player_time_on_pitch reports it (asset_checks.py:10-15) | high; not executed | Findings.EmptyLineupRaises | Findings.EmptyTimeTableReported |
| src/matchday_pipeline/defs/assets/analysis.py:284-287 | `pd.DataFrame(passing_data).sort_values("total_passes")` raises KeyError when `passing_data` is empty | no events and `validated_lineup == []`, which both gates accept | the empty table is handed on, as the `if len(df) > 0` guard at line 290 expects, and check_pass_distribution reports it (asset_checks.py:87-93) | high; not executed | Findings.NoPlayersRaises | Findings.EmptyPassTableReported |

The as-written members rest on `TimeOnPitch.TimeOnPitchAsset` and `PassCounts.PassesAsset`,
the outcomes of the two functions as written. The corrected members are about
`TimeOnPitch.TimeTable` and `PassCounts.PassTable`, the tables the asset checks are stated
over. Because of these two failures, the empty-table branches of check_player_time_on_pitch,
check_avg_time_on_pitch and check_pass_distribution are never reached in the pipeline.
