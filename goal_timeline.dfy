/** `get_goal_minutes`: one row per goal, in the order of the match clock. A goal is a
    "Shot" whose outcome is "Goal", or the first "Own Goal Against" event of each
    (period, timestamp) pair; the matching "Own Goal For" events are never counted. */
module GoalTimeline {
  import opened Wrappers
  import opened Json
  import opened Utils
  import opened Events
  import opened Sorting

  /** `goal_type`: "Goal" or "Own Goal". */
  datatype GoalType = Goal | OwnGoal

  /** One row of the table before numbering. `minute` and `second` are the event's own
      fields when present, otherwise the clock values; `clockMinute` and `clockSecond`
      are the values computed from the timestamp, which `match_time` renders. */
  datatype GoalRow = GoalRow(
    playerId: Json,
    playerName: Json,
    teamName: Json,
    goalType: GoalType,
    period: Json,
    minute: Json,
    second: Json,
    timestamp: Json,
    timestampSeconds: real,
    clockMinute: int,
    clockSecond: int,
    possessionTeam: Json,
    playPattern: Json,
    shotTechnique: Json,
    shotBodyPart: Json)

  /** A row of the returned table: the goal and its `goal_number`. */
  datatype NumberedGoal = NumberedGoal(goal: GoalRow, goalNumber: nat)

  /** `event.get("shot", {}).get(k, {}).get("name")`. */
  function ShotDetail(e: Json, k: string): Json {
    Field(SubField(e, "shot", k, JObj(map[])), "name", JNull)
  }

  predicate IsShotGoal(e: Json) {
    EventType(e) == JStr("Shot") && ShotDetail(e, "outcome") == JStr("Goal")
  }

  predicate IsOwnGoalAgainst(e: Json) {
    EventType(e) == JStr("Own Goal Against")
  }

  /** `event.get("period", 1)`. */
  function GoalPeriod(e: Json): Json {
    Field(e, "period", JNum(1.0))
  }

  /** `f"{period}_{timestamp}"`, as the pair it is built from. */
  function OwnGoalKey(e: Json): (Json, Json) {
    (GoalPeriod(e), Timestamp(e))
  }

  /** `processed_own_goals` after the events loop. */
  function OwnGoalKeys(events: seq<Json>): set<(Json, Json)>
    decreases |events|
  {
    if events == [] then {}
    else
      var e := events[|events| - 1];
      OwnGoalKeys(events[..|events| - 1]) + (if IsOwnGoalAgainst(e) then {OwnGoalKey(e)} else {})
  }

  /** `is_goal` and `goal_type` for one event, given the own goals already processed. */
  function Classify(e: Json, processed: set<(Json, Json)>): Option<GoalType> {
    if EventType(e) == JStr("Shot") then
      (if ShotDetail(e, "outcome") == JStr("Goal") then Some(Goal) else None)
    else if IsOwnGoalAgainst(e) && OwnGoalKey(e) !in processed then Some(OwnGoal)
    else None
  }

  /** `int(timestamp_seconds // 60)`. */
  function ClockMinute(ts: real): int {
    (ts / 60.0).Floor
  }

  /** `int(timestamp_seconds % 60)`: Python's float remainder lies in [0, 60), so truncating
      it is taking its floor. */
  function ClockSecond(ts: real): int {
    (ts - 60.0 * ClockMinute(ts) as real).Floor
  }

  /** The `goals` entry of a goal event. */
  function RowOf(e: Json, goalType: GoalType): GoalRow {
    var ts := Seconds(e);
    var minute, second := ClockMinute(ts), ClockSecond(ts);
    var ownMinute, ownSecond := Field(e, "minute", JNull), Field(e, "second", JNull);
    GoalRow(SubField(e, "player", "id", JNull),
            SubField(e, "player", "name", JStr("Unknown")),
            SubField(e, "team", "name", JStr("Unknown")),
            goalType,
            GoalPeriod(e),
            if ownMinute != JNull then ownMinute else JNum(minute as real),
            if ownSecond != JNull then ownSecond else JNum(second as real),
            Timestamp(e),
            ts,
            minute,
            second,
            SubField(e, "possession_team", "name", JStr("Unknown")),
            SubField(e, "play_pattern", "name", JStr("Unknown")),
            if goalType == Goal then ShotDetail(e, "technique") else JNull,
            if goalType == Goal then ShotDetail(e, "body_part") else JNull)
  }

  /** What one event appends to `goals`, given the own goals already processed. */
  function NewGoals(e: Json, processed: set<(Json, Json)>): seq<GoalRow> {
    match Classify(e, processed)
    case Some(t) => [RowOf(e, t)]
    case None => []
  }

  /** `goals` after the events loop. */
  function Goals(events: seq<Json>): seq<GoalRow>
    decreases |events|
  {
    if events == [] then []
    else
      var init := events[..|events| - 1];
      Goals(init) + NewGoals(events[|events| - 1], OwnGoalKeys(init))
  }

  /** The sort key of `sort_values("timestamp_seconds")`. */
  function ByTime(r: GoalRow): real {
    r.timestampSeconds
  }

  /** `df["goal_number"] = range(1, len(df) + 1)`. */
  function Numbered(rows: seq<GoalRow>): seq<NumberedGoal> {
    seq(|rows|, i requires 0 <= i < |rows| => NumberedGoal(rows[i], i + 1))
  }

  /** The table `get_goal_minutes` returns. */
  function GoalTable(events: seq<Json>): seq<NumberedGoal> {
    Numbered(SortBy(Goals(events), ByTime))
  }

  /** What the classification needs of an event not to raise: its `type` can be read, and a
      shot's outcome can be read. */
  predicate ClassifyReadable(e: Json) {
    && DictField(e, "type")
    && (EventType(e) == JStr("Shot") ==> SubDictReadable(e, "shot", "outcome"))
  }

  /** What the events loop body needs of an event not to raise, given the own goals already
      processed: it can be classified, and when it becomes a goal (a scored shot, or an own
      goal whose key is new), its player, team, possession team and play pattern (and a scored
      shot's technique and body part) can be read. A repeated own goal is skipped unread. */
  predicate GoalEventReadable(e: Json, processed: set<(Json, Json)>) {
    && ClassifyReadable(e)
    && (IsShotGoal(e) || (IsOwnGoalAgainst(e) && OwnGoalKey(e) !in processed) ==>
          && DictField(e, "player") && DictField(e, "team")
          && DictField(e, "possession_team") && DictField(e, "play_pattern"))
    && (IsShotGoal(e) ==> SubDictReadable(e, "shot", "technique") && SubDictReadable(e, "shot", "body_part"))
  }

  /** Every event the loop reaches can be read, given the own goals processed before it. */
  predicate GoalEventsReadable(events: seq<Json>) {
    forall i :: 0 <= i < |events| ==> GoalEventReadable(events[i], OwnGoalKeys(events[..i]))
  }

  /** What the metadata block needs of a goal row not to raise: `int(df.iloc[0]["minute"])`
      and `df["minute"].mean()` read its `minute` as a number (a bool reads as 0 or 1), and
      `value_counts()` hashes its `period` and `team_name`. */
  predicate MetadataRowReadable(r: GoalRow) {
    && (r.minute.JNum? || r.minute.JBool?)
    && Hashable(r.period)
    && Hashable(r.teamName)
  }

  /** Every row of the table can be summarised by the metadata block. */
  predicate MetadataReadable(rows: seq<GoalRow>) {
    forall i :: 0 <= i < |rows| ==> MetadataRowReadable(rows[i])
  }

  /** The same demand on the goal event the row is built from: its own `minute` is absent,
      null, a number or a bool, and its `period` and team name are hashable. */
  predicate MetadataFieldsReadable(e: Json) {
    var minute := Field(e, "minute", JNull);
    && (minute.JNull? || minute.JNum? || minute.JBool?)
    && Hashable(GoalPeriod(e))
    && Hashable(SubField(e, "team", "name", JStr("Unknown")))
  }

  // ---------------------------------------------------------------------------------------
  // The loop

  /** The classification part of the events loop body for one event. */
  method ClassifyEvent(event: Json, processedOwnGoals: set<(Json, Json)>)
    returns (goalType: Option<GoalType>, processed: set<(Json, Json)>)
    requires ClassifyReadable(event)
    ensures goalType == Classify(event, processedOwnGoals)
    ensures processed == processedOwnGoals + (if IsOwnGoalAgainst(event) then {OwnGoalKey(event)} else {})
  {
    processed := processedOwnGoals;
    goalType := None;
    var eventType := SubField(event, "type", "name", JStr(""));
    if eventType == JStr("Shot") {
      var outcome := Field(SubField(event, "shot", "outcome", JObj(map[])), "name", JNull);
      if outcome == JStr("Goal") {
        goalType := Some(Goal);
      }
    } else if eventType == JStr("Own Goal Against") {
      var timestamp := Field(event, "timestamp", JStr("00:00:00.000"));
      var period := Field(event, "period", JNum(1.0));
      var ownGoalKey := (period, timestamp);
      if ownGoalKey !in processed {
        goalType := Some(OwnGoal);
        processed := processed + {ownGoalKey};
      }
    } else if eventType == JStr("Own Goal For") {
      return;
    }
  }

  /** The row-building part of the events loop body, for a goal event. */
  method BuildGoalRow(event: Json, goalType: GoalType) returns (row: GoalRow)
    ensures row == RowOf(event, goalType)
  {
    var timestamp := Timestamp(event);
    var timestampSeconds := ParseTimestampToSeconds(timestamp);
    SecondsOfTimestamp(event);
    var minute := ClockMinute(timestampSeconds);
    var second := ClockSecond(timestampSeconds);
    var matchMinute := Field(event, "minute", JNull);
    var matchSecond := Field(event, "second", JNull);
    var shotTechnique, shotBodyPart := JNull, JNull;
    if goalType == Goal {
      shotTechnique := ShotDetail(event, "technique");
      shotBodyPart := ShotDetail(event, "body_part");
    }
    row := GoalRow(SubField(event, "player", "id", JNull),
                   SubField(event, "player", "name", JStr("Unknown")),
                   SubField(event, "team", "name", JStr("Unknown")),
                   goalType,
                   Field(event, "period", JNum(1.0)),
                   if matchMinute != JNull then matchMinute else JNum(minute as real),
                   if matchSecond != JNull then matchSecond else JNum(second as real),
                   timestamp,
                   timestampSeconds,
                   minute,
                   second,
                   SubField(event, "possession_team", "name", JStr("Unknown")),
                   SubField(event, "play_pattern", "name", JStr("Unknown")),
                   shotTechnique,
                   shotBodyPart);
  }

  /** The events loop body of `get_goal_minutes`. */
  method ScanEvent(goals: seq<GoalRow>, processedOwnGoals: set<(Json, Json)>, event: Json)
    returns (goals': seq<GoalRow>, processed: set<(Json, Json)>)
    requires GoalEventReadable(event, processedOwnGoals)
    ensures goals' == goals + NewGoals(event, processedOwnGoals)
    ensures processed == processedOwnGoals + (if IsOwnGoalAgainst(event) then {OwnGoalKey(event)} else {})
  {
    goals' := goals;
    var goalType;
    goalType, processed := ClassifyEvent(event, processedOwnGoals);
    if goalType.Some? {
      var row := BuildGoalRow(event, goalType.value);
      goals' := goals' + [row];
    }
  }

  /** The events loop of `get_goal_minutes`. */
  method CollectGoals(validatedEvents: seq<Json>) returns (goals: seq<GoalRow>)
    requires GoalEventsReadable(validatedEvents)
    ensures goals == Goals(validatedEvents)
  {
    goals := [];
    var processedOwnGoals: set<(Json, Json)> := {};
    for i := 0 to |validatedEvents|
      invariant goals == Goals(validatedEvents[..i])
      invariant processedOwnGoals == OwnGoalKeys(validatedEvents[..i])
    {
      goals, processedOwnGoals := ScanEvent(goals, processedOwnGoals, validatedEvents[i]);
      assert validatedEvents[..i + 1][..i] == validatedEvents[..i];
    }
    assert validatedEvents[..|validatedEvents|] == validatedEvents;
  }

  /** `get_goal_minutes`, without the CSV output. The metadata it reports is not computed,
      but the block that computes it raises unless every row can be summarised. */
  method GetGoalMinutes(validatedEvents: seq<Json>) returns (table: seq<NumberedGoal>)
    requires GoalEventsReadable(validatedEvents)
    requires MetadataReadable(Goals(validatedEvents))
    ensures table == GoalTable(validatedEvents)
  {
    var goals := CollectGoals(validatedEvents);
    table := [];
    if |goals| > 0 {
      table := Numbered(SortBy(goals, ByTime));
    }
  }

  // ---------------------------------------------------------------------------------------
  // Properties

  /** The number of scored shots. */
  function ShotGoals(events: seq<Json>): nat
    decreases |events|
  {
    if events == [] then 0
    else ShotGoals(events[..|events| - 1]) + (if IsShotGoal(events[|events| - 1]) then 1 else 0)
  }

  /** Every "Own Goal Against" event's key is processed. */
  lemma {:induction false} OwnGoalKeyIn(events: seq<Json>, i: nat)
    requires i < |events| && IsOwnGoalAgainst(events[i])
    ensures OwnGoalKey(events[i]) in OwnGoalKeys(events)
    decreases |events|
  {
    var n := |events| - 1;
    if i < n {
      OwnGoalKeyIn(events[..n], i);
      assert events[..n][i] == events[i];
    }
  }

  /** Every processed key is that of an "Own Goal Against" event. */
  lemma {:induction false} OwnGoalKeyFrom(events: seq<Json>, key: (Json, Json))
    requires key in OwnGoalKeys(events)
    ensures exists i :: 0 <= i < |events| && IsOwnGoalAgainst(events[i]) && OwnGoalKey(events[i]) == key
    decreases |events|
  {
    var n := |events| - 1;
    var init := events[..n];
    if key in OwnGoalKeys(init) {
      OwnGoalKeyFrom(init, key);
      var i :| 0 <= i < n && IsOwnGoalAgainst(init[i]) && OwnGoalKey(init[i]) == key;
      assert events[i] == init[i];
    } else {
      assert IsOwnGoalAgainst(events[n]) && OwnGoalKey(events[n]) == key;
    }
  }

  /** A key is processed exactly when some "Own Goal Against" event carries it. */
  lemma OwnGoalKeysSpec(events: seq<Json>, key: (Json, Json))
    ensures key in OwnGoalKeys(events) <==>
              exists i :: 0 <= i < |events| && IsOwnGoalAgainst(events[i]) && OwnGoalKey(events[i]) == key
  {
    if key in OwnGoalKeys(events) {
      OwnGoalKeyFrom(events, key);
    } else if exists i :: 0 <= i < |events| && IsOwnGoalAgainst(events[i]) && OwnGoalKey(events[i]) == key {
      var i :| 0 <= i < |events| && IsOwnGoalAgainst(events[i]) && OwnGoalKey(events[i]) == key;
      OwnGoalKeyIn(events, i);
    }
  }

  /** One goal per scored shot and one per distinct own-goal key. */
  lemma {:induction false} GoalsCount(events: seq<Json>)
    ensures |Goals(events)| == ShotGoals(events) + |OwnGoalKeys(events)|
    decreases |events|
  {
    if events != [] {
      var init := events[..|events| - 1];
      var e := events[|events| - 1];
      GoalsCount(init);
      if IsOwnGoalAgainst(e) && OwnGoalKey(e) in OwnGoalKeys(init) {
        assert OwnGoalKeys(events) == OwnGoalKeys(init);
      }
    }
  }

  /** The number of own-goal rows for a (period, timestamp) key. */
  function OwnGoalRows(rows: seq<GoalRow>, key: (Json, Json)): nat
    decreases |rows|
  {
    if rows == [] then 0
    else
      var r := rows[|rows| - 1];
      OwnGoalRows(rows[..|rows| - 1], key) + (if r.goalType == OwnGoal && (r.period, r.timestamp) == key then 1 else 0)
  }

  lemma OwnGoalRowsSnoc(rows: seq<GoalRow>, r: GoalRow, key: (Json, Json))
    ensures OwnGoalRows(rows + [r], key)
            == OwnGoalRows(rows, key) + (if r.goalType == OwnGoal && (r.period, r.timestamp) == key then 1 else 0)
  {
    assert (rows + [r])[..|rows|] == rows;
  }

  /** Own goals are de-duplicated: each key that an "Own Goal Against" event carries gives
      exactly one row, and no other key gives any. */
  lemma {:induction false} OwnGoalOncePerKey(events: seq<Json>, key: (Json, Json))
    ensures OwnGoalRows(Goals(events), key) == if key in OwnGoalKeys(events) then 1 else 0
    decreases |events|
  {
    if events != [] {
      var init := events[..|events| - 1];
      var e := events[|events| - 1];
      var keys := OwnGoalKeys(init);
      OwnGoalOncePerKey(init, key);
      assert OwnGoalKeys(events) == keys + (if IsOwnGoalAgainst(e) then {OwnGoalKey(e)} else {});
      match Classify(e, keys)
      case Some(t) =>
        var r := RowOf(e, t);
        RowKey(e, t);
        OwnGoalRowsSnoc(Goals(init), r, key);
        assert Goals(events) == Goals(init) + [r];
      case None =>
        assert Goals(events) == Goals(init);
        assert OwnGoalKeys(events) == keys;
    }
  }

  /** A row carries its goal type and its event's own-goal key. */
  lemma RowKey(e: Json, t: GoalType)
    ensures RowOf(e, t).goalType == t
    ensures (RowOf(e, t).period, RowOf(e, t).timestamp) == OwnGoalKey(e)
  {
  }

  /** A goal row can be summarised exactly when its event's own fields allow it: a row's
      `minute` falls back to the clock minute only when the event's own is absent or null. */
  lemma RowMetadataIff(e: Json, t: GoalType)
    ensures MetadataRowReadable(RowOf(e, t)) <==> MetadataFieldsReadable(e)
  {
  }

  /** When every event that can become a goal has summarisable fields, so has every row. */
  lemma MetadataReadableOf(events: seq<Json>)
    requires forall i :: 0 <= i < |events| && (IsShotGoal(events[i]) || IsOwnGoalAgainst(events[i])) ==>
               MetadataFieldsReadable(events[i])
    ensures MetadataReadable(Goals(events))
  {
    forall j | 0 <= j < |Goals(events)|
      ensures MetadataRowReadable(Goals(events)[j])
    {
      GoalsFrom(events, j);
      var i :| 0 <= i < |events| &&
                 ((IsShotGoal(events[i]) && Goals(events)[j] == RowOf(events[i], Goal))
                  || (IsOwnGoalAgainst(events[i]) && Goals(events)[j] == RowOf(events[i], OwnGoal)));
      RowMetadataIff(events[i], Goals(events)[j].goalType);
    }
  }

  /** Each row comes from a scored shot (as a "Goal") or from an "Own Goal Against" event
      (as an "Own Goal"); in particular no "Own Goal For" event gives a row. */
  lemma {:induction false} GoalsFrom(events: seq<Json>, j: nat)
    requires j < |Goals(events)|
    ensures exists i :: 0 <= i < |events| &&
              ((IsShotGoal(events[i]) && Goals(events)[j] == RowOf(events[i], Goal))
               || (IsOwnGoalAgainst(events[i]) && Goals(events)[j] == RowOf(events[i], OwnGoal)))
    decreases |events|
  {
    var n := |events| - 1;
    var init := events[..n];
    var e := events[n];
    if j < |Goals(init)| {
      GoalsFrom(init, j);
      var i :| 0 <= i < n &&
               ((IsShotGoal(init[i]) && Goals(init)[j] == RowOf(init[i], Goal))
                || (IsOwnGoalAgainst(init[i]) && Goals(init)[j] == RowOf(init[i], OwnGoal)));
      assert init[i] == events[i];
      assert Goals(events)[j] == Goals(init)[j];
    } else {
      assert Goals(events)[j] == RowOf(e, Classify(e, OwnGoalKeys(init)).value);
      assert events[n] == e;
    }
  }

  /** The number of rows of a goal type. */
  function RowsOfType(rows: seq<GoalRow>, t: GoalType): nat
    decreases |rows|
  {
    if rows == [] then 0
    else RowsOfType(rows[..|rows| - 1], t) + (if rows[|rows| - 1].goalType == t then 1 else 0)
  }

  /** There are as many "Goal" rows as scored shots. */
  lemma {:induction false} ShotGoalRows(events: seq<Json>)
    ensures RowsOfType(Goals(events), Goal) == ShotGoals(events)
    decreases |events|
  {
    if events != [] {
      var init := events[..|events| - 1];
      var e := events[|events| - 1];
      var g := Goals(init);
      ShotGoalRows(init);
      match Classify(e, OwnGoalKeys(init))
      case Some(t) =>
        RowKey(e, t);
        assert Goals(events) == g + [RowOf(e, t)];
        assert (g + [RowOf(e, t)])[..|g|] == g;
      case None =>
        assert Goals(events) == g + [];
        assert g + [] == g;
    }
  }

  /** The clock minute and second of a non-negative time: whole minutes and the remaining
      whole seconds, which together give the whole seconds of the time. */
  lemma ClockSpec(ts: real)
    requires ts >= 0.0
    ensures ClockMinute(ts) >= 0
    ensures 0 <= ClockSecond(ts) < 60
    ensures 60 * ClockMinute(ts) + ClockSecond(ts) == ts.Floor
  {
    var m := ClockMinute(ts);
    assert m as real <= ts / 60.0 < m as real + 1.0;
    assert 60.0 * m as real <= ts < 60.0 * m as real + 60.0;
  }

  /** The goals of the table without their numbers. */
  function Unnumbered(table: seq<NumberedGoal>): seq<GoalRow> {
    seq(|table|, i requires 0 <= i < |table| => table[i].goal)
  }

  /** Numbering the sorted goals keeps them, in time order, numbered 1 to n. */
  lemma SortedTable(goals: seq<GoalRow>)
    ensures var table := Numbered(SortBy(goals, ByTime));
            && |table| == |goals|
            && multiset(Unnumbered(table)) == multiset(goals)
            && (forall i, j :: 0 <= i < j < |table| ==> table[i].goal.timestampSeconds <= table[j].goal.timestampSeconds)
            && (forall i :: 0 <= i < |table| ==> table[i].goalNumber == i + 1)
  {
    var sorted := SortBy(goals, ByTime);
    assert Unnumbered(Numbered(sorted)) == sorted;
    assert |sorted| == |multiset(sorted)| == |goals|;
  }

  /** The table holds the goals ordered by their time, numbered 1 to n. */
  lemma GoalTableSpec(events: seq<Json>)
    ensures var table := GoalTable(events);
            && |table| == |Goals(events)|
            && multiset(Unnumbered(table)) == multiset(Goals(events))
            && (forall i, j :: 0 <= i < j < |table| ==> table[i].goal.timestampSeconds <= table[j].goal.timestampSeconds)
            && (forall i :: 0 <= i < |table| ==> table[i].goalNumber == i + 1)
  {
    SortedTable(Goals(events));
  }

}
