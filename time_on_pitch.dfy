/** `player_time_on_pitch`: the seconds each lineup player spent on the field. For every
    team the match end is the latest "Half End" timestamp among that team's own `events`;
    a player's time is the sum, over the non-empty entries of `positions`, of `to - from`,
    where an open spell (`to` is None) ends at the match end, or at 90 minutes when the
    team has no "Half End" event. */
module TimeOnPitch {
  import opened Wrappers
  import opened Json
  import opened Utils
  import opened Events
  import opened Seqs

  /** `90 * 60`: the end taken for an open spell when no "Half End" event is known. */
  const FullMatchSeconds: real := 5400.0

  /** `event["type"] == "Half End"`: the whole `type` value is compared with the string. */
  predicate IsHalfEnd(e: Json) {
    e.JObj? && "type" in e.fields && e.fields["type"] == JStr("Half End")
  }

  /** The events loop can read `event["type"]`, and `event["timestamp"]` when it is needed. */
  predicate EventReadable(e: Json) {
    e.JObj? && "type" in e.fields && (IsHalfEnd(e) ==> "timestamp" in e.fields)
  }

  /** `match_end_time` after the events loop: a running maximum that starts at None. */
  function MatchEndTime(events: seq<Json>): Option<real>
    decreases |events|
  {
    if events == [] then None
    else
      var before := MatchEndTime(events[..|events| - 1]);
      var e := events[|events| - 1];
      if IsHalfEnd(e) && (before.None? || Seconds(e) > before.value) then Some(Seconds(e))
      else before
  }

  /** The positions loop can read `position["from"]` and `position["to"]` of every
      non-empty position. */
  predicate PositionReadable(p: Json) {
    Truthy(p) ==> p.JObj? && "from" in p.fields && "to" in p.fields
  }

  /** The end of a spell: its parsed `to`, or for an open spell the match end, or 5400. */
  function SpellEnd(p: Json, matchEnd: Option<real>): real {
    if !(p.JObj? && "to" in p.fields) then 0.0
    else if p.fields["to"] == JNull then (if matchEnd.Some? then matchEnd.value else FullMatchSeconds)
    else ParseTimestampToSeconds(p.fields["to"])
  }

  /** The start of a spell: its parsed `from`. */
  function SpellStart(p: Json): real {
    if p.JObj? && "from" in p.fields then ParseTimestampToSeconds(p.fields["from"]) else 0.0
  }

  /** `total_time` after the positions loop: the sum of `end - start` over the non-empty
      positions, negative spells included. */
  function TotalTime(positions: seq<Json>, matchEnd: Option<real>): real
    decreases |positions|
  {
    if positions == [] then 0.0
    else
      var p := positions[|positions| - 1];
      TotalTime(positions[..|positions| - 1], matchEnd)
        + (if Truthy(p) then SpellEnd(p, matchEnd) - SpellStart(p) else 0.0)
  }

  /** One row of the output table. `minutesOnPitch` is `secondsOnPitch / 60` unrounded. */
  datatype PlayerTime = PlayerTime(
    playerId: Json,
    playerName: Json,
    team: Json,
    matchId: Json,
    secondsOnPitch: real,
    minutesOnPitch: real,
    playedMatch: bool)

  /** A lineup entry the players loop can read: a dict with a `player_id`, whose
      `positions`, when present, is a list of readable positions. */
  predicate PlayerReadable(p: Json) {
    && p.JObj? && "player_id" in p.fields && ListOrAbsent(p.fields, "positions")
    && forall q :: 0 <= q < |ListField(p, "positions")| ==> PositionReadable(ListField(p, "positions")[q])
  }

  /** The row of one lineup entry (`player["player_id"]` is read from a readable entry). */
  function PlayerRow(p: Json, teamName: Json, matchId: Json, matchEnd: Option<real>): PlayerTime {
    var total := TotalTime(ListField(p, "positions"), matchEnd);
    PlayerTime(Field(p, "player_id", JNull), Field(p, "player_name", JStr("Unknown")), teamName,
               matchId, total, total / 60.0, total > 0.0)
  }

  function PlayerRows(players: seq<Json>, teamName: Json, matchId: Json, matchEnd: Option<real>)
    : seq<PlayerTime>
    decreases |players|
  {
    if players == [] then []
    else
      PlayerRows(players[..|players| - 1], teamName, matchId, matchEnd)
        + [PlayerRow(players[|players| - 1], teamName, matchId, matchEnd)]
  }

  /** A team record the function can read: a dict whose `events` and `lineup`, when
      present, are lists of readable events and players. */
  predicate TeamReadable(t: Json) {
    && t.JObj? && ListOrAbsent(t.fields, "events") && ListOrAbsent(t.fields, "lineup")
    && (forall i :: 0 <= i < |ListField(t, "events")| ==> EventReadable(ListField(t, "events")[i]))
    && (forall j :: 0 <= j < |ListField(t, "lineup")| ==> PlayerReadable(ListField(t, "lineup")[j]))
  }

  /** The rows one team contributes, in lineup order. */
  function TeamRows(t: Json): seq<PlayerTime> {
    PlayerRows(ListField(t, "lineup"), Field(t, "team_name", JStr("Unknown")),
               Field(t, "match_id", JNull), MatchEndTime(ListField(t, "events")))
  }

  predicate LineupReadable(teams: seq<Json>) {
    forall k :: 0 <= k < |teams| ==> TeamReadable(teams[k])
  }

  /** The table `player_time_on_pitch` returns: teams in order, each team's players in order. */
  function TimeTable(teams: seq<Json>): seq<PlayerTime> {
    Concat(teams, TeamRows)
  }

  /** The events loop of `player_time_on_pitch`: the running maximum of the "Half End"
      timestamps. */
  method LatestHalfEnd(events: seq<Json>) returns (matchEndTime: Option<real>)
    requires forall i :: 0 <= i < |events| ==> EventReadable(events[i])
    ensures matchEndTime == MatchEndTime(events)
  {
    matchEndTime := None;
    for i := 0 to |events|
      invariant matchEndTime == MatchEndTime(events[..i])
    {
      var event := events[i];
      assert EventReadable(event);
      if event.fields["type"] == JStr("Half End") {
        var eventTime := ParseTimestampToSeconds(event.fields["timestamp"]);
        if matchEndTime.None? || eventTime > matchEndTime.value {
          matchEndTime := Some(eventTime);
        }
      }
      assert events[..i + 1][..i] == events[..i];
    }
    assert events[..|events|] == events;
  }

  /** The positions loop of `player_time_on_pitch`: `total_time += end - start` over the
      non-empty positions. */
  method SecondsOnPitch(positions: seq<Json>, matchEndTime: Option<real>) returns (totalTime: real)
    requires forall q :: 0 <= q < |positions| ==> PositionReadable(positions[q])
    ensures totalTime == TotalTime(positions, matchEndTime)
  {
    totalTime := 0.0;
    for q := 0 to |positions|
      invariant totalTime == TotalTime(positions[..q], matchEndTime)
    {
      var position := positions[q];
      if Truthy(position) {
        assert PositionReadable(position);
        var startTime := ParseTimestampToSeconds(position.fields["from"]);
        var endTime := position.fields["to"];
        var endTimeSeconds: real;
        if endTime == JNull {
          if matchEndTime.Some? {
            endTimeSeconds := matchEndTime.value;
          } else {
            endTimeSeconds := FullMatchSeconds;
          }
        } else {
          endTimeSeconds := ParseTimestampToSeconds(endTime);
        }
        var duration := endTimeSeconds - startTime;
        totalTime := totalTime + duration;
      }
      assert positions[..q + 1][..q] == positions[..q];
    }
    assert positions[..|positions|] == positions;
  }

  /** The body of the players loop of `player_time_on_pitch`, for one lineup entry. */
  method PlayerTimeRow(player: Json, teamName: Json, matchId: Json, matchEndTime: Option<real>)
    returns (row: PlayerTime)
    requires PlayerReadable(player)
    ensures row == PlayerRow(player, teamName, matchId, matchEndTime)
  {
    var playerId := player.fields["player_id"];
    var playerName := Get(player.fields, "player_name", JStr("Unknown"));
    var totalTime := SecondsOnPitch(ListField(player, "positions"), matchEndTime);
    row := PlayerTime(playerId, playerName, teamName, matchId, totalTime,
                      totalTime / 60.0, totalTime > 0.0);
  }

  /** The players loop of `player_time_on_pitch` for one team: one row per lineup entry. */
  method TeamPlayerTimes(players: seq<Json>, teamName: Json, matchId: Json, matchEndTime: Option<real>)
    returns (teamRows: seq<PlayerTime>)
    requires forall j :: 0 <= j < |players| ==> PlayerReadable(players[j])
    ensures teamRows == PlayerRows(players, teamName, matchId, matchEndTime)
  {
    teamRows := [];
    for j := 0 to |players|
      invariant teamRows == PlayerRows(players[..j], teamName, matchId, matchEndTime)
    {
      var row := PlayerTimeRow(players[j], teamName, matchId, matchEndTime);
      teamRows := teamRows + [row];
      assert players[..j + 1][..j] == players[..j];
    }
    assert players[..|players|] == players;
  }

  /** What `player_time_on_pitch` gives: its table, or the KeyError that
      `df["played_match"]` raises when the table is empty (a DataFrame built from an empty
      list has no columns). It fails exactly when no team has a lineup entry. */
  function TimeOnPitchAsset(teams: seq<Json>): (r: Result<seq<PlayerTime>>)
    ensures r.Failure? <==> LineupSize(teams) == 0
    ensures r.Success? ==> r.value == TimeTable(teams) && |r.value| == LineupSize(teams)
  {
    TimeTableLength(teams);
    if TimeTable(teams) == [] then Failure(PlayedMatchKeyError) else Success(TimeTable(teams))
  }

  const PlayedMatchKeyError := "KeyError: 'played_match'"

  /** `player_time_on_pitch`, without the metadata and CSV output. */
  method PlayerTimeOnPitch(validatedLineup: seq<Json>) returns (result: Result<seq<PlayerTime>>)
    requires LineupReadable(validatedLineup)
    ensures result == TimeOnPitchAsset(validatedLineup)
  {
    var playerTimes := [];
    for t := 0 to |validatedLineup|
      invariant playerTimes == TimeTable(validatedLineup[..t])
    {
      var teamData := validatedLineup[t];
      assert TeamReadable(teamData);
      var teamName := Get(teamData.fields, "team_name", JStr("Unknown"));
      var matchId := Get(teamData.fields, "match_id", JNull);
      var matchEndTime := LatestHalfEnd(ListField(teamData, "events"));

      var teamRows := TeamPlayerTimes(ListField(teamData, "lineup"), teamName, matchId, matchEndTime);
      playerTimes := playerTimes + teamRows;
      assert validatedLineup[..t + 1][..t] == validatedLineup[..t];
    }
    assert validatedLineup[..|validatedLineup|] == validatedLineup;
    if |playerTimes| == 0 {
      return Failure(PlayedMatchKeyError);
    }
    result := Success(playerTimes);
  }

  // ---------------------------------------------------------------------------------------
  // Properties

  /** Every "Half End" event sets a match end no earlier than its own timestamp. */
  lemma {:induction false} MatchEndTimeBound(events: seq<Json>, i: nat)
    requires i < |events| && IsHalfEnd(events[i])
    ensures MatchEndTime(events).Some? && Seconds(events[i]) <= MatchEndTime(events).value
    decreases |events|
  {
    var n := |events| - 1;
    var init := events[..n];
    if i < n {
      assert init[i] == events[i];
      MatchEndTimeBound(init, i);
    }
  }

  /** A match end is the timestamp of one of the team's "Half End" events. */
  lemma {:induction false} MatchEndTimeAttained(events: seq<Json>)
    requires MatchEndTime(events).Some?
    ensures exists i :: 0 <= i < |events| && IsHalfEnd(events[i])
                        && MatchEndTime(events).value == Seconds(events[i])
    decreases |events|
  {
    var n := |events| - 1;
    var init := events[..n];
    var before := MatchEndTime(init);
    if IsHalfEnd(events[n]) && (before.None? || Seconds(events[n]) > before.value) {
      assert MatchEndTime(events).value == Seconds(events[n]);
    } else {
      assert MatchEndTime(events) == before;
      MatchEndTimeAttained(init);
      var i :| 0 <= i < n && IsHalfEnd(init[i]) && before.value == Seconds(init[i]);
      assert events[i] == init[i];
    }
  }

  /** The match end is None exactly when the team has no "Half End" event; otherwise it is
      the timestamp of one of them and no "Half End" event is later. */
  lemma MatchEndTimeIsMax(events: seq<Json>)
    ensures MatchEndTime(events).None? <==> forall i :: 0 <= i < |events| ==> !IsHalfEnd(events[i])
    ensures MatchEndTime(events).Some? ==>
              (exists i :: 0 <= i < |events| && IsHalfEnd(events[i])
                           && MatchEndTime(events).value == Seconds(events[i]))
              && forall i :: 0 <= i < |events| && IsHalfEnd(events[i]) ==>
                   Seconds(events[i]) <= MatchEndTime(events).value
  {
    forall i | 0 <= i < |events| && IsHalfEnd(events[i])
      ensures MatchEndTime(events).Some? && Seconds(events[i]) <= MatchEndTime(events).value
    {
      MatchEndTimeBound(events, i);
    }
    if MatchEndTime(events).Some? {
      MatchEndTimeAttained(events);
    }
  }

  /** A player's time splits over the spells: the total of two lists of positions is the
      sum of their totals. */
  lemma {:induction false} TotalTimeAppend(a: seq<Json>, b: seq<Json>, matchEnd: Option<real>)
    ensures TotalTime(a + b, matchEnd) == TotalTime(a, matchEnd) + TotalTime(b, matchEnd)
    decreases |b|
  {
    if b == [] {
      assert a + b == a;
    } else {
      var n := |b| - 1;
      assert (a + b)[..|a + b| - 1] == a + b[..n];
      assert (a + b)[|a + b| - 1] == b[n];
      TotalTimeAppend(a, b[..n], matchEnd);
    }
  }

  /** When every non-empty spell ends no earlier than it starts, the total is not negative. */
  lemma {:induction false} TotalTimeNonNegative(positions: seq<Json>, matchEnd: Option<real>)
    requires forall q :: 0 <= q < |positions| && Truthy(positions[q]) ==>
               SpellStart(positions[q]) <= SpellEnd(positions[q], matchEnd)
    ensures TotalTime(positions, matchEnd) >= 0.0
    decreases |positions|
  {
    if positions != [] {
      TotalTimeNonNegative(positions[..|positions| - 1], matchEnd);
    }
  }

  /** One row per lineup entry, in lineup order, carrying the entry's `player_id`, its name
      or "Unknown", the team's name and match id, and the player's total; `played_match`
      holds exactly when the total is positive. */
  lemma {:induction false} PlayerRowsSpec(players: seq<Json>, teamName: Json, matchId: Json,
                                          matchEnd: Option<real>)
    requires forall j :: 0 <= j < |players| ==> PlayerReadable(players[j])
    ensures var rows := PlayerRows(players, teamName, matchId, matchEnd);
            && |rows| == |players|
            && forall j :: 0 <= j < |players| ==>
                 && PlayerReadable(players[j])
                 && rows[j].playerId == players[j].fields["player_id"]
                 && rows[j].playerName == Get(players[j].fields, "player_name", JStr("Unknown"))
                 && rows[j].team == teamName
                 && rows[j].matchId == matchId
                 && rows[j].secondsOnPitch == TotalTime(ListField(players[j], "positions"), matchEnd)
                 && rows[j].secondsOnPitch == 60.0 * rows[j].minutesOnPitch
                 && (rows[j].playedMatch <==> rows[j].secondsOnPitch > 0.0)
    decreases |players|
  {
    if players != [] {
      var n := |players| - 1;
      PlayerRowsSpec(players[..n], teamName, matchId, matchEnd);
    }
  }

  /** The number of lineup entries over all teams. */
  function LineupSize(teams: seq<Json>): nat
    decreases |teams|
  {
    if teams == [] then 0
    else LineupSize(teams[..|teams| - 1]) + |ListField(teams[|teams| - 1], "lineup")|
  }

  /** The rows of each team are as long as its lineup. */
  lemma {:induction false} PlayerRowsLength(players: seq<Json>, teamName: Json, matchId: Json,
                                            matchEnd: Option<real>)
    ensures |PlayerRows(players, teamName, matchId, matchEnd)| == |players|
    decreases |players|
  {
    if players != [] {
      PlayerRowsLength(players[..|players| - 1], teamName, matchId, matchEnd);
    }
  }

  /** The rows of a team are as many as its lineup entries. */
  lemma TeamRowsLength(t: Json)
    ensures |TeamRows(t)| == |ListField(t, "lineup")|
  {
    PlayerRowsLength(ListField(t, "lineup"), Field(t, "team_name", JStr("Unknown")),
                     Field(t, "match_id", JNull), MatchEndTime(ListField(t, "events")));
  }

  /** The table has one row per lineup entry over all teams. */
  lemma {:induction false} TimeTableLength(teams: seq<Json>)
    ensures |TimeTable(teams)| == LineupSize(teams)
    decreases |teams|
  {
    if teams != [] {
      TimeTableLength(teams[..|teams| - 1]);
      TeamRowsLength(teams[|teams| - 1]);
    }
  }

  /** Team `k`'s rows sit right after the rows of the teams before it. */
  lemma TimeTableBlock(teams: seq<Json>, k: nat)
    requires k < |teams|
    ensures LineupSize(teams[..k]) + |TeamRows(teams[k])| <= |TimeTable(teams)|
    ensures TimeTable(teams)[LineupSize(teams[..k])..LineupSize(teams[..k]) + |TeamRows(teams[k])|]
            == TeamRows(teams[k])
  {
    ConcatBlock(teams, TeamRows, k);
    TimeTableLength(teams[..k]);
  }

  /** The table has exactly one row per lineup entry, teams in order: team `k`'s rows sit
      right after the rows of the teams before it. */
  lemma TimeTableLayout(teams: seq<Json>)
    ensures |TimeTable(teams)| == LineupSize(teams)
    ensures forall k :: 0 <= k < |teams| ==>
              LineupSize(teams[..k]) + |TeamRows(teams[k])| <= |TimeTable(teams)|
              && TimeTable(teams)[LineupSize(teams[..k])..LineupSize(teams[..k]) + |TeamRows(teams[k])|]
                 == TeamRows(teams[k])
  {
    TimeTableLength(teams);
    forall k | 0 <= k < |teams|
      ensures LineupSize(teams[..k]) + |TeamRows(teams[k])| <= |TimeTable(teams)|
      ensures TimeTable(teams)[LineupSize(teams[..k])..LineupSize(teams[..k]) + |TeamRows(teams[k])|]
              == TeamRows(teams[k])
    {
      TimeTableBlock(teams, k);
    }
  }

  /** A single position contributes its spell when it is non-empty. */
  lemma TotalTimeSingle(p: Json, matchEnd: Option<real>)
    ensures TotalTime([p], matchEnd) == if Truthy(p) then SpellEnd(p, matchEnd) - SpellStart(p) else 0.0
  {
    assert [p][..0] == [];
  }

  /** A closed spell is worth its `to` minus its `from`, whatever the match end. */
  lemma ClosedSpell(from: Json, to: Json, matchEnd: Option<real>)
    requires to != JNull
    ensures TotalTime([JObj(map["from" := from, "to" := to])], matchEnd)
            == ParseTimestampToSeconds(to) - ParseTimestampToSeconds(from)
  {
    var spell := JObj(map["from" := from, "to" := to]);
    assert "from" in spell.fields && spell.fields["from"] == from;
    assert "to" in spell.fields && spell.fields["to"] == to;
    TotalTimeSingle(spell, matchEnd);
  }

  /** An open spell lasts from its `from` to the match end, or to 5400 seconds when the team
      has no "Half End" event. */
  lemma OpenSpell(from: Json, teamEvents: seq<Json>)
    ensures TotalTime([JObj(map["from" := from, "to" := JNull])], MatchEndTime(teamEvents))
            == (if MatchEndTime(teamEvents).Some? then MatchEndTime(teamEvents).value else FullMatchSeconds)
               - ParseTimestampToSeconds(from)
  {
    var spell := JObj(map["from" := from, "to" := JNull]);
    assert "from" in spell.fields && spell.fields["from"] == from;
    assert "to" in spell.fields && spell.fields["to"] == JNull;
    TotalTimeSingle(spell, MatchEndTime(teamEvents));
  }

  /** A spell from "HH:MM:SS.000" to another such time is worth the difference in seconds:
      from kick-off to "00:10:00.000" is 600 seconds. */
  lemma ClosedSpellExample(h1: nat, m1: nat, s1: nat, h2: nat, m2: nat, s2: nat, matchEnd: Option<real>)
    ensures TotalTime([JObj(map["from" := JStr(FormatTimestamp(h1, m1, s1, 0)),
                                "to" := JStr(FormatTimestamp(h2, m2, s2, 0))])], matchEnd)
            == ((h2 * 3600 + m2 * 60 + s2) - (h1 * 3600 + m1 * 60 + s1)) as real
  {
    FormatRoundTrip(h1, m1, s1, 0);
    FormatRoundTrip(h2, m2, s2, 0);
    ClosedSpell(JStr(FormatTimestamp(h1, m1, s1, 0)), JStr(FormatTimestamp(h2, m2, s2, 0)), matchEnd);
  }

  /** An open spell from kick-off, in a team with no "Half End" event, lasts the full 5400
      seconds. */
  lemma OpenSpellExample(teamEvents: seq<Json>)
    requires forall i :: 0 <= i < |teamEvents| ==> !IsHalfEnd(teamEvents[i])
    ensures TotalTime([JObj(map["from" := JStr(FormatTimestamp(0, 0, 0, 0)), "to" := JNull])],
                      MatchEndTime(teamEvents)) == FullMatchSeconds
  {
    FormatRoundTrip(0, 0, 0, 0);
    MatchEndTimeIsMax(teamEvents);
    OpenSpell(JStr(FormatTimestamp(0, 0, 0, 0)), teamEvents);
  }
}
