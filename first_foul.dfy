/** `get_first_foul_in_second_half`: the first "Foul Committed" event of period 2, in input
    order, as a one-row table; an empty table when there is none. */
module FirstFoul {
  import opened Wrappers
  import opened Json
  import opened Utils
  import opened Events

  /** `match_time`: `f"{minute}:{second:02d}"` when both are present, "Unknown" otherwise. */
  datatype MatchTime = Clock(minute: Json, second: Json) | UnknownTime

  /** The row of the returned table; `timestampSeconds` is unrounded. */
  datatype FoulRow = FoulRow(
    playerId: Json,
    playerName: Json,
    teamName: Json,
    period: Json,
    minute: Json,
    second: Json,
    timestamp: Json,
    timestampSeconds: real,
    matchTime: MatchTime,
    foulType: Json,
    card: Json)

  /** `event_type == "Foul Committed" and period == 2`, with `period = event.get("period")`. */
  predicate IsSecondHalfFoul(e: Json) {
    EventType(e) == JStr("Foul Committed") && Field(e, "period", JNull) == JNum(2.0)
  }

  /** `event.get("foul_committed", {}).get(k, {}).get("name")`. */
  function FoulDetail(e: Json, k: string): Json {
    Field(SubField(e, "foul_committed", k, JObj(map[])), "name", JNull)
  }

  function MatchTimeOf(minute: Json, second: Json): MatchTime {
    if minute != JNull && second != JNull then Clock(minute, second) else UnknownTime
  }

  /** The `first_foul` record built from a foul event. */
  function FoulOf(e: Json): FoulRow {
    var minute, second := Field(e, "minute", JNull), Field(e, "second", JNull);
    FoulRow(SubField(e, "player", "id", JNull),
            SubField(e, "player", "name", JStr("Unknown")),
            SubField(e, "team", "name", JStr("Unknown")),
            Field(e, "period", JNull),
            minute,
            second,
            Timestamp(e),
            Seconds(e),
            MatchTimeOf(minute, second),
            FoulDetail(e, "type"),
            FoulDetail(e, "card"))
  }

  /** The record of the first second-half foul, if any. */
  function FirstFoul(events: seq<Json>): Option<FoulRow>
    decreases |events|
  {
    if events == [] then None
    else if IsSecondHalfFoul(events[0]) then Some(FoulOf(events[0]))
    else FirstFoul(events[1..])
  }

  /** The table `get_first_foul_in_second_half` returns: `[first_foul]`, or empty. */
  function FoulTable(events: seq<Json>): seq<FoulRow> {
    match FirstFoul(events)
    case Some(r) => [r]
    case None => []
  }

  /** `{second:02d}` accepts an integer (a bool is one). */
  predicate IntFormattable(j: Json) {
    j.JBool? || (j.JNum? && j.n == j.n.Floor as real)
  }

  /** What the loop needs of an event it reaches: its `type` can be read, and for the foul it
      stops at, its player, team and foul details can be read and `match_time` rendered. */
  predicate FoulEventReadable(e: Json) {
    && DictField(e, "type")
    && (IsSecondHalfFoul(e) ==>
          && DictField(e, "player") && DictField(e, "team")
          && SubDictReadable(e, "foul_committed", "type")
          && SubDictReadable(e, "foul_committed", "card")
          && (Field(e, "minute", JNull) != JNull && Field(e, "second", JNull) != JNull ==>
                IntFormattable(Field(e, "second", JNull))))
  }

  /** No event before index `i` is a second-half foul. */
  predicate NoFoulBefore(events: seq<Json>, i: int) {
    forall j :: 0 <= j < i && j < |events| ==> !IsSecondHalfFoul(events[j])
  }

  /** The events the loop reaches can be read; those after the foul it stops at are not read. */
  predicate FoulEventsReadable(events: seq<Json>) {
    forall i :: 0 <= i < |events| && NoFoulBefore(events, i) ==> FoulEventReadable(events[i])
  }

  // ---------------------------------------------------------------------------------------
  // The loop

  /** The body of the `if` that builds `first_foul`. */
  method BuildFoulRow(event: Json) returns (row: FoulRow)
    requires FoulEventReadable(event) && IsSecondHalfFoul(event)
    ensures row == FoulOf(event)
  {
    var timestamp := Field(event, "timestamp", JStr("00:00:00.000"));
    var timestampSeconds := ParseTimestampToSeconds(timestamp);
    SecondsOfTimestamp(event);
    var minute := Field(event, "minute", JNull);
    var second := Field(event, "second", JNull);
    var matchTime := UnknownTime;
    if minute != JNull && second != JNull {
      matchTime := Clock(minute, second);
    }
    row := FoulRow(SubField(event, "player", "id", JNull),
                   SubField(event, "player", "name", JStr("Unknown")),
                   SubField(event, "team", "name", JStr("Unknown")),
                   Field(event, "period", JNull),
                   minute,
                   second,
                   timestamp,
                   timestampSeconds,
                   matchTime,
                   FoulDetail(event, "type"),
                   FoulDetail(event, "card"));
  }

  /** `get_first_foul_in_second_half`, without the metadata and CSV output. */
  method GetFirstFoulInSecondHalf(validatedEvents: seq<Json>) returns (table: seq<FoulRow>)
    requires FoulEventsReadable(validatedEvents)
    ensures table == FoulTable(validatedEvents)
  {
    var firstFoul: Option<FoulRow> := None;
    var i := 0;
    while i < |validatedEvents|
      invariant 0 <= i <= |validatedEvents|
      invariant NoFoulBefore(validatedEvents, i)
      invariant FirstFoul(validatedEvents[i..]) == FirstFoul(validatedEvents)
    {
      var event := validatedEvents[i];
      var eventType := SubField(event, "type", "name", JStr(""));
      var period := Field(event, "period", JNull);
      if eventType == JStr("Foul Committed") && period == JNum(2.0) {
        var row := BuildFoulRow(event);
        firstFoul := Some(row);
        break;
      }
      assert validatedEvents[i..][1..] == validatedEvents[i + 1..];
      i := i + 1;
    }
    table := [];
    if firstFoul.Some? {
      table := [firstFoul.value];
    }
  }

  // ---------------------------------------------------------------------------------------
  // Properties

  /** The result is the record of a foul that no earlier second-half foul precedes. */
  lemma {:induction false} FirstFoulAt(events: seq<Json>, k: nat)
    requires k < |events| && IsSecondHalfFoul(events[k]) && NoFoulBefore(events, k)
    ensures FirstFoul(events) == Some(FoulOf(events[k]))
    decreases k
  {
    if k > 0 {
      assert !IsSecondHalfFoul(events[0]);
      assert forall j :: 0 <= j < k - 1 ==> events[1..][j] == events[j + 1];
      FirstFoulAt(events[1..], k - 1);
    }
  }

  /** A result is the record of a second-half foul that no earlier one precedes. */
  lemma {:induction false} FirstFoulFrom(events: seq<Json>)
    requires FirstFoul(events).Some?
    ensures exists k :: 0 <= k < |events| && IsSecondHalfFoul(events[k]) && NoFoulBefore(events, k)
                        && FirstFoul(events) == Some(FoulOf(events[k]))
    decreases |events|
  {
    if !IsSecondHalfFoul(events[0]) {
      var rest := events[1..];
      FirstFoulFrom(rest);
      var k :| 0 <= k < |rest| && IsSecondHalfFoul(rest[k]) && NoFoulBefore(rest, k)
               && FirstFoul(rest) == Some(FoulOf(rest[k]));
      assert FirstFoul(events) == FirstFoul(rest);
      assert events[k + 1] == rest[k];
      assert NoFoulBefore(events, k + 1) by {
        forall j | 0 < j < k + 1 ensures !IsSecondHalfFoul(events[j]) {
          assert events[j] == rest[j - 1];
        }
      }
    } else {
      assert IsSecondHalfFoul(events[0]) && NoFoulBefore(events, 0);
    }
  }

  /** There is no result exactly when no event is a second-half foul. */
  lemma {:induction false} FirstFoulNone(events: seq<Json>)
    ensures FirstFoul(events).None? <==> NoFoulBefore(events, |events|)
    decreases |events|
  {
    if events != [] {
      FirstFoulNone(events[1..]);
      assert forall j :: 0 <= j < |events| - 1 ==> events[1..][j] == events[j + 1];
    }
  }

  /** The table is empty when no event is a second-half foul, and otherwise holds exactly the
      record of the first one. */
  lemma FoulTableSpec(events: seq<Json>)
    ensures FoulTable(events) == [] <==> NoFoulBefore(events, |events|)
    ensures forall k :: 0 <= k < |events| && IsSecondHalfFoul(events[k]) && NoFoulBefore(events, k) ==>
              FoulTable(events) == [FoulOf(events[k])]
  {
    FirstFoulNone(events);
    forall k | 0 <= k < |events| && IsSecondHalfFoul(events[k]) && NoFoulBefore(events, k)
      ensures FoulTable(events) == [FoulOf(events[k])]
    {
      FirstFoulAt(events, k);
    }
  }

  /** The reported foul is a period-2 foul, and its time is never negative. */
  lemma FoulRowFacts(e: Json)
    requires IsSecondHalfFoul(e)
    ensures FoulOf(e).period == JNum(2.0)
    ensures FoulOf(e).timestampSeconds >= 0.0
    ensures FoulOf(e).matchTime.UnknownTime? <==> FoulOf(e).minute == JNull || FoulOf(e).second == JNull
  {
  }
}
