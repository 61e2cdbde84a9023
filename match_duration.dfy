/** `calculate_match_duration`: every "Half End" event with a period records that period's
    duration (its timestamp in seconds; a later "Half End" of the same period overwrites an
    earlier one), and the match lasts the sum of the recorded durations. */
module MatchDuration {
  import opened Wrappers
  import opened Json
  import opened Seqs
  import opened OrderedDict
  import opened Utils
  import opened Events

  /** `event.get("type", "Unknown").get("name", "Unknown")` for an event whose `type` is a
      dict. */
  function TypeName(e: Json): Json {
    SubField(e, "type", "name", JStr("Unknown"))
  }

  function Period(e: Json): Json {
    Field(e, "period", JNull)
  }

  /** A "Half End" event with a period: the events the loop records. */
  predicate RecordsPeriod(e: Json) {
    TypeName(e) == JStr("Half End") && Period(e) != JNull
  }

  /** Two values `sorted` can compare: both numbers (booleans included) or both strings. */
  predicate Orderable(a: Json, b: Json) {
    ((a.JNum? || a.JBool?) && (b.JNum? || b.JBool?)) || (a.JStr? && b.JStr?)
  }

  /** `event_data.get("type", "Unknown").get("name", "Unknown")` does not raise: the event
      is a dict with a `type` that is a dict. */
  predicate TypeReadable(e: Json) {
    e.JObj? && "type" in e.fields && e.fields["type"].JObj?
  }

  /** What the function needs of its input not to raise: every event is a dict whose `type`
      is a dict (`.get("type", "Unknown")` yields a string, which has no `.get`, when the
      key is absent), and the recorded periods can be dict keys and sorted together. */
  predicate EventsReadable(events: seq<Json>) {
    && (forall i :: 0 <= i < |events| ==> TypeReadable(events[i]))
    && (forall i, j ::
          (0 <= i < |events| && 0 <= j < |events| && RecordsPeriod(events[i]) && RecordsPeriod(events[j]))
          ==> Orderable(Period(events[i]), Period(events[j])))
  }

  /** `period_durations` after the events loop. */
  function PeriodDurations(events: seq<Json>): seq<(Json, real)>
    decreases |events|
  {
    if events == [] then []
    else
      var d := PeriodDurations(events[..|events| - 1]);
      var e := events[|events| - 1];
      if RecordsPeriod(e) then Put<Json, real>(d, Period(e), Seconds(e))
      else d
  }

  /** The sum of the recorded durations. */
  function SumDurations(d: seq<(Json, real)>): real
    decreases |d|
  {
    if d == [] then 0.0 else SumDurations(d[..|d| - 1]) + d[|d| - 1].1
  }

  /** The one row of the returned table; the duration fields are unrounded. */
  datatype MatchDurationRow = MatchDurationRow(
    matchId: Json,
    numPeriods: nat,
    totalSeconds: real,
    totalMilliseconds: real,
    totalMinutes: real)

  function DurationRow(events: seq<Json>): MatchDurationRow {
    var d := PeriodDurations(events);
    var total := SumDurations(d);
    MatchDurationRow(if events == [] then JNull else Field(events[0], "match_id", JNull),
                     |d|, total, total * 1000.0, total / 60.0)
  }

  /** The events loop of `calculate_match_duration`. */
  method RecordPeriodDurations(validatedEvents: seq<Json>) returns (periodDurations: seq<(Json, real)>)
    requires forall i :: 0 <= i < |validatedEvents| ==> TypeReadable(validatedEvents[i])
    ensures periodDurations == PeriodDurations(validatedEvents)
  {
    periodDurations := [];
    for i := 0 to |validatedEvents|
      invariant periodDurations == PeriodDurations(validatedEvents[..i])
    {
      var eventData := validatedEvents[i];
      var eventType := TypeName(eventData);
      if eventType == JStr("Half End") {
        var period := Period(eventData);
        var timestamp := Timestamp(eventData);
        if period != JNull {
          var timestampSeconds := ParseTimestampToSeconds(timestamp);
          SecondsOfTimestamp(eventData);
          periodDurations := Put<Json, real>(periodDurations, period, timestampSeconds);
        }
      }
      assert validatedEvents[..i + 1][..i] == validatedEvents[..i];
    }
    assert validatedEvents[..|validatedEvents|] == validatedEvents;
  }

  /** The summing loop of `calculate_match_duration`. */
  method SumPeriodDurations(periodDurations: seq<(Json, real)>) returns (totalTime: real)
    ensures totalTime == SumDurations(periodDurations)
  {
    totalTime := 0.0;
    for k := 0 to |periodDurations|
      invariant totalTime == SumDurations(periodDurations[..k])
    {
      totalTime := totalTime + periodDurations[k].1;
      assert periodDurations[..k + 1][..k] == periodDurations[..k];
    }
    assert periodDurations[..|periodDurations|] == periodDurations;
  }

  /** `calculate_match_duration`, without the metadata and CSV output. */
  method CalculateMatchDuration(validatedEvents: seq<Json>) returns (row: MatchDurationRow)
    requires EventsReadable(validatedEvents)
    ensures row == DurationRow(validatedEvents)
  {
    var matchId := if validatedEvents != [] then Get(validatedEvents[0].fields, "match_id", JNull) else JNull;
    var periodDurations := RecordPeriodDurations(validatedEvents);
    var totalTime := SumPeriodDurations(periodDurations);
    row := MatchDurationRow(matchId, |periodDurations|, totalTime, totalTime * 1000.0, totalTime / 60.0);
  }

  // ---------------------------------------------------------------------------------------
  // Properties

  /** Event `i` is the last one recording its period. */
  predicate LastOfPeriod(events: seq<Json>, i: int)
    requires 0 <= i < |events|
  {
    RecordsPeriod(events[i])
    && forall j :: i < j < |events| && RecordsPeriod(events[j]) ==> Period(events[j]) != Period(events[i])
  }

  /** The set of periods the "Half End" events record. */
  function RecordedPeriods(events: seq<Json>): set<Json> {
    set i | 0 <= i < |events| && RecordsPeriod(events[i]) :: Period(events[i])
  }

  lemma RecordedPeriodsSnoc(events: seq<Json>)
    requires events != []
    ensures var e := events[|events| - 1];
            RecordedPeriods(events)
            == RecordedPeriods(events[..|events| - 1]) + (if RecordsPeriod(e) then {Period(e)} else {})
  {
    var n := |events| - 1;
    var init := events[..n];
    forall p | p in RecordedPeriods(events)
      ensures p in RecordedPeriods(init) + (if RecordsPeriod(events[n]) then {Period(events[n])} else {})
    {
      var i :| 0 <= i < |events| && RecordsPeriod(events[i]) && Period(events[i]) == p;
      if i < n {
        assert init[i] == events[i];
      }
    }
    forall p | p in RecordedPeriods(init) ensures p in RecordedPeriods(events) {
      var i :| 0 <= i < n && RecordsPeriod(init[i]) && Period(init[i]) == p;
      assert events[i] == init[i];
    }
  }

  /** The recorded periods are the periods of the recording events, each recorded once. */
  lemma {:induction false} PeriodKeys(events: seq<Json>)
    ensures Distinct(Keys(PeriodDurations(events)))
    ensures Elems(Keys(PeriodDurations(events))) == RecordedPeriods(events)
    decreases |events|
  {
    if events != [] {
      var n := |events| - 1;
      var init := events[..n];
      var e := events[n];
      var d := PeriodDurations(init);
      PeriodKeys(init);
      RecordedPeriodsSnoc(events);
      if RecordsPeriod(e) {
        PutKeys<Json, real>(d, Period(e), Seconds(e));
        PutKeepsDistinct<Json, real>(d, Period(e), Seconds(e));
        if Period(e) !in Keys(d) {
          ElemsOfSnoc(Keys(d), Period(e));
        }
      }
    }
  }

  /** The last event of its period stays last when later events are dropped. */
  lemma LastOfPeriodInit(events: seq<Json>, i: nat)
    requires i < |events| - 1 && LastOfPeriod(events, i)
    ensures LastOfPeriod(events[..|events| - 1], i)
  {
    var init := events[..|events| - 1];
    forall j | i < j < |init| && RecordsPeriod(init[j]) ensures Period(init[j]) != Period(init[i]) {
      assert init[j] == events[j];
    }
  }

  lemma {:induction false} LastWriteWinsAt(events: seq<Json>, i: nat)
    requires i < |events| && LastOfPeriod(events, i)
    ensures Lookup(PeriodDurations(events), Period(events[i]))
            == Some(Seconds(events[i]))
    decreases |events|
  {
    var n := |events| - 1;
    var init := events[..n];
    var e := events[n];
    var d := PeriodDurations(init);
    if i == n {
      assert PeriodDurations(events) == Put<Json, real>(d, Period(e), Seconds(e));
      PutLookup<Json, real>(d, Period(e), Seconds(e));
    } else {
      assert init[i] == events[i];
      LastOfPeriodInit(events, i);
      LastWriteWinsAt(init, i);
      if RecordsPeriod(e) {
        assert Period(e) != Period(events[i]);
        assert PeriodDurations(events) == Put<Json, real>(d, Period(e), Seconds(e));
        PutOther<Json, real>(d, Period(e), Seconds(e), Period(events[i]));
      } else {
        assert PeriodDurations(events) == d;
      }
    }
  }

  /** Each recorded period holds the parsed timestamp of the last event recording it. */
  lemma LastWriteWins(events: seq<Json>)
    ensures forall i :: 0 <= i < |events| && LastOfPeriod(events, i) ==>
              Lookup(PeriodDurations(events), Period(events[i]))
              == Some(Seconds(events[i]))
  {
    forall i | 0 <= i < |events| && LastOfPeriod(events, i)
      ensures Lookup(PeriodDurations(events), Period(events[i]))
              == Some(Seconds(events[i]))
    {
      LastWriteWinsAt(events, i);
    }
  }

  /** `num_periods` is the number of distinct recorded periods, the total is the sum of the
      recorded durations in seconds, and the other units are derived from it. */
  lemma DurationRowSpec(events: seq<Json>)
    ensures var row := DurationRow(events);
            && row.numPeriods == |RecordedPeriods(events)|
            && row.totalSeconds == SumDurations(PeriodDurations(events))
            && row.totalMilliseconds == 1000.0 * row.totalSeconds
            && 60.0 * row.totalMinutes == row.totalSeconds
            && row.matchId == (if events == [] then JNull else Field(events[0], "match_id", JNull))
  {
    var d := PeriodDurations(events);
    PeriodKeys(events);
    DistinctIffSameCardinality(Keys(d));
  }

  /** Every recorded duration is a parsed timestamp, so none is negative, and neither is
      the total. */
  lemma {:induction false} DurationsNonNegative(events: seq<Json>)
    ensures forall k :: 0 <= k < |PeriodDurations(events)| ==> PeriodDurations(events)[k].1 >= 0.0
    ensures SumDurations(PeriodDurations(events)) >= 0.0
    decreases |events|
  {
    if events != [] {
      var n := |events| - 1;
      DurationsNonNegative(events[..n]);
      var d := PeriodDurations(events[..n]);
      var e := events[n];
      if RecordsPeriod(e) {
        PutValues(d, Period(e), Seconds(e));
      }
    }
    SumNonNegative(PeriodDurations(events));
  }

  lemma {:induction false} PutValues(d: seq<(Json, real)>, k: Json, v: real)
    requires forall i :: 0 <= i < |d| ==> d[i].1 >= 0.0
    requires v >= 0.0
    ensures forall i :: 0 <= i < |Put<Json, real>(d, k, v)| ==> Put<Json, real>(d, k, v)[i].1 >= 0.0
    decreases |d|
  {
    if d != [] && d[0].0 != k {
      PutValues(d[1..], k, v);
    }
  }

  lemma {:induction false} SumNonNegative(d: seq<(Json, real)>)
    requires forall i :: 0 <= i < |d| ==> d[i].1 >= 0.0
    ensures SumDurations(d) >= 0.0
    decreases |d|
  {
    if d != [] {
      SumNonNegative(d[..|d| - 1]);
    }
  }

  function HalfEnd(period: real, h: nat, m: nat, sec: nat): Json {
    JObj(map["type" := JObj(map["name" := JStr("Half End")]),
             "period" := JNum(period),
             "timestamp" := JStr(FormatTimestamp(h, m, sec, 0))])
  }

  lemma HalfEndFacts(period: real, h: nat, m: nat, sec: nat)
    ensures RecordsPeriod(HalfEnd(period, h, m, sec))
    ensures Period(HalfEnd(period, h, m, sec)) == JNum(period)
    ensures Seconds(HalfEnd(period, h, m, sec)) == (h * 3600 + m * 60 + sec) as real
  {
    var e := HalfEnd(period, h, m, sec);
    assert "type" in e.fields && "period" in e.fields && "timestamp" in e.fields;
    assert TypeName(e) == JStr("Half End");
    FormatRoundTrip(h, m, sec, 0);
  }

  /** A recording event updates the dict built from the events before it. */
  lemma PeriodDurationsLast(events: seq<Json>)
    requires events != [] && RecordsPeriod(events[|events| - 1])
    ensures PeriodDurations(events)
            == Put<Json, real>(PeriodDurations(events[..|events| - 1]), Period(events[|events| - 1]),
                               Seconds(events[|events| - 1]))
  {
  }

  /** A later "Half End" of the same period replaces the earlier one's duration. */
  lemma OverwriteStep(e1: Json, e2: Json)
    requires RecordsPeriod(e1) && RecordsPeriod(e2) && Period(e1) == Period(e2)
    ensures PeriodDurations([e1, e2]) == [(Period(e1), Seconds(e2))]
  {
    var p, t1, t2 := Period(e1), Seconds(e1), Seconds(e2);
    assert PeriodDurations([e1]) == [(p, t1)] by {
      assert [e1][..0] == [];
    }
    assert [e1, e2][..1] == [e1];
    assert PeriodDurations([e1, e2]) == Put<Json, real>([(p, t1)], p, t2);
    assert [(p, t1)][1..] == [];
  }

  /** Assigning a new key to a one-entry dict appends it. */
  lemma PutOnSingleton(a: (Json, real), k: Json, v: real)
    requires a.0 != k
    ensures Put<Json, real>([a], k, v) == [a, (k, v)]
  {
    assert [a][1..] == [];
  }

  /** A "Half End" of a new period is appended after the periods already recorded. */
  lemma NewPeriodStep(e1: Json, e2: Json, e3: Json)
    requires RecordsPeriod(e1) && RecordsPeriod(e2) && RecordsPeriod(e3)
    requires Period(e1) == Period(e2) && Period(e3) != Period(e1)
    ensures PeriodDurations([e1, e2, e3])
            == [(Period(e1), Seconds(e2)),
                (Period(e3), Seconds(e3))]
  {
    OverwriteStep(e1, e2);
    assert [e1, e2, e3][..2] == [e1, e2];
    PeriodDurationsLast([e1, e2, e3]);
    PutOnSingleton((Period(e1), Seconds(e2)), Period(e3),
                   Seconds(e3));
  }

  /** The total of a two-entry dict. */
  lemma SumOfTwo(a: (Json, real), b: (Json, real))
    ensures SumDurations([a, b]) == a.1 + b.1
  {
    assert [a, b][..1] == [a];
    assert [a][..0] == [];
    assert SumDurations([a]) == a.1;
  }

  /** Two "Half End" events for period 1 and one for period 2: the later period-1 event
      overwrites the earlier, so the match lasts the second period-1 time plus the period-2
      time, over two periods. With period 1 ending at 45:00 and then at 48:30 and period 2
      at 45:15, that is 2910 + 2715 = 5625 seconds. */
  lemma OverwriteExample(e1: Json, e2: Json, e3: Json)
    requires RecordsPeriod(e1) && RecordsPeriod(e2) && RecordsPeriod(e3)
    requires Period(e1) == JNum(1.0) && Period(e2) == JNum(1.0) && Period(e3) == JNum(2.0)
    requires Seconds(e1) == 2700.0
    requires Seconds(e2) == 2910.0
    requires Seconds(e3) == 2715.0
    ensures DurationRow([e1, e2, e3]).numPeriods == 2
    ensures DurationRow([e1, e2, e3]).totalSeconds == 5625.0
  {
    NewPeriodStep(e1, e2, e3);
    SumOfTwo((JNum(1.0), 2910.0), (JNum(2.0), 2715.0));
  }

  /** The same with the events written out, their timestamps rendered as "HH:MM:SS.000"
      strings: the first period-1 time does not count. */
  lemma OverwriteExampleFormatted(h1: nat, m1: nat, s1: nat, h2: nat, m2: nat, s2: nat,
                                  h3: nat, m3: nat, s3: nat)
    ensures var row := DurationRow([HalfEnd(1.0, h1, m1, s1), HalfEnd(1.0, h2, m2, s2),
                                    HalfEnd(2.0, h3, m3, s3)]);
            && row.numPeriods == 2
            && row.totalSeconds == (h2 * 3600 + m2 * 60 + s2 + h3 * 3600 + m3 * 60 + s3) as real
  {
    var e1, e2, e3 := HalfEnd(1.0, h1, m1, s1), HalfEnd(1.0, h2, m2, s2), HalfEnd(2.0, h3, m3, s3);
    HalfEndFacts(1.0, h1, m1, s1);
    HalfEndFacts(1.0, h2, m2, s2);
    HalfEndFacts(2.0, h3, m3, s3);
    NewPeriodStep(e1, e2, e3);
    SumOfTwo((JNum(1.0), Seconds(e2)),
             (JNum(2.0), Seconds(e3)));
  }
}
