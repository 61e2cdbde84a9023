/** The validation gate (`validated_lineup`, `validated_events`): runs the validator over the
    raw input, stops the run when a result is invalid, and otherwise passes the input on
    unchanged together with the figures it reports (team and player totals, the event-type
    histogram and its five most frequent types). Raising `ValueError` is the `...Failed`
    outcome, which carries the validation results the source logs. */
module Validation {
  import opened Wrappers
  import opened Json
  import opened Seqs
  import opened OrderedDict
  import opened Sorting
  import opened Models

  // ---------------------------------------------------------------------------------------
  // validated_lineup

  /** The teams `validated_lineup` validates: a list as it is, any other value as a list
      holding that one team. */
  function TeamsOf(raw: Json): seq<Json> {
    if raw.JArr? then raw.items else [raw]
  }

  /** What the gate needs of its input not to raise: every team is a valid argument of
      `validate_lineup`. */
  predicate LineupGateInputOk(raw: Json) {
    forall i :: 0 <= i < |TeamsOf(raw)| ==> LineupRecordOk(TeamsOf(raw)[i])
  }

  datatype LineupGate =
    | LineupPassed(data: Json, teamsCount: nat, totalPlayers: nat)
    | LineupFailed(results: seq<ValidationResult>)

  /** The results appended to `validation_results`, one per team in order. */
  function LineupResults(teams: seq<Json>): seq<ValidationResult>
    requires forall i :: 0 <= i < |teams| ==> LineupRecordOk(teams[i])
  {
    seq(|teams|, k requires 0 <= k < |teams| => LineupReport(teams[k]))
  }

  /** `sum(r.record_count for r in results)`. */
  function TotalRecords(results: seq<ValidationResult>): nat
    decreases |results|
  {
    if results == [] then 0
    else TotalRecords(results[..|results| - 1]) + results[|results| - 1].recordCount
  }

  predicate AllValid(results: seq<ValidationResult>) {
    forall k :: 0 <= k < |results| ==> results[k].isValid
  }

  lemma AllValidSnoc(results: seq<ValidationResult>, r: ValidationResult)
    ensures AllValid(results + [r]) <==> AllValid(results) && r.isValid
  {
    if AllValid(results + [r]) {
      forall k | 0 <= k < |results| ensures results[k].isValid {
        assert (results + [r])[k] == results[k];
      }
      assert (results + [r])[|results|] == r;
    }
  }

  /** The outcome of `validated_lineup(raw)`. */
  function LineupGateOf(raw: Json): LineupGate
    requires LineupGateInputOk(raw)
  {
    var teams := TeamsOf(raw);
    var results := LineupResults(teams);
    if AllValid(results) then LineupPassed(raw, |teams|, TotalRecords(results))
    else LineupFailed(results)
  }

  /** The teams loop of `validated_lineup`: every team is validated, and `all_valid` records
      whether every result is valid. */
  method ValidateTeams(teams: seq<Json>) returns (results: seq<ValidationResult>, allValid: bool)
    requires forall i :: 0 <= i < |teams| ==> LineupRecordOk(teams[i])
    ensures results == LineupResults(teams)
    ensures allValid <==> AllValid(results)
  {
    allValid := true;
    results := [];
    for idx := 0 to |teams|
      invariant results == LineupResults(teams)[..idx]
      invariant allValid <==> AllValid(results)
    {
      results, allValid := ValidateTeam(results, allValid, teams[idx]);
      SliceSnoc(LineupResults(teams), idx);
    }
  }

  /** The body of the teams loop of `validated_lineup`, for one team. */
  method ValidateTeam(results: seq<ValidationResult>, allValid: bool, team: Json)
    returns (results': seq<ValidationResult>, allValid': bool)
    requires LineupRecordOk(team)
    requires allValid <==> AllValid(results)
    ensures results' == results + [LineupReport(team)]
    ensures allValid' <==> AllValid(results')
  {
    var result := ValidateLineup(team);
    AllValidSnoc(results, result);
    results' := results + [result];
    allValid' := allValid;
    if !result.isValid {
      allValid' := false;
    }
  }

  /** `validated_lineup`. */
  method ValidatedLineup(raw: Json) returns (g: LineupGate)
    requires LineupGateInputOk(raw)
    ensures g == LineupGateOf(raw)
  {
    var teams := TeamsOf(raw);
    var results, allValid := ValidateTeams(teams);
    if !allValid {
      return LineupFailed(results);
    }
    var total := SumRecordCounts(results);
    g := LineupPassed(raw, |teams|, total);
  }

  /** `total_players = sum(r.record_count for r in validation_results)`. */
  method SumRecordCounts(results: seq<ValidationResult>) returns (total: nat)
    ensures total == TotalRecords(results)
  {
    total := 0;
    for k := 0 to |results|
      invariant total == TotalRecords(results[..k])
    {
      total := total + results[k].recordCount;
      assert results[..k + 1][..k] == results[..k];
    }
    assert results[..|results|] == results;
  }

  /** The gate passes exactly when every team has every required lineup key. */
  lemma LineupGatePasses(raw: Json)
    requires LineupGateInputOk(raw)
    ensures LineupGateOf(raw).LineupPassed? <==>
              forall k :: 0 <= k < |TeamsOf(raw)| ==> HasLineupKeys(TeamsOf(raw)[k])
  {
    var teams := TeamsOf(raw);
    var results := LineupResults(teams);
    forall k | 0 <= k < |teams| ensures results[k].isValid <==> HasLineupKeys(teams[k]) {
      LineupValidity(teams[k]);
    }
  }

  /** On success the gate hands on its input itself (not the wrapped list) and reports the
      team count and the sum of the teams' record counts. */
  lemma LineupGatePassed(raw: Json)
    requires LineupGateInputOk(raw)
    ensures var g := LineupGateOf(raw);
            g.LineupPassed? ==> g.data == raw && g.teamsCount == |TeamsOf(raw)|
                                && g.totalPlayers == TotalRecords(LineupResults(TeamsOf(raw)))
  {
  }

  /** On failure every team has still been validated, in order. */
  lemma LineupGateFailed(raw: Json)
    requires LineupGateInputOk(raw)
    ensures var g := LineupGateOf(raw);
            g.LineupFailed? ==>
              |g.results| == |TeamsOf(raw)| &&
              forall k :: 0 <= k < |TeamsOf(raw)| ==> g.results[k] == LineupReport(TeamsOf(raw)[k])
  {
  }

  // ---------------------------------------------------------------------------------------
  // validated_events

  /** `event.get("type", {}).get("name", "Unknown")`; the source raises on any other event
      (see `HistogramEventOk`), so the value given to those is immaterial. */
  function EventTypeName(e: Json): Json {
    if e.JObj? && DictOrAbsent(e.fields, "type") then NameOf(e.fields, "type", JStr("Unknown"))
    else JNull
  }

  /** An event the histogram loop can read: a dict whose `type`, when present, is a dict
      and whose type name can be a dict key. */
  predicate HistogramEventOk(e: Json) {
    e.JObj? && DictOrAbsent(e.fields, "type") && Hashable(EventTypeName(e))
  }

  /** What `validated_events` needs of its input not to raise: a valid argument of
      `validate_events` that, when it passes validation, the histogram loop can read. */
  predicate EventsGateInputOk(raw: Json) {
    && EventsInputOk(raw)
    && (EventsReport(raw).isValid ==>
          raw.JArr? && forall i :: 0 <= i < |raw.items| ==> HistogramEventOk(raw.items[i]))
  }

  /** The `event_types` dict after the histogram loop: type name to number of events. */
  function EventTypeCounts(events: seq<Json>): seq<(Json, nat)>
    decreases |events|
  {
    if events == [] then []
    else
      Tally(EventTypeCounts(events[..|events| - 1]), EventTypeName(events[|events| - 1]))
  }

  /** `sorted(event_types.items(), key=count, reverse=True)[:5]`. */
  function TopEvents(counts: seq<(Json, nat)>): seq<(Json, nat)> {
    var ranked := SortBy(counts, (p: (Json, nat)) => -(p.1 as real));
    ranked[..if |ranked| < 5 then |ranked| else 5]
  }

  datatype EventsGate =
    | EventsPassed(data: Json, eventCount: nat, eventTypeCount: nat, topEvents: seq<(Json, nat)>)
    | EventsFailed(result: ValidationResult)

  /** The outcome of `validated_events(raw)`. */
  function EventsGateOf(raw: Json): EventsGate
    requires EventsGateInputOk(raw)
  {
    var result := EventsReport(raw);
    if !result.isValid then EventsFailed(result)
    else
      var counts := EventTypeCounts(raw.items);
      EventsPassed(raw, result.recordCount, |counts|, TopEvents(counts))
  }

  /** `validated_events`. */
  method ValidatedEvents(raw: Json) returns (g: EventsGate)
    requires EventsGateInputOk(raw)
    ensures g == EventsGateOf(raw)
  {
    var result := ValidateEvents(raw);
    if !result.isValid {
      return EventsFailed(result);
    }
    var events := raw.items;
    var eventTypes: seq<(Json, nat)> := [];
    for i := 0 to |events|
      invariant eventTypes == EventTypeCounts(events[..i])
    {
      assert events[..i + 1][..i] == events[..i];
      eventTypes := Tally(eventTypes, EventTypeName(events[i]));
    }
    assert events[..|events|] == events;
    g := EventsPassed(raw, result.recordCount, |eventTypes|, TopEvents(eventTypes));
  }

  /** The number of events whose type name is `name`. */
  function CountNamed(events: seq<Json>, name: Json): nat
    decreases |events|
  {
    if events == [] then 0
    else
      (if EventTypeName(events[0]) == name then 1 else 0) + CountNamed(events[1..], name)
  }

  lemma {:induction false} CountNamedLast(events: seq<Json>, name: Json)
    requires events != []
    ensures CountNamed(events, name)
            == CountNamed(events[..|events| - 1], name)
               + (if EventTypeName(events[|events| - 1]) == name then 1 else 0)
    decreases |events|
  {
    var n := |events| - 1;
    if n > 0 {
      assert events[1..][..n - 1] == events[..n][1..];
      CountNamedLast(events[1..], name);
    }
  }

  lemma {:induction false} EventTypeCountsLast(events: seq<Json>)
    requires events != []
    ensures EventTypeCounts(events)
            == Tally(EventTypeCounts(events[..|events| - 1]), EventTypeName(events[|events| - 1]))
  {
  }

  /** The histogram has one entry per distinct type name, holding the number of events with
      that name. */
  lemma {:induction false} EventTypeCountsExact(events: seq<Json>)
    ensures Distinct(Keys(EventTypeCounts(events)))
    ensures forall name :: CountOf(EventTypeCounts(events), name) == CountNamed(events, name)
    ensures forall name :: name in Keys(EventTypeCounts(events)) <==> CountNamed(events, name) > 0
    decreases |events|
  {
    if events != [] {
      var init := events[..|events| - 1];
      EventTypeCountsExact(init);
      EventTypeCountsLast(events);
      var d := EventTypeCounts(init);
      var name := EventTypeName(events[|events| - 1]);
      if name !in Keys(d) {
        DistinctSnoc(Keys(d), name);
      }
      forall x ensures CountOf(EventTypeCounts(events), x) == CountNamed(events, x) {
        CountNamedLast(events, x);
      }
      forall x ensures x in Keys(EventTypeCounts(events)) <==> CountNamed(events, x) > 0 {
        CountNamedLast(events, x);
      }
    }
  }

  /** The histogram's counts add up to the number of events. */
  lemma {:induction false} EventTypeCountsTotal(events: seq<Json>)
    ensures Total(EventTypeCounts(events)) == |events|
    decreases |events|
  {
    if events != [] {
      var init := events[..|events| - 1];
      EventTypeCountsTotal(init);
      EventTypeCountsLast(events);
      var d := EventTypeCounts(init);
      var name := EventTypeName(events[|events| - 1]);
      TallyTotal(d, name);
    }
  }

  /** `top_events` holds min(5, number of types) entries taken from the histogram, largest
      count first, and no entry left out has a larger count than one kept. */
  lemma TopEventsSpec(counts: seq<(Json, nat)>)
    requires Distinct(counts)
    ensures var top := TopEvents(counts);
            && |top| == (if |counts| < 5 then |counts| else 5)
            && (forall i, j :: 0 <= i < j < |top| ==> top[i].1 >= top[j].1)
            && (forall p :: p in top ==> p in counts)
            && (forall p, q :: p in counts && p !in top && q in top ==> p.1 <= q.1)
  {
    var key := (p: (Json, nat)) => -(p.1 as real);
    var ranked := SortBy(counts, key);
    var top := TopEvents(counts);
    var m := if |ranked| < 5 then |ranked| else 5;
    assert |ranked| == |counts| by {
      assert |multiset(ranked)| == |multiset(counts)|;
    }
    assert top == ranked[..m];
    forall i, j | 0 <= i < j < |top| ensures top[i].1 >= top[j].1 {
      assert key(ranked[i]) <= key(ranked[j]);
    }
    forall p | p in top ensures p in counts {
      assert p in multiset(ranked);
    }
    forall p, q | p in counts && p !in top && q in top ensures p.1 <= q.1 {
      assert p in multiset(ranked);
      var a :| 0 <= a < |ranked| && ranked[a] == p;
      var b :| 0 <= b < |top| && top[b] == q;
      assert a >= m;
      assert key(ranked[b]) <= key(ranked[a]);
    }
  }

  /** When the events pass, the reported figures are those of the histogram: the number of
      events, the number of distinct type names, and the top entries. */
  lemma EventsGateSpec(raw: Json)
    requires EventsGateInputOk(raw)
    ensures var g := EventsGateOf(raw);
            && (g.EventsPassed? <==> EventsReport(raw).isValid)
            && (g.EventsPassed? ==>
                  && g.data == raw
                  && g.eventCount == |raw.items|
                  && g.eventCount == Total(EventTypeCounts(raw.items))
                  && |g.topEvents| <= 5)
  {
    if EventsReport(raw).isValid {
      EventTypeCountsExact(raw.items);
      EventTypeCountsTotal(raw.items);
      var d := EventTypeCounts(raw.items);
      assert Distinct(d) by {
        forall i, j | 0 <= i < j < |d| ensures d[i] != d[j] {
          assert Keys(d)[i] != Keys(d)[j];
        }
      }
      TopEventsSpec(d);
    }
  }
}
