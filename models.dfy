/** The record validator (`DataValidator`, `ValidationResult`): required-key checks on a lineup
    record and on the events list, with warnings that never affect validity. */
module Models {
  import opened Json
  import opened Seqs
  import opened Decimal

  /** The outcome of validating one record set. */
  datatype ValidationResult = ValidationResult(
    isValid: bool,
    missingFields: seq<string>,
    errors: seq<string>,
    warnings: seq<string>,
    recordCount: nat)

  const LineupRequiredFields: seq<string> :=
    ["match_date", "match_id", "events", "formations", "lineup", "team_id", "team_name"]

  const EventsRequiredFields: seq<string> :=
    ["match_id", "id", "index", "period", "timestamp", "type"]

  const NotAListError: string := "Events data must be a list"

  const DuplicateIdsWarning: string := "Duplicate event IDs found"

  /** The warning for the lineup entry at `idx` that has no `player_id`. */
  function MissingPlayerIdMessage(idx: nat): string {
    "Player at index " + NatToString(idx) + " missing player_id"
  }

  // ---------------------------------------------------------------------------------------
  // Specification of `validate_lineup`

  /** The names in `required` that `record` lacks (`field not in data`), in list order. */
  function MissingFields(required: seq<string>, record: Json): seq<string>
    requires Container(record)
    decreases |required|
  {
    if required == [] then []
    else
      var n := |required| - 1;
      MissingFields(required[..n], record) + (if Contains(record, required[n]) then [] else [required[n]])
  }

  /** The warnings for a lineup list: one per entry without a `player_id`, naming its index. */
  function PlayerIdWarnings(players: seq<Json>): seq<string>
    requires forall i :: 0 <= i < |players| ==> Container(players[i])
    decreases |players|
  {
    if players == [] then []
    else
      var n := |players| - 1;
      PlayerIdWarnings(players[..n])
        + (if Contains(players[n], "player_id") then [] else [MissingPlayerIdMessage(n)])
  }

  /** What `validate_lineup` needs of its argument not to raise: a dict whose `lineup`, when
      present, has a length, and whose lineup entries, when it is a list, support `in`. */
  predicate LineupRecordOk(data: Json) {
    && data.JObj?
    && ("lineup" in data.fields ==> Container(data.fields["lineup"]))
    && ("lineup" in data.fields && data.fields["lineup"].JArr? ==>
          forall i :: 0 <= i < |data.fields["lineup"].items| ==> Container(data.fields["lineup"].items[i]))
  }

  /** The lineup entries the warning loop visits: the `lineup` value when it is a list. */
  function CheckedPlayers(data: Json): seq<Json>
    requires data.JObj?
  {
    if "lineup" in data.fields && data.fields["lineup"].JArr? then data.fields["lineup"].items else []
  }

  /** The result `validate_lineup(data)` returns. */
  function LineupReport(data: Json): ValidationResult
    requires LineupRecordOk(data)
  {
    var missing := MissingFields(LineupRequiredFields, data);
    var errors: seq<string> := [];
    var count := if "lineup" in data.fields then Size(data.fields["lineup"]) else 0;
    ValidationResult(|missing| == 0 && |errors| == 0, missing, errors,
                     PlayerIdWarnings(CheckedPlayers(data)), count)
  }

  /** `DataValidator.validate_lineup`. */
  method ValidateLineup(data: Json) returns (r: ValidationResult)
    requires LineupRecordOk(data)
    ensures r == LineupReport(data)
  {
    var missing: seq<string> := [];
    var errors: seq<string> := [];
    var warnings: seq<string> := [];
    for i := 0 to |LineupRequiredFields|
      invariant missing == MissingFields(LineupRequiredFields[..i], data)
    {
      var field := LineupRequiredFields[i];
      if !Contains(data, field) {
        missing := missing + [field];
      }
      assert LineupRequiredFields[..i + 1][..i] == LineupRequiredFields[..i];
    }
    assert LineupRequiredFields[..|LineupRequiredFields|] == LineupRequiredFields;
    var d := data.fields;
    if "lineup" in d && d["lineup"].JArr? {
      var players := d["lineup"].items;
      for idx := 0 to |players|
        invariant warnings == PlayerIdWarnings(players[..idx])
      {
        if !Contains(players[idx], "player_id") {
          warnings := warnings + [MissingPlayerIdMessage(idx)];
        }
        assert players[..idx + 1][..idx] == players[..idx];
      }
      assert players[..|players|] == players;
    }
    var isValid := |missing| == 0 && |errors| == 0;
    var recordCount := if "lineup" in d then Size(d["lineup"]) else 0;
    r := ValidationResult(isValid, missing, errors, warnings, recordCount);
  }

  // ---------------------------------------------------------------------------------------
  // Specification of `validate_events`

  /** `"id" in e`, for an event that supports `in`. */
  predicate HasId(e: Json) {
    Container(e) && Contains(e, "id")
  }

  /** What `validate_events` needs of its argument not to raise: when it is a list, each
      element supports `in`, and one that has an "id" is a dict whose id is hashable. */
  predicate EventsInputOk(data: Json) {
    data.JArr? ==>
      forall i :: 0 <= i < |data.items| ==> EventOk(data.items[i])
  }

  predicate EventOk(e: Json) {
    Container(e) && (HasId(e) ==> e.JObj? && Hashable(e.fields["id"]))
  }

  /** `[e.get("id") for e in events if "id" in e]`. */
  function EventIds(events: seq<Json>): seq<Json>
    requires forall i :: 0 <= i < |events| ==> EventOk(events[i])
    decreases |events|
  {
    if events == [] then []
    else
      var n := |events| - 1;
      assert EventOk(events[n]);
      EventIds(events[..n]) + (if HasId(events[n]) then [events[n].fields["id"]] else [])
  }

  /** The result `validate_events(data)` returns. */
  function EventsReport(data: Json): ValidationResult
    requires EventsInputOk(data)
  {
    if !data.JArr? then ValidationResult(false, [], [NotAListError], [], 0)
    else
      var events := data.items;
      var missing := if events != [] then MissingFields(EventsRequiredFields, events[0]) else [];
      var ids := EventIds(events);
      var warnings := if |ids| != |Elems(ids)| then [DuplicateIdsWarning] else [];
      var errors: seq<string> := [];
      ValidationResult(|missing| == 0 && |errors| == 0, missing, errors, warnings, |events|)
  }

  /** `DataValidator.validate_events`. */
  method ValidateEvents(data: Json) returns (r: ValidationResult)
    requires EventsInputOk(data)
    ensures r == EventsReport(data)
  {
    var missing: seq<string> := [];
    var errors: seq<string> := [];
    var warnings: seq<string> := [];
    if !data.JArr? {
      errors := errors + [NotAListError];
      return ValidationResult(false, missing, errors, warnings, 0);
    }
    var events := data.items;
    if events != [] {
      var first := events[0];
      for i := 0 to |EventsRequiredFields|
        invariant missing == MissingFields(EventsRequiredFields[..i], first)
      {
        var field := EventsRequiredFields[i];
        if !Contains(first, field) {
          missing := missing + [field];
        }
        assert EventsRequiredFields[..i + 1][..i] == EventsRequiredFields[..i];
      }
      assert EventsRequiredFields[..|EventsRequiredFields|] == EventsRequiredFields;
    }
    var eventIds: seq<Json> := [];
    for i := 0 to |events|
      invariant eventIds == EventIds(events[..i])
    {
      if Contains(events[i], "id") {
        eventIds := eventIds + [events[i].fields["id"]];
      }
      assert events[..i + 1][..i] == events[..i];
    }
    assert events[..|events|] == events;
    var idSet := set x | x in eventIds;
    if |eventIds| != |idSet| {
      warnings := warnings + [DuplicateIdsWarning];
    }
    var isValid := |missing| == 0 && |errors| == 0;
    r := ValidationResult(isValid, missing, errors, warnings, |events|);
  }

  // ---------------------------------------------------------------------------------------
  // Properties

  /** A name is reported missing exactly when it is required and absent, and the report
      keeps the order of the required list. */
  lemma {:induction false} MissingFieldsExact(required: seq<string>, record: Json)
    requires Container(record)
    ensures forall f :: f in MissingFields(required, record) <==> f in required && !Contains(record, f)
    ensures IsSubsequence(MissingFields(required, record), required)
    decreases |required|
  {
    if required != [] {
      var n := |required| - 1;
      var init := required[..n];
      var x := required[n];
      MissingFieldsExact(init, record);
      assert required == init + [x];
      var m := MissingFields(required, record);
      var m' := MissingFields(init, record);
      assert required[..|required| - 1] == init;
      if Contains(record, x) {
        assert m == m';
        if m' != [] {
          assert m'[|m'| - 1] in m';
        }
      } else {
        assert m == m' + [x];
        assert m[..|m| - 1] == m';
      }
    }
  }

  /** Every required lineup key is present. */
  predicate HasLineupKeys(data: Json)
    requires data.JObj?
  {
    forall f | f in LineupRequiredFields :: f in data.fields
  }

  /** `validate_lineup` never reports an error; it is valid exactly when every required key
      is present, its missing list names exactly the absent ones, in list order, and it
      counts the entries of `lineup` (0 when there is none). */
  lemma LineupValidity(data: Json)
    requires LineupRecordOk(data)
    ensures LineupReport(data).errors == []
    ensures LineupReport(data).isValid <==> HasLineupKeys(data)
    ensures forall f :: f in LineupReport(data).missingFields <==>
                          f in LineupRequiredFields && f !in data.fields
    ensures IsSubsequence(LineupReport(data).missingFields, LineupRequiredFields)
    ensures "lineup" !in data.fields ==> LineupReport(data).recordCount == 0
    ensures "lineup" in data.fields && data.fields["lineup"].JArr? ==>
              LineupReport(data).recordCount == |data.fields["lineup"].items|
  {
    MissingFieldsExact(LineupRequiredFields, data);
    var m := LineupReport(data).missingFields;
    if m != [] {
      assert m[0] in m;
    }
  }

  /** The text of a missing-id warning determines the index it names. */
  lemma MissingPlayerIdMessageInjective(a: nat, b: nat)
    ensures MissingPlayerIdMessage(a) == MissingPlayerIdMessage(b) ==> a == b
  {
    if MissingPlayerIdMessage(a) == MissingPlayerIdMessage(b) {
      var p, q := "Player at index ", " missing player_id";
      var sa, sb := NatToString(a), NatToString(b);
      var ma, mb := p + sa + q, p + sb + q;
      assert ma[|p|..|ma| - |q|] == sa;
      assert mb[|p|..|mb| - |q|] == sb;
      NatToStringInjective(a, b);
    }
  }

  /** `w` is the warning for the entry at `i`, which lacks `player_id`. */
  predicate WarnsAt(players: seq<Json>, i: int, w: string) {
    0 <= i < |players| && Container(players[i]) && !Contains(players[i], "player_id")
    && w == MissingPlayerIdMessage(i)
  }

  /** The warnings are exactly those for the lineup entries that lack `player_id`, each
      naming that entry's index. */
  lemma {:induction false} PlayerIdWarningsExact(players: seq<Json>)
    requires forall i :: 0 <= i < |players| ==> Container(players[i])
    ensures forall w :: w in PlayerIdWarnings(players) <==> exists i :: WarnsAt(players, i, w)
    decreases |players|
  {
    if players != [] {
      var n := |players| - 1;
      var init := players[..n];
      PlayerIdWarningsExact(init);
      var ws := PlayerIdWarnings(init);
      var last := if Contains(players[n], "player_id") then [] else [MissingPlayerIdMessage(n)];
      assert PlayerIdWarnings(players) == ws + last;
      forall w ensures w in PlayerIdWarnings(players) <==> exists i :: WarnsAt(players, i, w) {
        if w in ws {
          var i :| WarnsAt(init, i, w);
          assert init[i] == players[i];
          assert WarnsAt(players, i, w);
        } else if w in last {
          assert WarnsAt(players, n, w);
        }
        if exists i :: WarnsAt(players, i, w) {
          var i :| WarnsAt(players, i, w);
          if i < n {
            assert init[i] == players[i];
            assert WarnsAt(init, i, w);
          } else {
            assert w in last;
          }
        }
      }
    }
  }

  /** Exactly one warning per entry that lacks `player_id`: no warning is repeated. */
  lemma {:induction false} PlayerIdWarningsDistinct(players: seq<Json>)
    requires forall i :: 0 <= i < |players| ==> Container(players[i])
    ensures Distinct(PlayerIdWarnings(players))
    decreases |players|
  {
    if players != [] {
      var n := |players| - 1;
      var init := players[..n];
      PlayerIdWarningsDistinct(init);
      var ws := PlayerIdWarnings(init);
      if !Contains(players[n], "player_id") {
        var msg := MissingPlayerIdMessage(n);
        PlayerIdWarningsExact(init);
        if msg in ws {
          var i :| WarnsAt(init, i, msg);
          MissingPlayerIdMessageInjective(i, n);
        }
        DistinctSnoc(ws, msg);
      }
    }
  }

  /** `validate_events`: a non-list is invalid with one error and no records; a list has no
      error, counts its elements, and is valid exactly when it is empty or its first element
      has every required key, the missing list naming the absent ones. */
  lemma EventsReportShape(data: Json)
    requires EventsInputOk(data)
    ensures var r := EventsReport(data);
            && (r.errors == [] <==> data.JArr?)
            && (!data.JArr? ==> !r.isValid && |r.errors| == 1 && r.recordCount == 0)
            && (data.JArr? ==> r.recordCount == |data.items|)
            && (data.JArr? ==>
                  (r.isValid <==>
                    (data.items == [] || forall f | f in EventsRequiredFields :: Contains(data.items[0], f))))
            && (data.JArr? && data.items != [] ==>
                  forall f :: f in r.missingFields <==>
                                f in EventsRequiredFields && !Contains(data.items[0], f))
  {
    if data.JArr? && data.items != [] {
      assert EventOk(data.items[0]);
      MissingFieldsExact(EventsRequiredFields, data.items[0]);
      var m := EventsReport(data).missingFields;
      if m != [] {
        assert m[0] in m;
      }
    }
  }

  /** Only the first event is checked for required keys: two lists with the same first
      element get the same validity and missing list, whatever follows. */
  lemma OnlyFirstEventChecked(a: Json, b: Json)
    requires EventsInputOk(a) && EventsInputOk(b)
    requires a.JArr? && b.JArr? && |a.items| > 0 && |b.items| > 0 && a.items[0] == b.items[0]
    ensures EventsReport(a).isValid == EventsReport(b).isValid
    ensures EventsReport(a).missingFields == EventsReport(b).missingFields
  {
  }

  /** The id of an event that has one. */
  function IdOf(e: Json): Json
    requires EventOk(e) && HasId(e)
  {
    e.fields["id"]
  }

  /** Two different events carry the same id. */
  predicate SharedId(events: seq<Json>)
    requires forall i :: 0 <= i < |events| ==> EventOk(events[i])
  {
    exists i, j :: 0 <= i < j < |events| && HasId(events[i]) && HasId(events[j])
                   && IdOf(events[i]) == IdOf(events[j])
  }

  /** The id of every event that has one is collected. */
  lemma {:induction false} EventIdsHas(events: seq<Json>, i: nat)
    requires forall i :: 0 <= i < |events| ==> EventOk(events[i])
    requires i < |events| && HasId(events[i])
    ensures IdOf(events[i]) in EventIds(events)
    decreases |events|
  {
    var n := |events| - 1;
    var init := events[..n];
    assert EventOk(events[n]);
    if i < n {
      assert init[i] == events[i];
      EventIdsHas(init, i);
    }
  }

  /** Every collected id is the id of some event. */
  lemma {:induction false} EventIdsFrom(events: seq<Json>, x: Json)
    requires forall i :: 0 <= i < |events| ==> EventOk(events[i])
    requires x in EventIds(events)
    ensures exists i :: 0 <= i < |events| && HasId(events[i]) && IdOf(events[i]) == x
    decreases |events|
  {
    var n := |events| - 1;
    var init := events[..n];
    assert EventOk(events[n]);
    if x in EventIds(init) {
      EventIdsFrom(init, x);
      var i :| 0 <= i < |init| && HasId(init[i]) && IdOf(init[i]) == x;
      assert events[i] == init[i];
    } else {
      assert HasId(events[n]) && IdOf(events[n]) == x;
    }
  }

  /** The collected ids are exactly the ids of the events that have one. */
  lemma EventIdsMembers(events: seq<Json>)
    requires forall i :: 0 <= i < |events| ==> EventOk(events[i])
    ensures forall x :: x in EventIds(events) <==>
              exists i :: 0 <= i < |events| && HasId(events[i]) && IdOf(events[i]) == x
  {
    forall x ensures x in EventIds(events) <==>
               exists i :: 0 <= i < |events| && HasId(events[i]) && IdOf(events[i]) == x
    {
      if x in EventIds(events) {
        EventIdsFrom(events, x);
      }
      if exists i :: 0 <= i < |events| && HasId(events[i]) && IdOf(events[i]) == x {
        var i :| 0 <= i < |events| && HasId(events[i]) && IdOf(events[i]) == x;
        EventIdsHas(events, i);
      }
    }
  }

  /** An id is shared in a list with one more event exactly when it was shared before or the
      new event repeats an earlier id. */
  lemma SharedIdSnoc(events: seq<Json>)
    requires forall i :: 0 <= i < |events| ==> EventOk(events[i])
    requires events != []
    ensures var n := |events| - 1;
            SharedId(events) <==>
              SharedId(events[..n]) ||
              (HasId(events[n]) &&
               exists i :: 0 <= i < n && HasId(events[i]) && IdOf(events[i]) == IdOf(events[n]))
  {
    var n := |events| - 1;
    var init := events[..n];
    if SharedId(events) {
      var i, j :| 0 <= i < j < |events| && HasId(events[i]) && HasId(events[j])
                  && IdOf(events[i]) == IdOf(events[j]);
      if j < n {
        assert init[i] == events[i] && init[j] == events[j];
      }
    }
    if SharedId(init) {
      var i, j :| 0 <= i < j < |init| && HasId(init[i]) && HasId(init[j])
                  && IdOf(init[i]) == IdOf(init[j]);
      assert events[i] == init[i] && events[j] == init[j];
    }
  }

  /** The collected ids are pairwise distinct exactly when no two events share an id. */
  lemma {:induction false} EventIdsDistinct(events: seq<Json>)
    requires forall i :: 0 <= i < |events| ==> EventOk(events[i])
    ensures Distinct(EventIds(events)) <==> !SharedId(events)
    decreases |events|
  {
    if events == [] {
      assert !SharedId(events);
    } else {
      var n := |events| - 1;
      var init := events[..n];
      EventIdsDistinct(init);
      EventIdsMembers(init);
      SharedIdSnoc(events);
      assert EventOk(events[n]);
      if HasId(events[n]) {
        DistinctSnoc(EventIds(init), IdOf(events[n]));
        if exists i :: 0 <= i < n && HasId(events[i]) && IdOf(events[i]) == IdOf(events[n]) {
          var i :| 0 <= i < n && HasId(events[i]) && IdOf(events[i]) == IdOf(events[n]);
          assert init[i] == events[i];
        }
        if IdOf(events[n]) in EventIds(init) {
          var i :| 0 <= i < |init| && HasId(init[i]) && IdOf(init[i]) == IdOf(events[n]);
          assert init[i] == events[i];
        }
      } else {
        assert EventIds(events) == EventIds(init);
      }
    }
  }

  /** The single duplicate warning appears exactly when two events carry the same id; it
      never changes validity. */
  lemma DuplicateWarningIff(data: Json)
    requires EventsInputOk(data) && data.JArr?
    ensures DuplicateIdsWarning in EventsReport(data).warnings <==> SharedId(data.items)
    ensures |EventsReport(data).warnings| <= 1
    ensures EventsReport(data).isValid ==
            (data.items == [] || MissingFields(EventsRequiredFields, data.items[0]) == [])
  {
    EventIdsDistinct(data.items);
    DistinctIffSameCardinality(EventIds(data.items));
  }
}
