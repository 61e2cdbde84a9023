/** The asset checks: each reads one derived table and says whether it passed, and with which
    severity a failure is reported. Descriptions and metadata are not modelled. */
module AssetChecks {
  import opened Wrappers
  import opened Json
  import Events
  import TimeOnPitch
  import MatchDuration
  import PassCounts
  import GoalTimeline
  import FirstFoul

  datatype Severity = Warn | Error

  /** The `passed` and `severity` of an `AssetCheckResult`. */
  datatype CheckResult = CheckResult(passed: bool, severity: Severity)

  /** `severity=ERROR if not passed else WARN`. */
  function Outcome(passed: bool): CheckResult {
    CheckResult(passed, if passed then Warn else Error)
  }

  // ---------------------------------------------------------------------------------------
  // player_time_on_pitch

  /** `(df["seconds_on_pitch"] < 0).sum()`. */
  function NegativeTimes(rows: seq<TimeOnPitch.PlayerTime>): nat
    decreases |rows|
  {
    if rows == [] then 0
    else NegativeTimes(rows[..|rows| - 1]) + (if rows[|rows| - 1].secondsOnPitch < 0.0 then 1 else 0)
  }

  /** No row is counted exactly when every player's time is non-negative. */
  lemma {:induction false} NoNegativeTimes(rows: seq<TimeOnPitch.PlayerTime>)
    ensures NegativeTimes(rows) == 0 <==> forall i :: 0 <= i < |rows| ==> rows[i].secondsOnPitch >= 0.0
    decreases |rows|
  {
    if rows != [] {
      var n := |rows| - 1;
      NoNegativeTimes(rows[..n]);
      assert forall i :: 0 <= i < n ==> rows[..n][i] == rows[i];
    }
  }

  /** `check_player_time_on_pitch`: an empty table fails; otherwise the check passes exactly
      when no player has a negative time. */
  function CheckPlayerTimeOnPitch(rows: seq<TimeOnPitch.PlayerTime>): (r: CheckResult)
    ensures r.passed <==> rows != [] && forall i :: 0 <= i < |rows| ==> rows[i].secondsOnPitch >= 0.0
    ensures r.severity == Error <==> !r.passed
  {
    if rows == [] then CheckResult(false, Error)
    else
      var negativeTime := NegativeTimes(rows);
      NoNegativeTimes(rows);
      Outcome(negativeTime == 0)
  }

  /** The sum of `seconds_on_pitch`. */
  function TotalSeconds(rows: seq<TimeOnPitch.PlayerTime>): real
    decreases |rows|
  {
    if rows == [] then 0.0 else TotalSeconds(rows[..|rows| - 1]) + rows[|rows| - 1].secondsOnPitch
  }

  /** For `n > 0` players, `0 < total / n <= 5400` says `0 < total <= 5400 * n`. */
  lemma MeanWithin(total: real, n: nat)
    requires n > 0
    ensures 0.0 < total / n as real <= 5400.0 <==> 0.0 < total <= 5400.0 * n as real
  {
    var avg, count := total / n as real, n as real;
    assert total == avg * count;
    assert total - 5400.0 * count == (avg - 5400.0) * count;
    SignOfProduct(avg, count);
    SignOfProduct(avg - 5400.0, count);
  }

  /** Multiplying by a positive number keeps the sign. */
  lemma SignOfProduct(x: real, y: real)
    requires y > 0.0
    ensures x > 0.0 <==> x * y > 0.0
    ensures x < 0.0 <==> x * y < 0.0
  {
  }

  /** `check_avg_time_on_pitch`: an empty table fails; otherwise the check passes exactly
      when the players' times add up to more than 0 and at most 90 minutes per player. */
  function CheckAvgTimeOnPitch(rows: seq<TimeOnPitch.PlayerTime>): (r: CheckResult)
    ensures r.passed <==> rows != [] && 0.0 < TotalSeconds(rows) <= 5400.0 * |rows| as real
    ensures r.severity == Error <==> !r.passed
  {
    if rows == [] then CheckResult(false, Error)
    else
      var avgTime := TotalSeconds(rows) / |rows| as real;
      MeanWithin(TotalSeconds(rows), |rows|);
      Outcome(0.0 < avgTime <= 5400.0)
  }

  lemma {:induction false} TotalSecondsBounds(rows: seq<TimeOnPitch.PlayerTime>)
    requires forall i :: 0 <= i < |rows| ==> 0.0 <= rows[i].secondsOnPitch <= 5400.0
    ensures 0.0 <= TotalSeconds(rows) <= 5400.0 * |rows| as real
    ensures (exists i :: 0 <= i < |rows| && rows[i].secondsOnPitch > 0.0) ==> TotalSeconds(rows) > 0.0
    decreases |rows|
  {
    if rows != [] {
      var n := |rows| - 1;
      assert forall i :: 0 <= i < n ==> rows[..n][i] == rows[i];
      TotalSecondsBounds(rows[..n]);
      if exists i :: 0 <= i < |rows| && rows[i].secondsOnPitch > 0.0 {
        var i :| 0 <= i < |rows| && rows[i].secondsOnPitch > 0.0;
        if i < n {
          assert rows[..n][i].secondsOnPitch > 0.0;
        }
      }
    }
  }

  /** A table where every player was on the pitch between 0 and 90 minutes, and one for
      more than 0, passes the average check. */
  lemma AvgPassesWhenEachWithin(rows: seq<TimeOnPitch.PlayerTime>)
    requires forall i :: 0 <= i < |rows| ==> 0.0 <= rows[i].secondsOnPitch <= 5400.0
    requires exists i :: 0 <= i < |rows| && rows[i].secondsOnPitch > 0.0
    ensures CheckAvgTimeOnPitch(rows).passed
  {
    TotalSecondsBounds(rows);
  }

  // ---------------------------------------------------------------------------------------
  // calculate_match_duration

  /** `check_match_duration_positive`: an empty table fails; otherwise the check reads the
      first row only and passes exactly when its total is positive. */
  function CheckMatchDurationPositive(rows: seq<MatchDuration.MatchDurationRow>): (r: CheckResult)
    ensures r.passed <==> rows != [] && rows[0].totalSeconds > 0.0
    ensures r.severity == Error <==> !r.passed
  {
    if rows == [] then CheckResult(false, Error)
    else
      var duration := rows[0].totalSeconds;
      Outcome(duration > 0.0)
  }

  /** Rows after the first do not change the outcome. */
  lemma DurationFirstRowOnly(rows: seq<MatchDuration.MatchDurationRow>, more: seq<MatchDuration.MatchDurationRow>)
    requires rows != []
    ensures CheckMatchDurationPositive(rows + more) == CheckMatchDurationPositive(rows)
  {
    assert (rows + more)[0] == rows[0];
  }

  /** With no negative term, a sum is positive exactly when one of its terms is. */
  lemma {:induction false} SumPositive(d: seq<(Json, real)>)
    requires forall k :: 0 <= k < |d| ==> d[k].1 >= 0.0
    ensures MatchDuration.SumDurations(d) > 0.0 <==> exists k :: 0 <= k < |d| && d[k].1 > 0.0
    decreases |d|
  {
    if d != [] {
      var n := |d| - 1;
      assert forall k :: 0 <= k < n ==> d[..n][k] == d[k];
      SumPositive(d[..n]);
      MatchDuration.SumNonNegative(d[..n]);
      if exists k :: 0 <= k < |d| && d[k].1 > 0.0 {
        var k :| 0 <= k < |d| && d[k].1 > 0.0;
        if k < n {
          assert d[..n][k].1 > 0.0;
        }
      }
    }
  }

  /** On the table `calculate_match_duration` builds, the check passes exactly when some
      period recorded a "Half End" at a time later than 00:00:00. */
  lemma DurationCheckOnTable(events: seq<Json>)
    ensures CheckMatchDurationPositive([MatchDuration.DurationRow(events)]).passed <==>
              exists k :: 0 <= k < |MatchDuration.PeriodDurations(events)| && MatchDuration.PeriodDurations(events)[k].1 > 0.0
  {
    MatchDuration.DurationsNonNegative(events);
    SumPositive(MatchDuration.PeriodDurations(events));
  }

  // ---------------------------------------------------------------------------------------
  // total_passes_per_player

  /** `df["total_passes"].sum()`. */
  function PassSum(rows: seq<PassCounts.PassRow>): nat
    decreases |rows|
  {
    if rows == [] then 0 else PassSum(rows[..|rows| - 1]) + rows[|rows| - 1].totalPasses
  }

  /** `df["total_passes"].max()` of a non-empty table. */
  function MaxPasses(rows: seq<PassCounts.PassRow>): nat
    requires rows != []
    decreases |rows|
  {
    if |rows| == 1 then rows[0].totalPasses
    else
      var m := MaxPasses(rows[..|rows| - 1]);
      if rows[|rows| - 1].totalPasses > m then rows[|rows| - 1].totalPasses else m
  }

  /** The maximum is one of the counts, and no count exceeds it. */
  lemma {:induction false} MaxPassesSpec(rows: seq<PassCounts.PassRow>)
    requires rows != []
    ensures forall i :: 0 <= i < |rows| ==> rows[i].totalPasses <= MaxPasses(rows)
    ensures exists i :: 0 <= i < |rows| && rows[i].totalPasses == MaxPasses(rows)
    decreases |rows|
  {
    if |rows| > 1 {
      var n := |rows| - 1;
      assert forall i :: 0 <= i < n ==> rows[..n][i] == rows[i];
      MaxPassesSpec(rows[..n]);
      if rows[n].totalPasses <= MaxPasses(rows[..n]) {
        var i :| 0 <= i < n && rows[..n][i].totalPasses == MaxPasses(rows[..n]);
        assert rows[i].totalPasses == MaxPasses(rows);
      } else {
        assert rows[n].totalPasses == MaxPasses(rows);
      }
    } else {
      assert rows[0].totalPasses == MaxPasses(rows);
    }
  }

  /** For a positive total, `max / total < 0.5` says `2 * max < total`. */
  lemma ShareBelowHalf(max: nat, total: nat)
    requires total > 0
    ensures max as real / total as real < 0.5 <==> 2 * max < total
  {
    var share, t := max as real / total as real, total as real;
    assert max as real == share * t;
    assert (2 * max - total) as real == (2.0 * share - 1.0) * t;
    SignOfProduct(2.0 * share - 1.0, t);
  }

  /** `check_pass_distribution`: an empty table fails; otherwise the check passes exactly when
      no single player made half of the passes or more (a table of zero counts, whose share
      is 0/0, fails). A non-empty table is reported as a warning either way. */
  function CheckPassDistribution(rows: seq<PassCounts.PassRow>): (r: CheckResult)
    ensures r.passed <==> rows != [] && forall i :: 0 <= i < |rows| ==> 2 * rows[i].totalPasses < PassSum(rows)
    ensures r.severity == if rows == [] then Error else Warn
  {
    if rows == [] then CheckResult(false, Error)
    else
      var totalPasses := PassSum(rows);
      var maxPasses := MaxPasses(rows);
      MaxPassesSpec(rows);
      var passed := totalPasses > 0 && maxPasses as real / totalPasses as real < 0.5;
      if totalPasses > 0 then
        ShareBelowHalf(maxPasses, totalPasses);
        CheckResult(passed, Warn)
      else
        CheckResult(passed, Warn)
  }

  lemma {:induction false} PassSumAppend(a: seq<PassCounts.PassRow>, b: seq<PassCounts.PassRow>)
    ensures PassSum(a + b) == PassSum(a) + PassSum(b)
    decreases |b|
  {
    if b == [] {
      assert a + b == a;
    } else {
      var n := |b| - 1;
      assert (a + b)[..|a + b| - 1] == a + b[..n];
      PassSumAppend(a, b[..n]);
    }
  }

  lemma MultisetCancel<T>(p: multiset<T>, q: multiset<T>, x: T)
    requires p + multiset{x} == q + multiset{x}
    ensures p == q
  {
    forall y ensures p[y] == q[y] {
      assert (p + multiset{x})[y] == (q + multiset{x})[y];
    }
  }

  /** The sum does not depend on the order of the rows. */
  lemma {:induction false} PassSumPermutation(a: seq<PassCounts.PassRow>, b: seq<PassCounts.PassRow>)
    requires multiset(a) == multiset(b)
    ensures PassSum(a) == PassSum(b)
    decreases |a|
  {
    if a == [] {
      assert |b| == |multiset(b)| == 0;
    } else {
      var n := |a| - 1;
      var x := a[n];
      assert x in multiset(b);
      var j :| 0 <= j < |b| && b[j] == x;
      var rest := b[..j] + b[j + 1..];
      assert b == b[..j] + [x] + b[j + 1..];
      assert a == a[..n] + [x];
      assert multiset(b) == multiset(rest) + multiset{x};
      assert multiset(a) == multiset(a[..n]) + multiset{x};
      MultisetCancel(multiset(a[..n]), multiset(rest), x);
      PassSumPermutation(a[..n], rest);
      PassSumAppend(b[..j] + [x], b[j + 1..]);
      PassSumAppend(b[..j], [x]);
      PassSumAppend(b[..j], b[j + 1..]);
      assert PassSum([x]) == x.totalPasses by { assert [x][..0] == []; }
    }
  }

  /** The rows of a dict of entries add up to its stored total. */
  lemma {:induction false} PassSumRows(d: seq<(Json, PassCounts.PassEntry)>)
    ensures PassSum(PassCounts.Rows(d)) == PassCounts.EntryTotal(d)
    decreases |d|
  {
    if d != [] {
      var n := |d| - 1;
      assert PassCounts.Rows(d)[..n] == PassCounts.Rows(d[..n]);
      PassSumRows(d[..n]);
    }
  }

  lemma {:induction false} EntryTotalZero(x: seq<(Json, PassCounts.PassEntry)>)
    requires forall i :: 0 <= i < |x| ==> x[i].1.totalPasses == 0
    ensures PassCounts.EntryTotal(x) == 0
    decreases |x|
  {
    if x != [] {
      var n := |x| - 1;
      assert forall i :: 0 <= i < n ==> x[..n][i] == x[i];
      EntryTotalZero(x[..n]);
    }
  }

  /** The table `total_passes_per_player` builds adds up to the number of counted passes:
      the lineup rows add nothing and sorting loses no row. */
  lemma PassTableTotal(events: seq<Json>, lineup: seq<Json>)
    ensures PassSum(PassCounts.PassTable(events, lineup)) == PassCounts.CountedPasses(events)
  {
    var tally := PassCounts.PassTally(events);
    var padded := PassCounts.Padded(events, lineup);
    PassCounts.PadTeamsPrefix(tally, lineup);
    var extra := padded[|tally|..];
    assert padded == tally + extra;
    assert forall i :: 0 <= i < |extra| ==> extra[i] == padded[|tally| + i];
    EntryTotalZero(extra);
    PassCounts.EntryTotalAppend(tally, extra);
    PassCounts.PassTallyTotal(events);
    PassSumRows(padded);
    PassSumPermutation(PassCounts.Rows(padded), PassCounts.PassTable(events, lineup));
  }

  /** On the table `total_passes_per_player` builds, the check passes exactly when the table
      is not empty and no player made half of the counted passes or more. */
  lemma PassCheckOnTable(events: seq<Json>, lineup: seq<Json>)
    ensures var table := PassCounts.PassTable(events, lineup);
            CheckPassDistribution(table).passed <==>
              table != [] &&
              forall i :: 0 <= i < |table| ==>
                2 * PassCounts.PassCount(events, table[i].playerId) < PassCounts.CountedPasses(events)
  {
    PassTableTotal(events, lineup);
    PassCounts.PassTableRows(events, lineup);
  }

  // ---------------------------------------------------------------------------------------
  // get_goal_minutes

  /** A goal `minute` outside [0, 120]. */
  predicate InvalidMinute(m: Json)
    requires m.JNum?
  {
    m.n < 0.0 || m.n > 120.0
  }

  /** The `minute` column can be compared with numbers. */
  predicate NumericMinutes(table: seq<GoalTimeline.NumberedGoal>) {
    forall i :: 0 <= i < |table| ==> table[i].goal.minute.JNum?
  }

  /** `((df["minute"] < 0) | (df["minute"] > 120)).sum()`. */
  function InvalidMinutes(table: seq<GoalTimeline.NumberedGoal>): nat
    requires NumericMinutes(table)
    decreases |table|
  {
    if table == [] then 0
    else
      var n := |table| - 1;
      assert NumericMinutes(table[..n]) by {
        assert forall i :: 0 <= i < n ==> table[..n][i] == table[i];
      }
      InvalidMinutes(table[..n]) + (if InvalidMinute(table[n].goal.minute) then 1 else 0)
  }

  lemma {:induction false} NoInvalidMinutes(table: seq<GoalTimeline.NumberedGoal>)
    requires NumericMinutes(table)
    ensures InvalidMinutes(table) == 0 <==>
              forall i :: 0 <= i < |table| ==> 0.0 <= table[i].goal.minute.n <= 120.0
    decreases |table|
  {
    if table != [] {
      var n := |table| - 1;
      assert forall i :: 0 <= i < n ==> table[..n][i] == table[i];
      NoInvalidMinutes(table[..n]);
    }
  }

  /** `check_goal_minutes`: a match without goals passes; otherwise the check passes exactly
      when every goal's minute lies in [0, 120]. */
  function CheckGoalMinutes(table: seq<GoalTimeline.NumberedGoal>): (r: CheckResult)
    requires NumericMinutes(table)
    ensures r.passed <==> forall i :: 0 <= i < |table| ==> 0.0 <= table[i].goal.minute.n <= 120.0
    ensures r.severity == Error <==> !r.passed
  {
    if table == [] then CheckResult(true, Warn)
    else
      var invalidMinutes := InvalidMinutes(table);
      NoInvalidMinutes(table);
      Outcome(invalidMinutes == 0)
  }

  /** The minute a goal row takes from its event lies in [0, 120]: the event's own `minute`
      when it has one, otherwise the clock minute of a time before the 121st minute. */
  predicate GoalMinuteInRange(e: Json) {
    var own := Field(e, "minute", JNull);
    if own != JNull then own.JNum? && 0.0 <= own.n <= 120.0
    else Events.Seconds(e) < 7260.0
  }

  lemma RowMinuteInRange(e: Json, t: GoalTimeline.GoalType)
    requires GoalMinuteInRange(e)
    ensures GoalTimeline.RowOf(e, t).minute.JNum?
    ensures 0.0 <= GoalTimeline.RowOf(e, t).minute.n <= 120.0
  {
    if Field(e, "minute", JNull) == JNull {
      var ts := Events.Seconds(e);
      GoalTimeline.ClockSpec(ts);
      var m := GoalTimeline.ClockMinute(ts);
      assert m as real <= ts / 60.0;
      assert 60.0 * m as real <= ts;
    }
  }

  /** When every goal event's minute is in range, so is every row's, and the check passes
      on the table `get_goal_minutes` builds. */
  lemma GoalCheckOnTable(events: seq<Json>)
    requires forall i :: 0 <= i < |events| && (GoalTimeline.IsShotGoal(events[i]) || GoalTimeline.IsOwnGoalAgainst(events[i]))
               ==> GoalMinuteInRange(events[i])
    ensures NumericMinutes(GoalTimeline.GoalTable(events))
    ensures CheckGoalMinutes(GoalTimeline.GoalTable(events)).passed
  {
    var table := GoalTimeline.GoalTable(events);
    var goals := GoalTimeline.Goals(events);
    GoalTimeline.GoalTableSpec(events);
    forall i | 0 <= i < |table|
      ensures table[i].goal.minute.JNum? && 0.0 <= table[i].goal.minute.n <= 120.0
    {
      assert GoalTimeline.Unnumbered(table)[i] == table[i].goal;
      assert table[i].goal in multiset(goals);
      var j :| 0 <= j < |goals| && goals[j] == table[i].goal;
      GoalTimeline.GoalsFrom(events, j);
      var k :| 0 <= k < |events| &&
               ((GoalTimeline.IsShotGoal(events[k]) && goals[j] == GoalTimeline.RowOf(events[k], GoalTimeline.Goal))
                || (GoalTimeline.IsOwnGoalAgainst(events[k]) && goals[j] == GoalTimeline.RowOf(events[k], GoalTimeline.OwnGoal)));
      RowMinuteInRange(events[k], goals[j].goalType);
    }
  }

  // ---------------------------------------------------------------------------------------
  // get_first_foul_in_second_half

  /** `check_first_foul_second_half`: no foul passes; otherwise the check passes exactly when
      the first row's time is not negative. */
  function CheckFirstFoulSecondHalf(table: seq<FirstFoul.FoulRow>): (r: CheckResult)
    ensures r.passed <==> table == [] || table[0].timestampSeconds >= 0.0
    ensures r.severity == Error <==> !r.passed
  {
    if table == [] then CheckResult(true, Warn)
    else
      var foulTime := table[0].timestampSeconds;
      Outcome(foulTime >= 0.0)
  }

  /** The table `get_first_foul_in_second_half` builds always passes its check, because the
      timestamp parser, on fields of unsigned digits, never returns a negative time. */
  lemma FirstFoulCheckPasses(events: seq<Json>)
    ensures CheckFirstFoulSecondHalf(FirstFoul.FoulTable(events)) == CheckResult(true, Warn)
  {
    if FirstFoul.FirstFoul(events).Some? {
      FirstFoul.FirstFoulFrom(events);
      var k :| 0 <= k < |events| && FirstFoul.IsSecondHalfFoul(events[k]) && FirstFoul.NoFoulBefore(events, k)
               && FirstFoul.FirstFoul(events) == Some(FirstFoul.FoulOf(events[k]));
      FirstFoul.FoulRowFacts(events[k]);
    }
  }
}
