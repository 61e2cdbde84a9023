/** Two analyses raise on an input the validation gates accept: an empty table. Each lemma
    pair below shows the failure of the code as written, and the property of the table the
    rest of the model works with, which hands the empty case on to the asset checks. */
module Findings {
  import opened Wrappers
  import opened Json
  import Validation
  import TimeOnPitch
  import PassCounts
  import AssetChecks

  /** An empty list of teams passes `validated_lineup`, and `player_time_on_pitch` then raises
      on it. */
  lemma EmptyLineupRaises()
    ensures Validation.LineupGateOf(JArr([])).LineupPassed?
    ensures TimeOnPitch.TimeOnPitchAsset([]).Failure?
  {
  }

  /** Empty lists of events and teams pass both gates, and `total_passes_per_player` then
      raises on them. */
  lemma NoPlayersRaises()
    ensures Validation.LineupGateOf(JArr([])).LineupPassed?
    ensures Validation.EventsGateOf(JArr([])).EventsPassed?
    ensures PassCounts.PassesAsset([], []).Failure?
  {
  }

  /** The time table is empty exactly when no team has a lineup entry, and then both time
      checks report the empty table as an error. */
  lemma EmptyTimeTableReported(teams: seq<Json>)
    ensures TimeOnPitch.TimeTable(teams) == [] <==> TimeOnPitch.LineupSize(teams) == 0
    ensures TimeOnPitch.LineupSize(teams) == 0 ==>
              && AssetChecks.CheckPlayerTimeOnPitch(TimeOnPitch.TimeTable(teams))
                 == AssetChecks.CheckResult(false, AssetChecks.Error)
              && AssetChecks.CheckAvgTimeOnPitch(TimeOnPitch.TimeTable(teams))
                 == AssetChecks.CheckResult(false, AssetChecks.Error)
  {
    TimeOnPitch.TimeTableLength(teams);
  }

  /** When no player made a counted pass and the lineup lists no player, the pass table is
      empty and the distribution check reports it as an error. */
  lemma EmptyPassTableReported(events: seq<Json>, lineup: seq<Json>)
    ensures (forall k :: PassCounts.PassCount(events, k) == 0) && (forall k :: !PassCounts.InLineup(lineup, k)) ==>
              && PassCounts.PassTable(events, lineup) == []
              && AssetChecks.CheckPassDistribution(PassCounts.PassTable(events, lineup))
                 == AssetChecks.CheckResult(false, AssetChecks.Error)
  {
    PassCounts.PassTableEmpty(events, lineup);
  }
}
