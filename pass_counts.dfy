/** `total_passes_per_player`: counts the "Pass" events of each player (keyed by the
    passer's id, with the name and team of the player's first pass), adds every lineup
    player who made no pass with a count of zero, and returns one row per player ordered by
    the count, largest first. */
module PassCounts {
  import opened Wrappers
  import opened Json
  import opened Seqs
  import opened OrderedDict
  import opened Sorting

  /** The value stored per player id: `{"player_name", "team_name", "total_passes"}`. */
  datatype PassEntry = PassEntry(playerName: Json, teamName: Json, totalPasses: nat)

  /** One row of the output table. */
  datatype PassRow = PassRow(playerId: Json, playerName: Json, teamName: Json, totalPasses: nat)

  /** `event.get("type", {}).get("name", "") == "Pass"`. */
  predicate IsPass(e: Json) {
    SubField(e, "type", "name", JStr("")) == JStr("Pass")
  }

  /** `event.get("player", {}).get("id")`: None when the passer is unknown. */
  function Passer(e: Json): Json {
    SubField(e, "player", "id", JNull)
  }

  /** A pass with a known passer: the events that are counted. */
  predicate Counted(e: Json) {
    IsPass(e) && Passer(e) != JNull
  }

  /** What the events loop needs not to raise: a dict whose `type` is a dict, and for a pass
      a `player` and a `team` that are dicts and a passer id that can be a dict key. */
  predicate PassEventReadable(e: Json) {
    && DictField(e, "type")
    && (IsPass(e) ==>
          DictOrAbsent(e.fields, "player") && DictOrAbsent(e.fields, "team") && Hashable(Passer(e)))
  }

  /** The number of counted passes made by `k`. */
  function PassCount(events: seq<Json>, k: Json): nat
    decreases |events|
  {
    if events == [] then 0
    else
      var e := events[|events| - 1];
      PassCount(events[..|events| - 1], k) + (if Counted(e) && Passer(e) == k then 1 else 0)
  }

  /** The number of counted passes. */
  function CountedPasses(events: seq<Json>): nat
    decreases |events|
  {
    if events == [] then 0
    else CountedPasses(events[..|events| - 1]) + (if Counted(events[|events| - 1]) then 1 else 0)
  }

  /** The entry a passer seen for the first time starts from. */
  function NewEntry(e: Json): PassEntry {
    PassEntry(SubField(e, "player", "name", JStr("Unknown")), SubField(e, "team", "name", JStr("Unknown")), 0)
  }

  /** The passer's entry before this pass is counted. */
  function CurrentEntry(d: seq<(Json, PassEntry)>, e: Json): PassEntry {
    match Lookup(d, Passer(e))
    case Some(en) => en
    case None => NewEntry(e)
  }

  /** One counted pass: the passer's entry, created from this event's player name and team
      name when the passer is new, gets one more pass. */
  function Record(d: seq<(Json, PassEntry)>, e: Json): (r: seq<(Json, PassEntry)>)
    ensures Lookup(r, Passer(e)).Some?
    ensures Lookup(r, Passer(e)).value.totalPasses == CurrentEntry(d, e).totalPasses + 1
    ensures Lookup(r, Passer(e)).value.playerName == CurrentEntry(d, e).playerName
    ensures Lookup(r, Passer(e)).value.teamName == CurrentEntry(d, e).teamName
  {
    var entry := CurrentEntry(d, e);
    PutLookup<Json, PassEntry>(d, Passer(e), entry.(totalPasses := entry.totalPasses + 1));
    Put<Json, PassEntry>(d, Passer(e), entry.(totalPasses := entry.totalPasses + 1))
  }

  /** Counting a pass leaves every other player's entry alone. */
  lemma RecordOther(d: seq<(Json, PassEntry)>, e: Json, k: Json)
    requires k != Passer(e)
    ensures Lookup(Record(d, e), k) == Lookup(d, k)
  {
    var entry := CurrentEntry(d, e);
    PutOther<Json, PassEntry>(d, Passer(e), entry.(totalPasses := entry.totalPasses + 1), k);
  }

  /** `player_passes` after the events loop. */
  function PassTally(events: seq<Json>): seq<(Json, PassEntry)>
    decreases |events|
  {
    if events == [] then []
    else
      var d := PassTally(events[..|events| - 1]);
      var e := events[|events| - 1];
      if Counted(e) then Record(d, e) else d
  }

  /** `if player_id not in player_passes: player_passes[player_id] = entry`. */
  function AddAbsent(d: seq<(Json, PassEntry)>, k: Json, entry: PassEntry): seq<(Json, PassEntry)> {
    if k in Keys(d) then d else d + [(k, entry)]
  }

  /** `player.get("player_id")` of a lineup player. */
  function LineupId(p: Json): Json {
    Field(p, "player_id", JNull)
  }

  lemma AddAbsentKeys(d: seq<(Json, PassEntry)>, k: Json, entry: PassEntry)
    ensures Keys(AddAbsent(d, k, entry)) == if k in Keys(d) then Keys(d) else Keys(d) + [k]
  {
    if k !in Keys(d) {
      KeysSnoc(d, (k, entry));
    }
  }

  /** One team of the lineup loop: every player id not yet present gets a zero entry with
      the player's name and the team's name. */
  function PadPlayers(d: seq<(Json, PassEntry)>, players: seq<Json>, teamName: Json)
    : seq<(Json, PassEntry)>
    decreases |players|
  {
    if players == [] then d
    else
      var p := players[|players| - 1];
      AddAbsent(PadPlayers(d, players[..|players| - 1], teamName), LineupId(p),
                PassEntry(Field(p, "player_name", JStr("Unknown")), teamName, 0))
  }

  /** `player_passes` after the lineup loop. */
  function PadTeams(d: seq<(Json, PassEntry)>, teams: seq<Json>): seq<(Json, PassEntry)>
    decreases |teams|
  {
    if teams == [] then d
    else
      var t := teams[|teams| - 1];
      PadPlayers(PadTeams(d, teams[..|teams| - 1]), ListField(t, "lineup"),
                 Field(t, "team_name", JStr("Unknown")))
  }

  /** What the lineup loop needs not to raise: a dict whose players can be read with
      `.get` and whose player ids can be dict keys. */
  predicate PadPlayerReadable(p: Json) {
    p.JObj? && Hashable(LineupId(p))
  }

  predicate PadTeamReadable(t: Json) {
    && t.JObj? && ListOrAbsent(t.fields, "lineup")
    && forall j :: 0 <= j < |ListField(t, "lineup")| ==> PadPlayerReadable(ListField(t, "lineup")[j])
  }

  /** `passing_data`: the entries as rows, in the dict's order. */
  function Rows(d: seq<(Json, PassEntry)>): seq<PassRow> {
    seq(|d|, i requires 0 <= i < |d| =>
      PassRow(d[i].0, d[i].1.playerName, d[i].1.teamName, d[i].1.totalPasses))
  }

  /** The sort key of `sort_values("total_passes", ascending=False)`. */
  function MostPassesFirst(r: PassRow): real {
    -(r.totalPasses as real)
  }

  /** The table `total_passes_per_player` returns. */
  function PassTable(events: seq<Json>, lineup: seq<Json>): seq<PassRow> {
    SortBy(Rows(PadTeams(PassTally(events), lineup)), MostPassesFirst)
  }

  // ---------------------------------------------------------------------------------------
  // The loops

  /** The body of the events loop of `total_passes_per_player`, for one event. */
  method CountPass(playerPasses: seq<(Json, PassEntry)>, event: Json)
    returns (updated: seq<(Json, PassEntry)>)
    requires PassEventReadable(event)
    ensures updated == if Counted(event) then Record(playerPasses, event) else playerPasses
  {
    updated := playerPasses;
    var eventType := SubField(event, "type", "name", JStr(""));
    if eventType == JStr("Pass") {
      var playerId := SubField(event, "player", "id", JNull);
      var playerName := SubField(event, "player", "name", JStr("Unknown"));
      var teamName := SubField(event, "team", "name", JStr("Unknown"));
      if playerId != JNull {
        LookupIffKey(playerPasses, playerId);
        if playerId !in Keys(updated) {
          var initial := PassEntry(playerName, teamName, 0);
          updated := Put(updated, playerId, initial);
          PutLookup(playerPasses, playerId, initial);
          PutPut(playerPasses, playerId, initial, initial.(totalPasses := 1));
          assert Lookup(playerPasses, playerId) == None;
        } else {
          assert Lookup(playerPasses, playerId).Some?;
        }
        var entry := Lookup(updated, playerId).value;
        updated := Put(updated, playerId, entry.(totalPasses := entry.totalPasses + 1));
      }
    }
  }

  /** The events loop of `total_passes_per_player`. */
  method CountPasses(validatedEvents: seq<Json>) returns (playerPasses: seq<(Json, PassEntry)>)
    requires forall i :: 0 <= i < |validatedEvents| ==> PassEventReadable(validatedEvents[i])
    ensures playerPasses == PassTally(validatedEvents)
  {
    playerPasses := [];
    for i := 0 to |validatedEvents|
      invariant playerPasses == PassTally(validatedEvents[..i])
    {
      playerPasses := CountPass(playerPasses, validatedEvents[i]);
      assert validatedEvents[..i + 1][..i] == validatedEvents[..i];
    }
    assert validatedEvents[..|validatedEvents|] == validatedEvents;
  }

  /** The players loop of `total_passes_per_player` for one team of the lineup. */
  method AddTeamPlayers(playerPasses: seq<(Json, PassEntry)>, players: seq<Json>, teamName: Json)
    returns (updated: seq<(Json, PassEntry)>)
    requires forall j :: 0 <= j < |players| ==> PadPlayerReadable(players[j])
    ensures updated == PadPlayers(playerPasses, players, teamName)
  {
    updated := playerPasses;
    for j := 0 to |players|
      invariant updated == PadPlayers(playerPasses, players[..j], teamName)
    {
      var player := players[j];
      var playerId := Field(player, "player_id", JNull);
      var playerName := Field(player, "player_name", JStr("Unknown"));
      if playerId !in Keys(updated) {
        PutAppendsNew(updated, playerId, PassEntry(playerName, teamName, 0));
        updated := Put(updated, playerId, PassEntry(playerName, teamName, 0));
      }
      assert players[..j + 1][..j] == players[..j];
    }
    assert players[..|players|] == players;
  }

  /** The lineup loop of `total_passes_per_player`. */
  method AddLineupPlayers(playerPasses: seq<(Json, PassEntry)>, validatedLineup: seq<Json>)
    returns (updated: seq<(Json, PassEntry)>)
    requires forall t :: 0 <= t < |validatedLineup| ==> PadTeamReadable(validatedLineup[t])
    ensures updated == PadTeams(playerPasses, validatedLineup)
  {
    updated := playerPasses;
    for t := 0 to |validatedLineup|
      invariant updated == PadTeams(playerPasses, validatedLineup[..t])
    {
      var teamData := validatedLineup[t];
      assert PadTeamReadable(teamData);
      var teamName := Get(teamData.fields, "team_name", JStr("Unknown"));
      updated := AddTeamPlayers(updated, ListField(teamData, "lineup"), teamName);
      assert validatedLineup[..t + 1][..t] == validatedLineup[..t];
    }
    assert validatedLineup[..|validatedLineup|] == validatedLineup;
  }

  const TotalPassesKeyError := "KeyError: 'total_passes'"

  /** What `total_passes_per_player` gives: its table, or the KeyError that
      `sort_values("total_passes")` raises when `passing_data` is empty (a DataFrame built
      from an empty list has no columns). It fails exactly when no player made a counted pass
      and the lineup lists no player. */
  function PassesAsset(events: seq<Json>, lineup: seq<Json>): (r: Result<seq<PassRow>>)
    ensures r.Failure? <==> (forall k :: PassCount(events, k) == 0) && (forall k :: !InLineup(lineup, k))
    ensures r.Success? ==> r.value == PassTable(events, lineup)
  {
    PassTableEmpty(events, lineup);
    if PassTable(events, lineup) == [] then Failure(TotalPassesKeyError) else Success(PassTable(events, lineup))
  }

  /** `total_passes_per_player`, without the metadata. */
  method TotalPassesPerPlayer(validatedEvents: seq<Json>, validatedLineup: seq<Json>)
    returns (result: Result<seq<PassRow>>)
    requires forall i :: 0 <= i < |validatedEvents| ==> PassEventReadable(validatedEvents[i])
    requires forall t :: 0 <= t < |validatedLineup| ==> PadTeamReadable(validatedLineup[t])
    ensures result == PassesAsset(validatedEvents, validatedLineup)
  {
    var playerPasses := CountPasses(validatedEvents);
    playerPasses := AddLineupPlayers(playerPasses, validatedLineup);
    var passingData: seq<PassRow> := [];
    for i := 0 to |playerPasses|
      invariant passingData == Rows(playerPasses)[..i]
    {
      var (playerId, data) := playerPasses[i];
      passingData := passingData + [PassRow(playerId, data.playerName, data.teamName, data.totalPasses)];
      assert Rows(playerPasses)[..i + 1] == Rows(playerPasses)[..i] + [Rows(playerPasses)[i]];
    }
    assert Rows(playerPasses)[..|playerPasses|] == Rows(playerPasses);
    if |passingData| == 0 {
      return Failure(TotalPassesKeyError);
    }
    result := Success(SortBy(passingData, MostPassesFirst));
  }

  // ---------------------------------------------------------------------------------------
  // Properties

  /** A player has an entry after the events loop exactly when they made a counted pass,
      and the entry holds the number of their counted passes. */
  lemma {:induction false} PassTallyCounts(events: seq<Json>, k: Json)
    ensures Lookup(PassTally(events), k).Some? <==> PassCount(events, k) > 0
    ensures Lookup(PassTally(events), k).Some? ==>
              Lookup(PassTally(events), k).value.totalPasses == PassCount(events, k)
    decreases |events|
  {
    if events != [] {
      var n := |events| - 1;
      var d := PassTally(events[..n]);
      var e := events[n];
      PassTallyCounts(events[..n], k);
      if Counted(e) && Passer(e) != k {
        RecordOther(d, e, k);
      }
    }
  }

  /** Event `i` is `k`'s first counted pass. */
  predicate IsFirstPass(events: seq<Json>, k: Json, i: int) {
    0 <= i < |events| && Counted(events[i]) && Passer(events[i]) == k && PassCount(events[..i], k) == 0
  }

  /** One more event keeps the names of an existing entry, and a new entry takes the names
      of the pass that created it. */
  lemma PassTallyNamesStep(events: seq<Json>, k: Json)
    requires events != []
    ensures var d := PassTally(events[..|events| - 1]);
            var r := PassTally(events);
            && (Lookup(d, k).Some? ==>
                  && Lookup(r, k).Some?
                  && Lookup(r, k).value.playerName == Lookup(d, k).value.playerName
                  && Lookup(r, k).value.teamName == Lookup(d, k).value.teamName)
            && (Lookup(d, k).None? && Lookup(r, k).Some? ==>
                  && Counted(events[|events| - 1]) && Passer(events[|events| - 1]) == k
                  && Lookup(r, k).value.playerName == NewEntry(events[|events| - 1]).playerName
                  && Lookup(r, k).value.teamName == NewEntry(events[|events| - 1]).teamName)
  {
    var e := events[|events| - 1];
    if Counted(e) && Passer(e) != k {
      RecordOther(PassTally(events[..|events| - 1]), e, k);
    }
  }

  /** An entry's player name and team name are those of the player's first counted pass. */
  lemma {:induction false} PassTallyFirst(events: seq<Json>, k: Json)
    ensures Lookup(PassTally(events), k).Some? ==>
              exists i :: IsFirstPass(events, k, i)
                          && Lookup(PassTally(events), k).value.playerName == NewEntry(events[i]).playerName
                          && Lookup(PassTally(events), k).value.teamName == NewEntry(events[i]).teamName
    decreases |events|
  {
    if events != [] {
      var n := |events| - 1;
      var init := events[..n];
      var d := PassTally(init);
      var e := events[n];
      PassTallyFirst(init, k);
      PassTallyNamesStep(events, k);
      if Lookup(d, k).Some? {
        var i :| IsFirstPass(init, k, i)
                 && Lookup(d, k).value.playerName == NewEntry(init[i]).playerName
                 && Lookup(d, k).value.teamName == NewEntry(init[i]).teamName;
        assert events[i] == init[i] && events[..i] == init[..i];
        assert IsFirstPass(events, k, i);
      } else if Counted(e) && Passer(e) == k {
        PassTallyCounts(init, k);
        assert IsFirstPass(events, k, n);
      }
    }
  }

  /** Each player id is a key at most once. */
  lemma {:induction false} PassTallyDistinct(events: seq<Json>)
    ensures Distinct(Keys(PassTally(events)))
    decreases |events|
  {
    if events != [] {
      var n := |events| - 1;
      var d := PassTally(events[..n]);
      var e := events[n];
      PassTallyDistinct(events[..n]);
      if Counted(e) {
        var entry := CurrentEntry(d, e);
        PutKeepsDistinct(d, Passer(e), entry.(totalPasses := entry.totalPasses + 1));
      }
    }
  }

  /** The sum of the stored pass counts. */
  function EntryTotal(d: seq<(Json, PassEntry)>): nat
    decreases |d|
  {
    if d == [] then 0 else EntryTotal(d[..|d| - 1]) + d[|d| - 1].1.totalPasses
  }

  lemma {:induction false} EntryTotalAppend(d: seq<(Json, PassEntry)>, x: seq<(Json, PassEntry)>)
    ensures EntryTotal(d + x) == EntryTotal(d) + EntryTotal(x)
    decreases |x|
  {
    if x == [] {
      assert d + x == d;
    } else {
      var n := |x| - 1;
      assert (d + x)[..|d + x| - 1] == d + x[..n];
      EntryTotalAppend(d, x[..n]);
    }
  }

  /** Overwriting the value of a key changes the sum by the difference. */
  lemma {:induction false} EntryTotalPut(d: seq<(Json, PassEntry)>, k: Json, v: PassEntry)
    ensures EntryTotal(Put(d, k, v)) + (if Lookup(d, k).Some? then Lookup(d, k).value.totalPasses else 0)
            == EntryTotal(d) + v.totalPasses
    decreases |d|
  {
    if d != [] {
      var rest := d[1..];
      assert d == [d[0]] + rest;
      EntryTotalAppend([d[0]], rest);
      assert [d[0]][..0] == [];
      if d[0].0 == k {
        EntryTotalAppend([(k, v)], rest);
        assert [(k, v)][..0] == [];
      } else {
        EntryTotalPut(rest, k, v);
        EntryTotalAppend([d[0]], Put(rest, k, v));
      }
    }
  }

  /** Counting one pass adds one to the sum. */
  lemma RecordTotal(d: seq<(Json, PassEntry)>, e: Json)
    ensures EntryTotal(Record(d, e)) == EntryTotal(d) + 1
  {
    var k := Passer(e);
    match Lookup(d, k)
    case Some(en) =>
      assert Record(d, e) == Put(d, k, en.(totalPasses := en.totalPasses + 1));
      EntryTotalPut(d, k, en.(totalPasses := en.totalPasses + 1));
    case None =>
      var entry := NewEntry(e).(totalPasses := 1);
      assert Record(d, e) == Put(d, k, entry);
      EntryTotalPut(d, k, entry);
  }

  /** The counts add up to the number of counted passes. */
  lemma {:induction false} PassTallyTotal(events: seq<Json>)
    ensures EntryTotal(PassTally(events)) == CountedPasses(events)
    decreases |events|
  {
    if events != [] {
      var n := |events| - 1;
      var d := PassTally(events[..n]);
      var e := events[n];
      PassTallyTotal(events[..n]);
      if Counted(e) {
        RecordTotal(d, e);
      }
    }
  }

  /** The lineup loop for one team keeps the entries it finds and appends, for each player
      id not yet present, a zero entry with the team's name. */
  lemma {:induction false} PadPlayersPrefix(d: seq<(Json, PassEntry)>, players: seq<Json>, teamName: Json)
    ensures var r := PadPlayers(d, players, teamName);
            && |d| <= |r| && r[..|d|] == d
            && forall i :: |d| <= i < |r| ==>
                 r[i].1.totalPasses == 0 && r[i].1.teamName == teamName && r[i].0 !in Keys(d)
    decreases |players|
  {
    if players != [] {
      var init := players[..|players| - 1];
      var r' := PadPlayers(d, init, teamName);
      var id := LineupId(players[|players| - 1]);
      PadPlayersPrefix(d, init, teamName);
      if id !in Keys(r') {
        KeysOfPrefix(d, r');
        var r := PadPlayers(d, players, teamName);
        assert r[..|r'|] == r';
        assert r[..|d|] == r'[..|d|];
      }
    }
  }

  lemma {:induction false} PadPlayersHas(d: seq<(Json, PassEntry)>, players: seq<Json>, teamName: Json, j: nat)
    requires j < |players|
    ensures LineupId(players[j]) in Keys(PadPlayers(d, players, teamName))
    decreases |players|
  {
    var n := |players| - 1;
    var init := players[..n];
    var r' := PadPlayers(d, init, teamName);
    AddAbsentKeys(r', LineupId(players[n]), PassEntry(Field(players[n], "player_name", JStr("Unknown")), teamName, 0));
    if j < n {
      PadPlayersHas(d, init, teamName, j);
      assert init[j] == players[j];
    }
  }

  /** After the lineup loop for one team, every player of the team has an entry. */
  lemma PadPlayersCovers(d: seq<(Json, PassEntry)>, players: seq<Json>, teamName: Json)
    ensures forall p :: p in players ==> LineupId(p) in Keys(PadPlayers(d, players, teamName))
  {
    forall p | p in players ensures LineupId(p) in Keys(PadPlayers(d, players, teamName)) {
      var j :| 0 <= j < |players| && players[j] == p;
      PadPlayersHas(d, players, teamName, j);
    }
  }

  /** The lineup loop for one team adds each player id at most once. */
  lemma {:induction false} PadPlayersDistinct(d: seq<(Json, PassEntry)>, players: seq<Json>, teamName: Json)
    requires Distinct(Keys(d))
    ensures Distinct(Keys(PadPlayers(d, players, teamName)))
    decreases |players|
  {
    if players != [] {
      var n := |players| - 1;
      var r' := PadPlayers(d, players[..n], teamName);
      var id := LineupId(players[n]);
      PadPlayersDistinct(d, players[..n], teamName);
      if id !in Keys(r') {
        var p := (id, PassEntry(Field(players[n], "player_name", JStr("Unknown")), teamName, 0));
        KeysSnoc(r', p);
        DistinctSnoc(Keys(r'), id);
      }
    }
  }

  /** The lineup loop keeps the entries of the events loop and appends zero entries for
      player ids not yet present. */
  lemma {:induction false} PadTeamsPrefix(d: seq<(Json, PassEntry)>, teams: seq<Json>)
    ensures var r := PadTeams(d, teams);
            && |d| <= |r| && r[..|d|] == d
            && forall i :: |d| <= i < |r| ==> r[i].1.totalPasses == 0 && r[i].0 !in Keys(d)
    decreases |teams|
  {
    if teams != [] {
      var t := teams[|teams| - 1];
      var r' := PadTeams(d, teams[..|teams| - 1]);
      var r := PadTeams(d, teams);
      PadTeamsPrefix(d, teams[..|teams| - 1]);
      PadPlayersPrefix(r', ListField(t, "lineup"), Field(t, "team_name", JStr("Unknown")));
      KeysOfPrefix(d, r');
      assert r[..|d|] == r[..|r'|][..|d|];
      forall i | |d| <= i < |r| ensures r[i].1.totalPasses == 0 && r[i].0 !in Keys(d) {
        if i < |r'| {
          assert r[i] == r[..|r'|][i];
        }
      }
    }
  }

  /** After the lineup loop, every lineup player has an entry. */
  lemma {:induction false} PadTeamsCovers(d: seq<(Json, PassEntry)>, teams: seq<Json>)
    ensures forall t, p :: t in teams && p in ListField(t, "lineup") ==> LineupId(p) in Keys(PadTeams(d, teams))
    decreases |teams|
  {
    if teams != [] {
      var n := |teams| - 1;
      var init := teams[..n];
      var r' := PadTeams(d, init);
      var r := PadTeams(d, teams);
      var players, teamName := ListField(teams[n], "lineup"), Field(teams[n], "team_name", JStr("Unknown"));
      PadTeamsCovers(d, init);
      PadPlayersPrefix(r', players, teamName);
      KeysOfPrefix(r', r);
      PadPlayersCovers(r', players, teamName);
      assert teams == init + [teams[n]];
    }
  }

  /** The lineup loop adds each player id at most once. */
  lemma {:induction false} PadTeamsDistinct(d: seq<(Json, PassEntry)>, teams: seq<Json>)
    requires Distinct(Keys(d))
    ensures Distinct(Keys(PadTeams(d, teams)))
    decreases |teams|
  {
    if teams != [] {
      var t := teams[|teams| - 1];
      PadTeamsDistinct(d, teams[..|teams| - 1]);
      PadPlayersDistinct(PadTeams(d, teams[..|teams| - 1]), ListField(t, "lineup"), Field(t, "team_name", JStr("Unknown")));
    }
  }

  /** A lineup player with id `k` is listed in some team of the lineup. */
  predicate InLineup(lineup: seq<Json>, k: Json) {
    exists t, p :: t in lineup && p in ListField(t, "lineup") && LineupId(p) == k
  }

  /** The lineup loop for one team only adds ids of the team's players. */
  lemma {:induction false} PadPlayersOrigin(d: seq<(Json, PassEntry)>, players: seq<Json>, teamName: Json)
    ensures var r := PadPlayers(d, players, teamName);
            forall i :: |d| <= i < |r| ==> exists p :: p in players && LineupId(p) == r[i].0
    decreases |players|
  {
    if players != [] {
      var n := |players| - 1;
      var init := players[..n];
      var r' := PadPlayers(d, init, teamName);
      var r := PadPlayers(d, players, teamName);
      PadPlayersOrigin(d, init, teamName);
      PadPlayersPrefix(d, init, teamName);
      assert players == init + [players[n]];
      forall i | |d| <= i < |r| ensures exists p :: p in players && LineupId(p) == r[i].0 {
        if i < |r'| {
          assert r[i] == r'[i];
          var p :| p in init && LineupId(p) == r'[i].0;
          assert p in players;
        } else {
          assert r[i].0 == LineupId(players[n]);
        }
      }
    }
  }

  /** The lineup loop only adds ids of lineup players. */
  lemma {:induction false} PadTeamsOrigin(d: seq<(Json, PassEntry)>, teams: seq<Json>)
    ensures var r := PadTeams(d, teams);
            forall i :: |d| <= i < |r| ==> InLineup(teams, r[i].0)
    decreases |teams|
  {
    if teams != [] {
      var n := |teams| - 1;
      var init := teams[..n];
      var r' := PadTeams(d, init);
      var r := PadTeams(d, teams);
      var players, teamName := ListField(teams[n], "lineup"), Field(teams[n], "team_name", JStr("Unknown"));
      PadTeamsOrigin(d, init);
      PadTeamsPrefix(d, init);
      PadPlayersPrefix(r', players, teamName);
      PadPlayersOrigin(r', players, teamName);
      assert teams == init + [teams[n]];
      forall i | |d| <= i < |r| ensures InLineup(teams, r[i].0) {
        if i < |r'| {
          assert r[i] == r[..|r'|][i];
          var t, p :| t in init && p in ListField(t, "lineup") && LineupId(p) == r'[i].0;
          assert t in teams;
        } else {
          var p :| p in players && LineupId(p) == r[i].0;
          assert teams[n] in teams;
        }
      }
    }
  }

  /** `player_passes` after both loops. */
  function Padded(events: seq<Json>, lineup: seq<Json>): seq<(Json, PassEntry)> {
    PadTeams(PassTally(events), lineup)
  }

  /** The player ids of the rows, in order. */
  function Ids(rows: seq<PassRow>): seq<Json> {
    seq(|rows|, i requires 0 <= i < |rows| => rows[i].playerId)
  }

  lemma RowsIds(d: seq<(Json, PassEntry)>)
    ensures Ids(Rows(d)) == Keys(d)
  {
  }

  /** Reordering the rows keeps their set of ids, and keeps the ids distinct. */
  lemma PermutationIds(a: seq<PassRow>, b: seq<PassRow>)
    requires multiset(a) == multiset(b)
    ensures Elems(Ids(a)) == Elems(Ids(b))
    ensures Distinct(Ids(a)) ==> Distinct(Ids(b))
  {
    forall x | x in Elems(Ids(a)) ensures x in Elems(Ids(b)) {
      var i :| 0 <= i < |a| && Ids(a)[i] == x;
      assert a[i] in multiset(b);
      var j :| 0 <= j < |b| && b[j] == a[i];
      assert Ids(b)[j] == x;
    }
    forall x | x in Elems(Ids(b)) ensures x in Elems(Ids(a)) {
      var j :| 0 <= j < |b| && Ids(b)[j] == x;
      assert b[j] in multiset(a);
      var i :| 0 <= i < |a| && a[i] == b[j];
      assert Ids(a)[i] == x;
    }
    assert |a| == |multiset(a)| == |b|;
    DistinctIffSameCardinality(Ids(a));
    DistinctIffSameCardinality(Ids(b));
  }

  /** Every entry after both loops holds its player's number of counted passes. */
  lemma PaddedCount(events: seq<Json>, lineup: seq<Json>, i: nat)
    requires i < |Padded(events, lineup)|
    ensures Padded(events, lineup)[i].1.totalPasses == PassCount(events, Padded(events, lineup)[i].0)
  {
    var tally := PassTally(events);
    var padded := Padded(events, lineup);
    PadTeamsPrefix(tally, lineup);
    var k := padded[i].0;
    PassTallyCounts(events, k);
    if i < |tally| {
      assert padded[i] == tally[i];
      PassTallyDistinct(events);
      LookupAt(tally, i);
    } else {
      LookupIffKey(tally, k);
    }
  }

  /** Every entry after both loops belongs to a player who passed or who is in the lineup. */
  lemma PaddedOrigin(events: seq<Json>, lineup: seq<Json>, i: nat)
    requires i < |Padded(events, lineup)|
    ensures PassCount(events, Padded(events, lineup)[i].0) > 0 || InLineup(lineup, Padded(events, lineup)[i].0)
  {
    var tally := PassTally(events);
    var padded := Padded(events, lineup);
    PadTeamsPrefix(tally, lineup);
    PadTeamsOrigin(tally, lineup);
    if i < |tally| {
      var k := padded[i].0;
      assert padded[i] == tally[i];
      assert k in Keys(tally);
      LookupIffKey(tally, k);
      PassTallyCounts(events, k);
    }
  }

  /** Every passer has an entry after both loops. */
  lemma PaddedHasPassers(events: seq<Json>, lineup: seq<Json>, k: Json)
    requires PassCount(events, k) > 0
    ensures k in Keys(Padded(events, lineup))
  {
    var tally := PassTally(events);
    PassTallyCounts(events, k);
    LookupIffKey(tally, k);
    PadTeamsPrefix(tally, lineup);
    KeysOfPrefix(tally, Padded(events, lineup));
  }

  /** The table is ordered by the number of passes, largest first, and is a reordering of
      the dict's rows; its player ids are those of the dict and are distinct. */
  lemma PassTableOrder(events: seq<Json>, lineup: seq<Json>)
    ensures var table := PassTable(events, lineup);
            && (forall i, j :: 0 <= i < j < |table| ==> table[i].totalPasses >= table[j].totalPasses)
            && multiset(table) == multiset(Rows(Padded(events, lineup)))
            && Elems(Ids(table)) == Elems(Keys(Padded(events, lineup)))
            && Distinct(Ids(table))
  {
    var table := PassTable(events, lineup);
    var padded := Padded(events, lineup);
    forall i, j | 0 <= i < j < |table| ensures table[i].totalPasses >= table[j].totalPasses {
      assert MostPassesFirst(table[i]) <= MostPassesFirst(table[j]);
    }
    RowsIds(padded);
    PermutationIds(Rows(padded), table);
    PassTallyDistinct(events);
    PadTeamsDistinct(PassTally(events), lineup);
  }

  /** Each row holds its player's number of counted passes, and belongs to a player who
      passed or who is in the lineup. */
  lemma PassTableRows(events: seq<Json>, lineup: seq<Json>)
    ensures var table := PassTable(events, lineup);
            forall i :: 0 <= i < |table| ==>
              && table[i].totalPasses == PassCount(events, table[i].playerId)
              && (PassCount(events, table[i].playerId) > 0 || InLineup(lineup, table[i].playerId))
  {
    var table := PassTable(events, lineup);
    var rows := Rows(Padded(events, lineup));
    forall i | 0 <= i < |table|
      ensures table[i].totalPasses == PassCount(events, table[i].playerId)
      ensures PassCount(events, table[i].playerId) > 0 || InLineup(lineup, table[i].playerId)
    {
      assert table[i] in multiset(rows);
      var j :| 0 <= j < |rows| && rows[j] == table[i];
      PaddedCount(events, lineup, j);
      PaddedOrigin(events, lineup, j);
    }
  }

  /** Every player with a counted pass and every lineup player has a row. */
  lemma PassTableCovers(events: seq<Json>, lineup: seq<Json>)
    ensures var table := PassTable(events, lineup);
            && (forall k :: PassCount(events, k) > 0 ==> k in Ids(table))
            && (forall k :: InLineup(lineup, k) ==> k in Ids(table))
  {
    var table := PassTable(events, lineup);
    var padded := Padded(events, lineup);
    PassTableOrder(events, lineup);
    forall k | PassCount(events, k) > 0 ensures k in Ids(table) {
      PaddedHasPassers(events, lineup, k);
      assert k in Elems(Keys(padded));
    }
    PadTeamsCovers(PassTally(events), lineup);
    forall k | InLineup(lineup, k) ensures k in Ids(table) {
      var t, p :| t in lineup && p in ListField(t, "lineup") && LineupId(p) == k;
      assert k in Elems(Keys(padded));
    }
  }

  /** The table is empty exactly when no player made a counted pass and the lineup lists no
      player. */
  lemma PassTableEmpty(events: seq<Json>, lineup: seq<Json>)
    ensures PassTable(events, lineup) == [] <==>
              (forall k :: PassCount(events, k) == 0) && (forall k :: !InLineup(lineup, k))
  {
    PassTableRows(events, lineup);
    PassTableCovers(events, lineup);
    var table := PassTable(events, lineup);
    if table != [] {
      assert PassCount(events, table[0].playerId) > 0 || InLineup(lineup, table[0].playerId);
    }
  }

}
