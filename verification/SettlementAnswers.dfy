/**
 * What the battle server's messages do: which event batches, results and callbacks are accepted, the
 * mutual flight, the reported damage and winner, the replays on file and the mark on a felled world boss.
 */
module SettlementAnswers {
  import opened Text
  import opened Settlement
  import opened SettlementRuns
  import opened SettlementLaws
  import opened SettlementSteps

  // ----- event batches -----

  /** Which rows a batch may hold, kind by kind. */
  lemma RowRules(m: Match, cards: set<string>, row: Row)
    ensures row.kind in {"hit", "graze"} ==>
              (RowOK(m, cards, row) <==> 0 <= row.tick <= m.tick + 64 && row.user in m.players && row.value >= 0
                                         && |row.reason| <= 128)
    ensures row.kind in {"card_accepted", "card_effect_applied", "card_rejected"} ==>
              (RowOK(m, cards, row) <==> 0 <= row.tick <= m.tick + 64 && row.user in m.players && row.value >= 0
                                         && |row.reason| <= 128 && TrimSpace(row.card) in cards - {""})
    ensures row.kind == "boss_defeated" ==>
              (RowOK(m, cards, row) <==> 0 <= row.tick <= m.tick + 64 && row.user in m.players
                                         && |row.reason| <= 128 && TrimSpace(row.reason) != "")
    ensures row.kind == "all_players_disconnected" ==>
              (RowOK(m, cards, row) <==> 0 <= row.tick && |row.reason| <= 128)
    ensures RowOK(m, cards, row) ==>
              row.kind in {"hit", "graze", "card_accepted", "card_effect_applied", "card_rejected", "boss_defeated",
                           "all_players_disconnected"}
  {
  }

  /** A batch the match's own server may submit: in the running match, within its rate, up to 64 good rows. */
  predicate Submittable(s: State, id: string, server: string, cards: set<string>, rows: seq<Row>, within: bool) {
    && id in s.matches && s.matches[id].status.Running? && server == s.matches[id].server && within
    && 1 <= |rows| <= 64 && forall i :: 0 <= i < |rows| ==> RowOK(s.matches[id], cards, rows[i])
  }

  /** The battle reports everybody gone while some seat was dropped without having abandoned the match. */
  predicate GivenUp(m: Match, rows: seq<Row>) {
    && (exists i :: 0 <= i < |rows| && rows[i].kind == "all_players_disconnected")
    && (exists u :: u in m.ids && u in m.players && !m.players[u].connected && !m.players[u].abandoned)
  }

  lemma GivenUpIff(m: Match, rows: seq<Row>)
    ensures GivenUp(m, rows) <==> AllGone(rows) && UnresolvedDrop(m)
  {
    if u :| u in m.ids && u in m.players && !m.players[u].connected && !m.players[u].abandoned {
      var i :| 0 <= i < |m.ids| && m.ids[i] == u;
    }
  }

  /** A batch is taken whole or not at all, and ends the match as a flight exactly if it gives it up. */
  lemma BatchAnswered(names: Names, s: State, id: string, server: string, cards: set<string>, rows: seq<Row>,
                      within: bool, now: int, stored: bool)
    ensures var (error, s') := SubmitEvents(names, s, id, server, cards, rows, within, now, stored);
            var taken := Submittable(s, id, server, cards, rows, within);
            && (!taken ==> error.Some? && s' == s)
            && (taken ==>
                  && id in s'.matches && s'.matches[id].rows == s.matches[id].rows + rows && s'.wallets == s.wallets
                  && (error.None? <==> stored || !GivenUp(s.matches[id], rows))
                  && s'.log == s.log + (if GivenUp(s.matches[id], rows) then [Fled(id, stored)] else [])
                  && (s'.matches[id].status.Ended? <==> GivenUp(s.matches[id], rows)))
  {
    if Submittable(s, id, server, cards, rows, within) {
      var m := s.matches[id].(rows := s.matches[id].rows + rows);
      GivenUpIff(s.matches[id], rows);
      BatchFlees(names, s.(matches := s.matches[id := m]), id, now, stored);
    }
  }

  lemma BatchFlees(names: Names, s: State, id: string, now: int, stored: bool)
    requires id in s.matches && s.matches[id].status.Running?
    ensures var s' := FleeWith(names, s, id, "", true, now, stored);
            && id in s'.matches && s'.matches[id].status.Ended? && s'.matches[id].rows == s.matches[id].rows
            && s'.wallets == s.wallets && s'.log == s.log + [Fled(id, stored)]
  {
    if stored {
      var at := s.matches[id].endedAt;
      var m := Marked(s, id, at).matches[id];
      FleeShape(names, s, id, "", true, now);
      PreparedFrame(s, id, ByFlight("", true), at, now);
      FlightPaysNothing(names, Prepared(s, id, ByFlight("", true), at, now), id, m, ByFlight("", true), |m.ids|);
    }
  }

  /** Then every seat has fled, and none is rewarded. */
  lemma MutualFlight(names: Names, s: State, id: string, server: string, cards: set<string>, rows: seq<Row>,
                     within: bool, now: int, user: string)
    requires AllManned(s) && Submittable(s, id, server, cards, rows, within) && GivenUp(s.matches[id], rows)
    requires user in s.matches[id].ids
    ensures var s' := SubmitEvents(names, s, id, server, cards, rows, within, now, true).1;
            && (id, user) in s'.records && s'.records[(id, user)].verdict == Flee
            && s'.records[(id, user)].rewards == []
  {
    var appended := s.(matches := s.matches[id := s.matches[id].(rows := s.matches[id].rows + rows)]);
    GivenUpIff(s.matches[id], rows);
    assert Manned(s, s.matches[id]) && Manned(appended, appended.matches[id]);
    FlightFiles(names, appended, id, now, user);
  }

  lemma FlightFiles(names: Names, s: State, id: string, now: int, user: string)
    requires id in s.matches && s.matches[id].status.Running? && Manned(s, s.matches[id])
    requires user in s.matches[id].ids
    ensures var s' := FleeWith(names, s, id, "", true, now, true);
            && (id, user) in s'.records && s'.records[(id, user)].verdict == Flee
            && s'.records[(id, user)].rewards == []
  {
    var at := s.matches[id].endedAt;
    var m := Marked(s, id, at).matches[id];
    var d := ByFlight("", true);
    FleeShape(names, s, id, "", true, now);
    PreparedFrame(s, id, d, at, now);
    SeatsFile(names, Prepared(s, id, d, at, now), id, m, d, |m.ids|);
    var i :| 0 <= i < |m.ids| && m.ids[i] == user;
  }

  // ----- results and callbacks -----

  /** The players of a message are the roster of the match: the same trimmed ids, each as often, none blank. */
  predicate SameRoster(m: Match, players: seq<string>) {
    var told := seq(|players|, i requires 0 <= i < |players| => TrimSpace(players[i]));
    var roster := seq(|m.seats|, i requires 0 <= i < |m.seats| => TrimSpace(m.seats[i].player));
    "" !in told && "" !in roster && multiset(told) == multiset(roster)
  }

  lemma SameRosterIff(m: Match, players: seq<string>)
    ensures SameStrings(players, PlayerIDs(m.seats)) <==> SameRoster(m, players)
  {
    assert Trimmed(players) == seq(|players|, i requires 0 <= i < |players| => TrimSpace(players[i]));
    assert Trimmed(PlayerIDs(m.seats)) == seq(|m.seats|, i requires 0 <= i < |m.seats| => TrimSpace(m.seats[i].player));
  }

  /** A signed result is the match's own: its mode, its server, its roster. */
  predicate Genuine(m: Match, r: Result) {
    r.mode == m.mode && r.sound && r.server == m.server && SameRoster(m, r.players)
  }

  /** A genuine result settles a running match, repeats the one that ended it, and is refused otherwise. */
  lemma ResultAnswered(names: Names, s: State, r: Result, now: int, stored: bool)
    ensures var (reply, s') := SubmitResult(names, s, r, now, stored);
            var genuine := r.id in s.matches && Genuine(s.matches[r.id], r);
            && (reply == Accepted <==> genuine && s.matches[r.id].status.Running? && stored)
            && (reply == Duplicate <==>
                  genuine && s.matches[r.id].status.Ended? && s.matches[r.id].hash == r.hash != "")
            && (!(genuine && s.matches[r.id].status.Running?) ==> s' == s)
  {
    if r.id in s.matches {
      SameRosterIff(s.matches[r.id], r.players);
      if s.matches[r.id].status.Running? {
        var sealed := s.(matches := s.matches[r.id := s.matches[r.id].(hash := r.hash)]);
        SettleElsewhere(names, sealed, r.id, ByScore, SignedResult, now, stored);
      }
    }
  }

  /** A callback that fits its match: mode, hash, roster, and a winner of the roster or none. */
  predicate Fitting(m: Match, c: Callback) {
    && TrimSpace(c.mode) == m.mode != "" && c.sound && TrimSpace(c.hash) != ""
    && SameRoster(m, seq(|c.entries|, i requires 0 <= i < |c.entries| => c.entries[i].player))
    && (TrimSpace(c.winner) != "" ==>
          exists i :: 0 <= i < |m.seats| && m.seats[i].player == TrimSpace(c.winner))
  }

  lemma FittingIff(m: Match, c: Callback)
    ensures CallbackError(m, c).None? <==> Fitting(m, c)
  {
    assert EntryPlayers(c.entries) == seq(|c.entries|, i requires 0 <= i < |c.entries| => c.entries[i].player);
    SameRosterIff(m, EntryPlayers(c.entries));
    var winner := TrimSpace(c.winner);
    if winner in PlayerIDs(m.seats) {
      var i :| 0 <= i < |m.seats| && PlayerIDs(m.seats)[i] == winner;
      assert m.seats[i].player == winner;
    }
    if i :| 0 <= i < |m.seats| && m.seats[i].player == winner {
      assert PlayerIDs(m.seats)[i] == winner;
    }
  }

  lemma CallbackAnswered(names: Names, s: State, c: Callback, now: int, stored: bool)
    ensures var (reply, s') := ApplyCallback(names, s, c, now, stored);
            var id := TrimSpace(c.id);
            var fitting := id != "" && id in s.matches && Fitting(s.matches[id], c);
            && (reply == Accepted <==> fitting && s.matches[id].status.Running? && stored)
            && (reply == Duplicate <==>
                  fitting && s.matches[id].status.Ended? && s.matches[id].hash == TrimSpace(c.hash))
            && (!(fitting && s.matches[id].status.Running?) ==> s' == s)
  {
    var id := TrimSpace(c.id);
    if id in s.matches {
      FittingIff(s.matches[id], c);
    }
  }

  /** The last seat with this roster id belongs to the user. */
  predicate Behind(seats: seq<Seat>, player: string, user: string) {
    exists i :: 0 <= i < |seats| && seats[i] == Seat(user, player)
                && forall j :: i < j < |seats| ==> seats[j].player != player
  }

  lemma {:induction false} UserOfIsBehind(seats: seq<Seat>, player: string, user: string)
    ensures UserOf(seats, player) == Some(user) <==> Behind(seats, player, user)
  {
    if seats != [] {
      var n := |seats| - 1;
      if seats[n].player != player {
        UserOfIsBehind(seats[..n], player, user);
        if Behind(seats[..n], player, user) {
          var i :| 0 <= i < n && seats[..n][i] == Seat(user, player)
                   && forall j :: i < j < n ==> seats[..n][j].player != player;
          assert seats[i] == Seat(user, player) && forall j :: i < j < n ==> seats[j].player == seats[..n][j].player;
        }
        if Behind(seats, player, user) {
          var i :| 0 <= i < |seats| && seats[i] == Seat(user, player)
                   && forall j :: i < j < |seats| ==> seats[j].player != player;
          assert seats[..n][i] == Seat(user, player);
        }
      } else {
        assert seats[n] == Seat(seats[n].user, player);
      }
    }
  }

  /** The winner of a callback that fits is the user behind the roster id it names. */
  lemma WinnerIsBehind(m: Match, c: Callback)
    requires Fitting(m, c) && TrimSpace(c.winner) != ""
    ensures Behind(m.seats, TrimSpace(c.winner), WinnerOf(m, c))
  {
    FittingIff(m, c);
    UserIsSeated(m.seats, TrimSpace(c.winner));
    UserOfIsBehind(m.seats, TrimSpace(c.winner), WinnerOf(m, c));
  }

  /** The entry reports positive damage of this user. */
  predicate Reports(seats: seq<Seat>, entry: Entry, user: string) {
    entry.damage > 0 && Behind(seats, TrimSpace(entry.player), user)
  }

  /** A callback overwrites a player's damage by the last positive report of it, and nothing else of a player. */
  lemma {:induction false} ReportedDamage(players: map<string, Player>, seats: seq<Seat>, entries: seq<Entry>,
                                          user: string)
    requires user in players
    ensures var p' := Overwrite(players, seats, entries)[user];
            && p' == players[user].(damage := p'.damage)
            && ((forall k :: 0 <= k < |entries| ==> !Reports(seats, entries[k], user)) ==>
                  p'.damage == players[user].damage)
            && (forall k :: 0 <= k < |entries| && Reports(seats, entries[k], user)
                            && (forall j :: k < j < |entries| ==> !Reports(seats, entries[j], user)) ==>
                  p'.damage == entries[k].damage)
  {
    if entries != [] {
      var front, last := entries[..|entries| - 1], entries[|entries| - 1];
      ReportedDamage(players, seats, front, user);
      LastReport(players, seats, entries, user);
      forall k | 0 <= k < |entries| && Reports(seats, entries[k], user)
                 && (forall j :: k < j < |entries| ==> !Reports(seats, entries[j], user))
        ensures Overwrite(players, seats, entries)[user].damage == entries[k].damage
      {
        if k < |front| {
          assert front[k] == entries[k] && forall j :: k < j < |front| ==> front[j] == entries[j];
          assert !Reports(seats, last, user);
        }
      }
    }
  }

  /** The last entry counts for the user it reports, and for no other. */
  lemma LastReport(players: map<string, Player>, seats: seq<Seat>, entries: seq<Entry>, user: string)
    requires user in players && entries != []
    ensures var (last, before) := (entries[|entries| - 1], Overwrite(players, seats, entries[..|entries| - 1])[user]);
            Overwrite(players, seats, entries)[user] ==
              if Reports(seats, last, user) then before.(damage := last.damage) else before
  {
    UserOfIsBehind(seats, TrimSpace(entries[|entries| - 1].player), user);
  }

  /** An accepted callback seals the match: those damages, and its hash. */
  lemma CallbackSeals(names: Names, s: State, c: Callback, now: int, stored: bool)
    requires var id := TrimSpace(c.id);
             id != "" && id in s.matches && s.matches[id].status.Running? && Fitting(s.matches[id], c)
    ensures var (id, s') := (TrimSpace(c.id), ApplyCallback(names, s, c, now, stored).1);
            && id in s'.matches && s'.matches[id].hash == TrimSpace(c.hash) && s'.matches[id].endedAt == now
            && s'.matches[id].status.Ended?
            && s'.matches[id].players == Overwrite(s.matches[id].players, s.matches[id].seats, c.entries)
  {
    var id := TrimSpace(c.id);
    var sealed := s.(matches := s.matches[id := Sealed(s.matches[id], c)]);
    FittingIff(s.matches[id], c);
    SettleElsewhere(names, sealed, id, ByWinner(WinnerOf(s.matches[id], c)), ResultCallback, now, stored);
  }
}
