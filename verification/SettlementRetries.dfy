/**
 * A settle against the answer of the match store: it pays exactly if it was stored, and a retry
 * is answered alike either way. Short runs show that what is lost or paid late really happens.
 */
module SettlementRetries {
  import opened Text
  import opened Settlement
  import opened SettlementRuns
  import opened SettlementLaws
  import opened SettlementSteps

  // ----- paid exactly if stored -----

  lemma HistoryBefore(s: State, start: map<string, Wallet>, id: string)
    requires Sound(s, start) && id in s.matches && !s.matches[id].status.Ended?
    ensures History(s.log, id) == [] && NoneShown(s, id)
  {
    assert Told(s.matches[id], History(s.log, id)) && Filed(s, id, s.matches[id].ids, History(s.log, id));
  }

  /** The first settle of a match, by score or by a named winner. */
  lemma FirstSettlePays(names: Names, s: State, id: string, d: Decision, route: Route, now: int, stored: bool)
    requires id in s.matches && History(s.log, id) == [] && !d.ByFlight? && (d.ByWinner? <==> route == ResultCallback)
    ensures var s' := SettleWith(names, s, id, d, route, now, stored);
            && (WasScored(History(s'.log, id)) <==> stored)
            && (!stored ==> s'.wallets == s.wallets && s'.records == s.records)
  {
    SettleEnds(names, s, id, d, route, now, stored);
    var o := OutcomeOf(s, id, d, route, now, stored);
    HistoryGrows(s.log, o, id);
    assert [] + [o] == [o] && [o][0] == o;
  }

  /** A signed result that passes its checks pays exactly if it was stored; its retry is a duplicate either way. */
  lemma ResultPaysIffStored(names: Names, s: State, start: map<string, Wallet>, r: Result, now: int, stored: bool,
                            later: int, again: bool)
    requires Sound(s, start) && r.hash != "" && r.id in s.matches && s.matches[r.id].status.Running?
    requires SignedError(s.matches[r.id], r).None?
    ensures var (reply, after) := SubmitResult(names, s, r, now, stored);
            && reply == (if stored then Accepted else Rejected(StoreFailed))
            && (WasScored(History(after.log, r.id)) <==> stored) && (!stored ==> after.wallets == s.wallets)
            && SubmitResult(names, after, r, later, again) == (Duplicate, after)
  {
    var sealed := s.(matches := s.matches[r.id := s.matches[r.id].(hash := r.hash)]);
    HistoryBefore(s, start, r.id);
    FirstSettlePays(names, sealed, r.id, ByScore, SignedResult, now, stored);
    SettleElsewhere(names, sealed, r.id, ByScore, SignedResult, now, stored);
    SameChecks(s.matches[r.id], SubmitResult(names, s, r, now, stored).1.matches[r.id], r);
  }

  /** So does a callback, and its retry is a duplicate either way. */
  lemma CallbackPaysIffStored(names: Names, s: State, start: map<string, Wallet>, c: Callback, now: int, stored: bool,
                              later: int, again: bool)
    requires var id := TrimSpace(c.id);
             && Sound(s, start) && id != "" && id in s.matches && s.matches[id].status.Running?
             && CallbackError(s.matches[id], c).None?
    ensures var (reply, after) := ApplyCallback(names, s, c, now, stored);
            && reply == (if stored then Accepted else Rejected(StoreFailed))
            && (WasScored(History(after.log, TrimSpace(c.id))) <==> stored) && (!stored ==> after.wallets == s.wallets)
            && ApplyCallback(names, after, c, later, again) == (Duplicate, after)
  {
    var id := TrimSpace(c.id);
    var d := ByWinner(WinnerOf(s.matches[id], c));
    var sealed := s.(matches := s.matches[id := Sealed(s.matches[id], c)]);
    HistoryBefore(s, start, id);
    FirstSettlePays(names, sealed, id, d, ResultCallback, now, stored);
    SettleElsewhere(names, sealed, id, d, ResultCallback, now, stored);
    CallbackSettles(names, s, c, now, stored);
    SameCallbackChecks(s.matches[id], ApplyCallback(names, s, c, now, stored).1.matches[id], c);
  }

  lemma CallbackSettles(names: Names, s: State, c: Callback, now: int, stored: bool)
    requires var id := TrimSpace(c.id);
             id != "" && id in s.matches && s.matches[id].status.Running? && CallbackError(s.matches[id], c).None?
    ensures var id := TrimSpace(c.id);
            var sealed := s.(matches := s.matches[id := Sealed(s.matches[id], c)]);
            ApplyCallback(names, s, c, now, stored) ==
              (if stored then Accepted else Rejected(StoreFailed),
               SettleWith(names, sealed, id, ByWinner(WinnerOf(s.matches[id], c)), ResultCallback, now, stored))
  {
  }

  lemma SameCallbackChecks(m: Match, m': Match, c: Callback)
    requires m'.mode == m.mode && m'.seats == m.seats
    ensures CallbackError(m', c) == CallbackError(m, c)
  {
  }

  /** A player's own settle pays exactly if it was stored; its retry shows the settlement, or that there is none. */
  lemma ClientPaysIffStored(names: Names, s: State, start: map<string, Wallet>, id: string, user: string, now: int,
                            stored: bool, later: int, again: bool)
    requires Sound(s, start) && Seating(s) && Guard(s, id, user).None?
    ensures var (reply, after) := SettleMatch(names, s, id, user, now, stored);
            && (reply.Settled? <==> stored) && (!stored ==> reply == Refused(StoreFailed) && after.wallets == s.wallets)
            && (WasScored(History(after.log, id)) <==> stored)
            && SettleMatch(names, after, id, user, later, again) ==
                 (if stored then Settled(reply.record, true) else Refused(NoSettlement), after)
  {
    HistoryBefore(s, start, id);
    FirstSettlePays(names, s, id, ByScore, ClientSettle, now, stored);
    SettleElsewhere(names, s, id, ByScore, ClientSettle, now, stored);
    if stored {
      SettledShows(names, s, id, user, now);
    } else {
      assert (id, user) !in s.records;
    }
    ClientSettles(names, s, id, user, now, stored, later, again);
  }

  /** The client's settle and its retry, told from the settle alone. */
  lemma ClientSettles(names: Names, s: State, id: string, user: string, now: int, stored: bool, later: int, again: bool)
    requires Guard(s, id, user).None?
    requires var after := SettleWith(names, s, id, ByScore, ClientSettle, now, stored);
             && EndsOnly(s, after, id, now) && ((id, user) in after.records <==> stored)
    ensures var after := SettleWith(names, s, id, ByScore, ClientSettle, now, stored);
            && SettleMatch(names, s, id, user, now, stored) ==
                 (if stored then Settled(after.records[(id, user)], false) else Refused(StoreFailed), after)
            && SettleMatch(names, after, id, user, later, again) ==
                 (if stored then Settled(after.records[(id, user)], true) else Refused(NoSettlement), after)
  {
  }

  lemma SettledShows(names: Names, s: State, id: string, user: string, now: int)
    requires AllManned(s) && id in s.matches && user in s.matches[id].ids
    ensures (id, user) in SettleWith(names, s, id, ByScore, ClientSettle, now, true).records
  {
    var m := Marked(s, id, now).matches[id];
    var p := Prepared(s, id, ByScore, now, now);
    assert Manned(s, s.matches[id]);
    SettleShape(names, s, id, ByScore, ClientSettle, now);
    PreparedFrame(s, id, ByScore, now, now);
    SeatsFile(names, p, id, m, ByScore, |m.ids|);
    var i :| 0 <= i < |m.ids| && m.ids[i] == user;
    assert (id, m.ids[i]) in WriteSeats(names, p, id, m, ByScore, |m.ids|).records;
  }

  // ----- both happen -----

  const NAMES: Names := Names((id, user, seqNo, score) => "replay", (id, user) => "p" + user)

  /** Two users and an undamaged world boss. */
  const LOBBY: State :=
    State(map[], map["a" := EMPTY, "b" := EMPTY], map[], map[], WorldBoss(100000, 100000, 0, "", ""), [], [])

  function Duel(status: Status, a: bool, b: bool): (m: Match) {
    Match("pvp_duel", ["a", "b"], map["a" := NEWCOMER.(ready := a), "b" := NEWCOMER.(ready := b)],
          [Seat("a", "pa"), Seat("b", "pb")], status, 0, 0, 2400, 2400, "", "srv", 1, false, 0, [])
  }

  /** A duel is created and both players get ready. */
  function Opened(): (steps: seq<Step>) {
    [DoCreate("m", "pvp_duel", ["a", "b"], None, 0, "srv", 1), DoReady("m", "a"), DoReady("m", "b")]
  }

  lemma RunOneMore(names: Names, s: State, steps: seq<Step>, step: Step)
    ensures Run(names, s, steps + [step]) == Apply(names, Run(names, s, steps), step)
  {
    assert (steps + [step])[..|steps|] == steps;
  }

  lemma DuelSeats()
    ensures SeatsFor(NAMES, "m", ["a", "b"]) == Duel(Loading, false, false).seats
    ensures Known(LOBBY.wallets, ["a", "b"]) == ["a", "b"]
  {
    assert "p" + "a" == "pa" && "p" + "b" == "pb";
    assert NAMES.player("m", "a") == "pa" && NAMES.player("m", "b") == "pb";
    assert ["a", "b"][1..] == ["b"] && ["b"][1..] == [];
    assert Known(LOBBY.wallets, []) == [];
    assert Known(LOBBY.wallets, ["b"]) == ["b"];
  }

  lemma DuelCreated()
    ensures Create(NAMES, LOBBY, "m", "pvp_duel", ["a", "b"], None, 0, "srv", 1) ==
              LOBBY.(matches := map["m" := Duel(Loading, false, false)])
  {
    DuelSeats();
    var players := map u | u in ["a", "b"] :: NEWCOMER;
    assert players == Duel(Loading, false, false).players;
    assert LOBBY.matches["m" := Duel(Loading, false, false)] == map["m" := Duel(Loading, false, false)];
  }

  lemma FirstReady()
    ensures Ready(LOBBY.(matches := map["m" := Duel(Loading, false, false)]), "m", "a") ==
              (None, LOBBY.(matches := map["m" := Duel(Loading, true, false)]))
  {
    var s := LOBBY.(matches := map["m" := Duel(Loading, false, false)]);
    var m := Duel(Loading, true, false);
    assert Duel(Loading, false, false).players["a" := NEWCOMER.(ready := true)] == m.players;
    assert s.matches["m" := m] == map["m" := m];
    assert (set u | u in m.players && m.players[u].ready) == {"a"};
  }

  lemma SecondReady()
    ensures Ready(LOBBY.(matches := map["m" := Duel(Loading, true, false)]), "m", "b") ==
              (None, LOBBY.(matches := map["m" := Duel(Running, true, true)]))
  {
    var s := LOBBY.(matches := map["m" := Duel(Loading, true, false)]);
    var m := Duel(Loading, true, true);
    assert Duel(Loading, true, false).players["b" := NEWCOMER.(ready := true)] == m.players;
    assert s.matches["m" := m] == map["m" := m];
    assert (set u | u in m.players && m.players[u].ready) == {"a", "b"};
    assert map["m" := m]["m" := m.(status := Running)] == map["m" := Duel(Running, true, true)];
  }

  lemma DuelRuns()
    ensures Run(NAMES, LOBBY, Opened()) == LOBBY.(matches := map["m" := Duel(Running, true, true)])
  {
    DuelCreated();
    FirstReady();
    SecondReady();
    assert [Opened()[0]][..0] == [] && Opened()[..1] == [Opened()[0]];
    assert Opened()[..2] == Opened()[..1] + [Opened()[1]] && Opened() == Opened()[..2] + [Opened()[2]];
    RunOneMore(NAMES, LOBBY, [], Opened()[0]);
    RunOneMore(NAMES, LOBBY, Opened()[..1], Opened()[1]);
    RunOneMore(NAMES, LOBBY, Opened()[..2], Opened()[2]);
  }

  predicate HasEnded(s: State, id: string) { id in s.matches && s.matches[id].status.Ended? }

  function PointsOf(s: State, user: string): (points: int) { if user in s.wallets then s.wallets[user].points else 0 }

  const FLIGHT: Step := DoAbandon("m", "a", 2, true)
  const LATE: Step := DoExpire("m", 1 + 15 * 60, true)

  /** A run that pays a fled match: created, ready, abandoned, and expired after a quarter of an hour. */
  lemma FledMatchIsPaid()
    ensures var fled := Run(NAMES, LOBBY, Opened() + [FLIGHT]);
            var late := Run(NAMES, LOBBY, Opened() + [FLIGHT] + [LATE]);
            && HasEnded(fled, "m") && fled.wallets == LOBBY.wallets
            && PointsOf(fled, "b") == 0 && PointsOf(late, "b") >= 100
  {
    DuelIsSound();
    DuelIsOn();
    RunOneMore(NAMES, LOBBY, Opened(), FLIGHT);
    RunOneMore(NAMES, LOBBY, Opened() + [FLIGHT], LATE);
    AbandonedIsPaid(Run(NAMES, LOBBY, Opened()));
  }

  lemma OpeningIsClocked()
    ensures Opening(LOBBY) && AllClocked(Opened())
  {
  }

  lemma DuelIsSound()
    ensures Sound(Run(NAMES, LOBBY, Opened()), LOBBY.wallets)
  {
    OpeningIsClocked();
    RunIsSound(NAMES, LOBBY, Opened());
  }

  lemma DuelIsOn()
    ensures var s := Run(NAMES, LOBBY, Opened());
            && s.wallets == LOBBY.wallets && Guard(s, "m", "a").None?
            && "b" in s.matches["m"].ids && NoRepeats(s.matches["m"].ids) && s.matches["m"].allocatedAt == 1
  {
    DuelRuns();
    DuelFacts(Duel(Running, true, true));
  }

  lemma DuelFacts(m: Match)
    requires m == Duel(Running, true, true)
    ensures "a" in m.players && "b" in m.ids && NoRepeats(m.ids)
  {
    assert m.ids[0] == "a" && m.ids[1] == "b";
  }

  lemma AbandonedIsPaid(s: State)
    requires Sound(s, LOBBY.wallets) && Guard(s, "m", "a").None? && "b" in s.matches["m"].ids
    requires NoRepeats(s.matches["m"].ids) && s.matches["m"].allocatedAt == 1
    ensures var fled := Apply(NAMES, s, FLIGHT);
            && HasEnded(fled, "m") && fled.wallets == s.wallets
            && PointsOf(Apply(NAMES, fled, LATE), "b") >= PointsOf(s, "b") + 100
  {
    var fled := Abandon(NAMES, s, "m", "a", 2, true).1;
    assert Apply(NAMES, s, FLIGHT) == fled;
    assert Apply(NAMES, fled, LATE) == ExpireOne(NAMES, fled, "m", 1 + 15 * 60, true);
    FleeEndsAbandoned(s);
    FlightThenExpiryPays(NAMES, s, LOBBY.wallets, "m", "a", "b", 2, 1 + 15 * 60);
  }

  lemma FleeEndsAbandoned(s: State)
    requires Guard(s, "m", "a").None?
    ensures HasEnded(Abandon(NAMES, s, "m", "a", 2, true).1, "m")
  {
    var p := s.matches["m"].players["a"].(connected := false, droppedAt := 2, abandoned := true);
    FleeEnds(NAMES, WithPlayer(s, "m", "a", p), "m", "a", false, 2, true);
  }

  const RESULT: Result := Result("m", "pvp_duel", "srv", ["pa", "pb"], "hash", true)

  /** A run that loses a settle: the store refuses the result, and its retry is taken for a duplicate. */
  lemma RefusedSettleIsLost(later: int)
    ensures var s := Run(NAMES, LOBBY, Opened());
            var (reply, lost) := SubmitResult(NAMES, s, RESULT, 2, false);
            && reply == Rejected(StoreFailed) && lost.wallets == LOBBY.wallets && !WasScored(History(lost.log, "m"))
            && SubmitResult(NAMES, lost, RESULT, later, true) == (Duplicate, lost)
  {
    DuelRuns();
    DuelIsSound();
    ResultFitsDuel();
    ResultPaysIffStored(NAMES, Run(NAMES, LOBBY, Opened()), LOBBY.wallets, RESULT, 2, false, later, true);
  }

  lemma ResultFitsDuel()
    ensures SignedError(Duel(Running, true, true), RESULT).None?
  {
    TrimSpaceFixed("pa");
    TrimSpaceFixed("pb");
    assert Trimmed(["pa", "pb"]) == ["pa", "pb"];
    assert PlayerIDs(Duel(Running, true, true).seats) == ["pa", "pb"];
  }
}
