/**
 * Who wins, what a settlement shows, and which requests are accepted, told from the match and the
 * request alone: the scores, the boss, the reported damage, the seats that were dropped.
 */
module SettlementVerdicts {
  import opened Text
  import opened Settlement
  import opened SettlementRuns
  import opened SettlementLaws
  import opened SettlementSteps

  // ----- verdicts by score -----

  predicate Seated(m: Match) { forall i :: 0 <= i < |m.ids| ==> m.ids[i] in m.players }

  /** No seat of the match scored more. */
  predicate Unbeaten(m: Match, score: int)
    requires Seated(m)
  {
    forall k :: 0 <= k < |m.ids| ==> m.players[m.ids[k]].score <= score
  }

  /**
   * The verdict of one seat: a felled instance boss wins for all if somebody is still connected, damage wins
   * against the world boss, and elsewhere a shared highest score draws and an unshared one wins.
   */
  ghost predicate Deserved(m: Match, user: string, v: Verdict)
    requires Seated(m) && user in m.players
  {
    if m.mode == "instance_boss" then
      v == if m.bossHP == 0 && exists u :: u in m.players && m.players[u].connected then Win else Loss
    else if m.mode == "world_boss" then v == if m.players[user].damage > 0 then Win else Loss
    else if Shared(m) then v == Draw
    else v == if Unbeaten(m, m.players[user].score) then Win else Loss
  }

  /** Two seats share the highest score. */
  predicate Shared(m: Match)
    requires Seated(m)
  {
    exists i, j :: 0 <= i < j < |m.ids| && m.players[m.ids[i]].score == m.players[m.ids[j]].score
                   && Unbeaten(m, m.players[m.ids[i]].score)
  }

  lemma TopIsUnbeaten(m: Match, i: nat)
    requires Seated(m) && i < |m.ids|
    ensures TopAt(m, i) <==> Unbeaten(m, m.players[m.ids[i]].score)
  {
    assert forall k :: 0 <= k < |m.ids| ==> ScoreAt(m, k) == m.players[m.ids[k]].score;
  }

  lemma LeaderIsUnbeaten(m: Match, user: string)
    requires Seated(m) && user in m.ids
    ensures Leads(m, user) <==> Unbeaten(m, m.players[user].score)
  {
    var k :| 0 <= k < |m.ids| && m.ids[k] == user;
    TopIsUnbeaten(m, k);
    if Leads(m, user) {
      var i :| 0 <= i < |m.ids| && m.ids[i] == user && TopAt(m, i);
      TopIsUnbeaten(m, i);
    }
  }

  lemma TieIsShared(m: Match)
    requires Seated(m)
    ensures Tied(m) <==> Shared(m)
  {
    if Tied(m) {
      var i, j :| 0 <= i < j < |m.ids| && TopAt(m, i) && TopAt(m, j);
      TopIsUnbeaten(m, i);
      assert ScoreAt(m, i) <= ScoreAt(m, j) <= ScoreAt(m, i);
    }
    if Shared(m) {
      var i, j :| 0 <= i < j < |m.ids| && m.players[m.ids[i]].score == m.players[m.ids[j]].score
                  && Unbeaten(m, m.players[m.ids[i]].score);
      TopIsUnbeaten(m, i);
      TopIsUnbeaten(m, j);
    }
  }

  lemma ScoreVerdictDeserved(m: Match, user: string)
    requires Seated(m) && user in m.ids
    ensures user in m.players && Deserved(m, user, ScoreVerdict(m, user))
  {
    LeaderIsUnbeaten(m, user);
    TieIsShared(m);
  }

  lemma SettleFiles(names: Names, s: State, id: string, d: Decision, route: Route, now: int, user: string)
    requires AllManned(s) && id in s.matches && !d.ByFlight? && user in s.matches[id].ids
    ensures var s' := SettleWith(names, s, id, d, route, now, true);
            (id, user) in s'.records && s'.records[(id, user)] == RecordOf(Marked(s, id, now).matches[id], d, user)
  {
    var m := Marked(s, id, now).matches[id];
    assert Manned(s, s.matches[id]);
    SettleShape(names, s, id, d, route, now);
    PreparedFrame(s, id, d, now, now);
    SeatsFile(names, Prepared(s, id, d, now, now), id, m, d, |m.ids|);
    var i :| 0 <= i < |m.ids| && m.ids[i] == user;
  }

  /** What a settle by score makes of one seat: the deserved verdict on file, and its worth in the wallet. */
  ghost predicate SettledSeat(m: Match, user: string, before: Wallet, r: Record, after: Wallet)
    requires Seated(m) && user in m.players
  {
    var p := m.players[user];
    && Deserved(m, user, r.verdict) && r.score == p.score
    && (NoRepeats(m.ids) ==>
          after == Wallet(before.points + 100 + p.score / 10, before.keys + (if r.verdict == Win then 1 else 0),
                          before.dust + p.graze / 10))
  }

  ghost predicate SettledFairly(s: State, s': State, id: string, user: string)
    requires id in s.matches && Seated(s.matches[id]) && user in s.matches[id].ids
  {
    && user in s.wallets && user in s'.wallets && (id, user) in s'.records
    && SettledSeat(s.matches[id], user, s.wallets[user], s'.records[(id, user)], s'.wallets[user])
  }

  /** Ending a match or sealing its result changes nothing its verdicts depend on. */
  lemma DeservedAlike(m: Match, m': Match, user: string, v: Verdict)
    requires Seated(m) && user in m.players
    requires m'.mode == m.mode && m'.ids == m.ids && m'.players == m.players && m'.bossHP == m.bossHP
    ensures Deserved(m', user, v) <==> Deserved(m, user, v)
  {
    assert forall n :: Unbeaten(m', n) <==> Unbeaten(m, n);
  }

  lemma ScoreFiles(names: Names, s: State, id: string, route: Route, now: int, user: string)
    requires AllManned(s) && id in s.matches && Seated(s.matches[id]) && user in s.matches[id].ids
    ensures var s' := SettleWith(names, s, id, ByScore, route, now, true);
            && (id, user) in s'.records
            && Deserved(s.matches[id], user, s'.records[(id, user)].verdict)
            && s'.records[(id, user)] == RecordOf(Marked(s, id, now).matches[id], ByScore, user)
  {
    var m := Marked(s, id, now).matches[id];
    SettleFiles(names, s, id, ByScore, route, now, user);
    ScoreVerdictDeserved(m, user);
    DeservedAlike(s.matches[id], m, user, ScoreVerdict(m, user));
  }

  lemma ScorePays(names: Names, s: State, id: string, route: Route, now: int, user: string)
    requires AllManned(s) && id in s.matches && user in s.matches[id].ids && NoRepeats(s.matches[id].ids)
    requires user in s.matches[id].players && user in s.wallets
    ensures var s' := SettleWith(names, s, id, ByScore, route, now, true);
            var (p, w) := (s.matches[id].players[user], s.wallets[user]);
            && user in s'.wallets
            && s'.wallets[user] ==
                 Wallet(w.points + 100 + p.score / 10,
                        w.keys + (if VerdictOf(Marked(s, id, now).matches[id], ByScore, user) == Win then 1 else 0),
                        w.dust + p.graze / 10)
  {
    var m := Marked(s, id, now).matches[id];
    SettlePaysEachSeat(names, s, id, ByScore, route, now, user);
    RewardsAreWorth(s.wallets[user], m.players[user], VerdictOf(m, ByScore, user));
  }

  lemma ScoreKeepsWallets(names: Names, s: State, id: string, route: Route, now: int)
    requires id in s.matches
    ensures SettleWith(names, s, id, ByScore, route, now, true).wallets.Keys == s.wallets.Keys
  {
    SettleShape(names, s, id, ByScore, route, now);
  }

  /** Every settle by score gives every seat the verdict it deserves, and a key exactly to the winners. */
  lemma ScoreSettles(names: Names, s: State, id: string, route: Route, now: int, user: string)
    requires AllManned(s) && id in s.matches && Seated(s.matches[id]) && user in s.matches[id].ids
    ensures SettledFairly(s, SettleWith(names, s, id, ByScore, route, now, true), id, user)
  {
    assert Manned(s, s.matches[id]);
    ScoreFiles(names, s, id, route, now, user);
    ScoreKeepsWallets(names, s, id, route, now);
    if NoRepeats(s.matches[id].ids) {
      ScorePays(names, s, id, route, now, user);
    }
  }

  /** The settle a player asks for is one by score. */
  lemma ClientSettlesByScore(names: Names, s: State, id: string, caller: string, now: int, user: string)
    requires AllManned(s) && Guard(s, id, caller).None?
    requires Seated(s.matches[id]) && user in s.matches[id].ids
    ensures SettledFairly(s, SettleMatch(names, s, id, caller, now, true).1, id, user)
  {
    ScoreSettles(names, s, id, ClientSettle, now, user);
  }

  /** So is the expiry of an allocation that outlived fifteen minutes. */
  lemma ExpirySettlesByScore(names: Names, s: State, id: string, now: int, user: string)
    requires AllManned(s) && id in s.matches && s.matches[id].endedAt == 0
    requires s.matches[id].allocatedAt != 0 && now - s.matches[id].allocatedAt >= 15 * 60
    requires Seated(s.matches[id]) && user in s.matches[id].ids
    ensures SettledFairly(s, ExpireOne(names, s, id, now, true), id, user)
  {
    ScoreSettles(names, s, id, Expiry, now, user);
  }

  /** So is an accepted signed result. */
  lemma ResultSettlesByScore(names: Names, s: State, r: Result, now: int, user: string)
    requires AllManned(s) && SubmitResult(names, s, r, now, true).0.Accepted?
    requires Seated(s.matches[r.id]) && user in s.matches[r.id].ids
    ensures SettledFairly(s, SubmitResult(names, s, r, now, true).1, r.id, user)
  {
    var sealed := s.(matches := s.matches[r.id := s.matches[r.id].(hash := r.hash)]);
    SealedIsManned(s, r.id, r.hash);
    ScoreSettles(names, sealed, r.id, SignedResult, now, user);
    SettledAlike(s, sealed, SettleWith(names, sealed, r.id, ByScore, SignedResult, now, true), r.id, user);
  }

  lemma SealedIsManned(s: State, id: string, hash: string)
    requires AllManned(s) && id in s.matches
    ensures AllManned(s.(matches := s.matches[id := s.matches[id].(hash := hash)]))
  {
    assert forall other :: other in s.matches ==> Manned(s, s.matches[other]);
  }

  lemma SettledAlike(s: State, mid: State, s': State, id: string, user: string)
    requires id in s.matches && id in mid.matches && mid.wallets == s.wallets
    requires mid.matches[id] == s.matches[id].(hash := mid.matches[id].hash)
    requires Seated(s.matches[id]) && user in s.matches[id].ids && SettledFairly(mid, s', id, user)
    ensures SettledFairly(s, s', id, user)
  {
    DeservedAlike(s.matches[id], mid.matches[id], user, s'.records[(id, user)].verdict);
  }

  // ----- replays -----

  /** The replay id of a seat: the hash of the match, the user, the last input and the score. */
  function ReplayKey(names: Names, id: string, m: Match, user: string): (key: string)
    requires user in m.players
  {
    names.replay(id, user, m.players[user].lastSeq, m.players[user].score)
  }

  /** The replays after the first k seats. */
  function Replays(names: Names, replays: map<string, Replay>, id: string, m: Match, d: Decision, k: nat)
    : (r: map<string, Replay>)
    requires k <= |m.ids| && Seated(m)
  {
    if k == 0 then replays
    else
      Replays(names, replays, id, m, d, k - 1)[ReplayKey(names, id, m, m.ids[k - 1]) :=
                                                 Replay(RecordOf(m, d, m.ids[k - 1]), m.endedAt)]
  }

  lemma SeatReplays(names: Names, s: State, id: string, m: Match, d: Decision, user: string)
    requires user in m.players && user in s.wallets
    ensures WriteSeat(names, s, id, m, d, user).replays ==
              s.replays[ReplayKey(names, id, m, user) := Replay(RecordOf(m, d, user), m.endedAt)]
  {
  }

  lemma LastReplays(names: Names, s: State, id: string, m: Match, d: Decision, k: nat)
    requires 0 < k <= |m.ids| && Seated(m) && Manned(s, m)
    ensures WriteSeats(names, s, id, m, d, k).replays ==
              WriteSeats(names, s, id, m, d, k - 1).replays[ReplayKey(names, id, m, m.ids[k - 1]) :=
                                                             Replay(RecordOf(m, d, m.ids[k - 1]), m.endedAt)]
  {
    var before, user := WriteSeats(names, s, id, m, d, k - 1), m.ids[k - 1];
    assert user in m.players && user in before.wallets by {
      SeatsFrame(names, s, id, m, d, k - 1);
    }
    SeatReplays(names, before, id, m, d, user);
  }

  lemma {:induction false} SeatsReplay(names: Names, s: State, id: string, m: Match, d: Decision, k: nat)
    requires k <= |m.ids| && Seated(m) && Manned(s, m)
    ensures WriteSeats(names, s, id, m, d, k).replays == Replays(names, s.replays, id, m, d, k)
  {
    if k > 0 {
      LastReplays(names, s, id, m, d, k);
      SeatsReplay(names, s, id, m, d, k - 1);
    }
  }

  /** A key that no other player shares keeps its replay. */
  lemma {:induction false} OwnKey(names: Names, replays: map<string, Replay>, id: string, m: Match, d: Decision, i: nat,
                                  k: nat)
    requires i < k <= |m.ids| && Seated(m)
    requires forall u :: u in m.players && u != m.ids[i] ==>
               ReplayKey(names, id, m, u) != ReplayKey(names, id, m, m.ids[i])
    ensures var (key, r) := (ReplayKey(names, id, m, m.ids[i]), Replays(names, replays, id, m, d, k));
            key in r && r[key] == Replay(RecordOf(m, d, m.ids[i]), m.endedAt)
    decreases k
  {
    if m.ids[k - 1] != m.ids[i] {
      OwnKey(names, replays, id, m, d, i, k - 1);
    }
  }

  /** The replay of a seat whose key no other player shares. */
  lemma OwnReplay(names: Names, s: State, id: string, m: Match, d: Decision, user: string)
    requires Seated(m) && Manned(s, m) && user in m.ids
    requires forall u :: u in m.players && u != user ==> ReplayKey(names, id, m, u) != ReplayKey(names, id, m, user)
    ensures var written := WriteSeats(names, s, id, m, d, |m.ids|);
            var key := ReplayKey(names, id, m, user);
            key in written.replays && written.replays[key] == Replay(RecordOf(m, d, user), m.endedAt)
  {
    var i :| 0 <= i < |m.ids| && m.ids[i] == user;
    SeatsReplay(names, s, id, m, d, |m.ids|);
    OwnKey(names, s.replays, id, m, d, i, |m.ids|);
  }

  lemma SettleWritesReplays(names: Names, s: State, id: string, d: Decision, route: Route, now: int)
    requires id in s.matches && !d.ByFlight?
    ensures var m := Marked(s, id, now).matches[id];
            SettleWith(names, s, id, d, route, now, true).replays ==
              WriteSeats(names, Prepared(s, id, d, now, now), id, m, d, |m.ids|).replays
    ensures Prepared(s, id, d, now, now).wallets == s.wallets
  {
    SettleShape(names, s, id, d, route, now);
    PreparedFrame(s, id, d, now, now);
  }

  /** A stored settle files a replay for every seat; with distinct replay ids it is the seat's own, at the end time. */
  lemma SettleFilesReplay(names: Names, s: State, id: string, d: Decision, route: Route, now: int, user: string)
    requires AllManned(s) && id in s.matches && !d.ByFlight? && Seated(s.matches[id]) && user in s.matches[id].ids
    requires var m := s.matches[id];
             forall u :: u in m.players && u != user ==> ReplayKey(names, id, m, u) != ReplayKey(names, id, m, user)
    ensures var s' := SettleWith(names, s, id, d, route, now, true);
            var key := ReplayKey(names, id, s.matches[id], user);
            && key in s'.replays && (id, user) in s'.records
            && s'.replays[key] == Replay(s'.records[(id, user)], now)
  {
    var m := Marked(s, id, now).matches[id];
    assert Manned(s, s.matches[id]);
    SettleFiles(names, s, id, d, route, now, user);
    SettleWritesReplays(names, s, id, d, route, now);
    OwnReplay(names, Prepared(s, id, d, now, now), id, m, d, user);
  }

  // ----- the mark on a felled world boss -----

  ghost predicate Marks(s: State, s': State, now: int) {
    && s.boss.currentHP > 0 && s'.boss.currentHP == 0 && s'.boss.maxHP == s.boss.maxHP
    && s'.boss.defeatedAt == now && |s'.log| == |s.log| + 1
    && s'.boss.byMatch == s'.log[|s.log|].id && s'.boss.byMatch in s.matches
    && s'.hits == s.hits + [Hit(s'.boss.byMatch, s.boss.currentHP)]
  }

  lemma FellingMarks(s: State, s': State, step: Step, o: Option<Outcome>)
    requires Classified(s, s', step, o) && s.boss.defeatedAt == 0 && s'.boss.defeatedAt != 0
    ensures Marks(s, s', ClockOf(step))
  {
  }

  /** The step that fells the world boss marks it with its own clock and with the match it ended. */
  lemma FellingStepMarks(names: Names, s: State, step: Step)
    requires s.boss.defeatedAt == 0 && Apply(names, s, step).boss.defeatedAt != 0
    ensures Marks(s, Apply(names, s, step), ClockOf(step))
  {
    var o := StepCases(names, s, step);
    FellingMarks(s, Apply(names, s, step), step, o);
  }
}
