/**
 * What a reader of the lobby's settlement wants to know, over whole runs: who is paid and
 * how often, what a replayed result does, and what a boss bar means.
 */
module SettlementLaws {
  import opened Text
  import opened Settlement
  import opened SettlementRuns

  // ----- who is paid -----

  function UsersOf(payouts: seq<Payout>): (users: seq<string>) {
    seq(|payouts|, i requires 0 <= i < |payouts| => payouts[i].user)
  }

  /** How often the outcomes pay the user. */
  function TimesPaid(h: seq<Outcome>, user: string): (n: nat) {
    if h == [] then 0
    else
      var last := h[|h| - 1];
      TimesPaid(h[..|h| - 1], user) + if last.Scored? then multiset(UsersOf(last.payouts))[user] else 0
  }

  predicate WasScored(h: seq<Outcome>) { exists i :: 0 <= i < |h| && h[i].Scored? }

  lemma LegalPayments(h: seq<Outcome>, user: string)
    requires Legal(h)
    ensures WasScored(h) <==> h != [] && h[|h| - 1].Scored?
    ensures TimesPaid(h, user) == if WasScored(h) then multiset(UsersOf(h[|h| - 1].payouts))[user] else 0
  {
    if h != [] {
      var front := h[..|h| - 1];
      assert |front| == 1 ==> front[..0] == [] && front[0].Fled?;
      assert TimesPaid(front, user) == 0;
    }
  }

  /** The story of a match in a reachable state. */
  lemma RunTells(names: Names, s: State, steps: seq<Step>, id: string)
    requires Opening(s) && AllClocked(steps) && id in Run(names, s, steps).matches
    ensures var s' := Run(names, s, steps);
            && Told(s'.matches[id], History(s'.log, id))
            && Filed(s', id, s'.matches[id].ids, History(s'.log, id))
  {
    RunIsSound(names, s, steps);
  }

  lemma PaidAsFiled(s: State, id: string, ids: seq<string>, h: seq<Outcome>, user: string)
    requires Legal(h) && Filed(s, id, ids, h)
    ensures TimesPaid(h, user) == if WasScored(h) then multiset(ids)[user] else 0
  {
    LegalPayments(h, user);
    if WasScored(h) {
      assert UsersOf(h[|h| - 1].payouts) == ids;
    }
  }

  /**
   * Over every interleaving: a match that was scored paid each of its seats once, and
   * a match that was not, nobody. A user seated twice is paid twice; distinct seats at most once.
   */
  lemma EachSeatPaidOnce(names: Names, s: State, steps: seq<Step>, id: string, user: string)
    requires Opening(s) && AllClocked(steps) && id in Run(names, s, steps).matches
    ensures var s' := Run(names, s, steps);
            var h := History(s'.log, id);
            TimesPaid(h, user) == if WasScored(h) then multiset(s'.matches[id].ids)[user] else 0
  {
    RunTells(names, s, steps, id);
    var s' := Run(names, s, steps);
    PaidAsFiled(s', id, s'.matches[id].ids, History(s'.log, id), user);
  }

  lemma {:induction false} DistinctCount(ids: seq<string>, user: string)
    requires NoRepeats(ids)
    ensures multiset(ids)[user] <= 1
  {
    if ids != [] {
      var front, last := ids[..|ids| - 1], ids[|ids| - 1];
      DistinctCount(front, user);
      assert ids == front + [last];
      assert last !in front;
    }
  }

  lemma DistinctSeatsPaidAtMostOnce(names: Names, s: State, steps: seq<Step>, id: string, user: string)
    requires Opening(s) && AllClocked(steps) && id in Run(names, s, steps).matches
    requires NoRepeats(Run(names, s, steps).matches[id].ids)
    ensures TimesPaid(History(Run(names, s, steps).log, id), user) <= 1
  {
    EachSeatPaidOnce(names, s, steps, id, user);
    DistinctCount(Run(names, s, steps).matches[id].ids, user);
  }

  /** A flight never follows anything, and only the expiry of the allocation can score a fled match. */
  lemma FlightsComeFirst(names: Names, s: State, steps: seq<Step>, id: string, i: nat, j: nat)
    requires Opening(s) && AllClocked(steps) && id in Run(names, s, steps).matches
    requires i < j < |History(Run(names, s, steps).log, id)|
    ensures var h := History(Run(names, s, steps).log, id); h[i].Fled? && !h[j].Fled? && h[j].route == Expiry
  {
    RunTells(names, s, steps, id);
    LegalOrder(History(Run(names, s, steps).log, id), i, j);
  }

  lemma LegalOrder(h: seq<Outcome>, i: nat, j: nat)
    requires Legal(h) && i < j < |h|
    ensures h[i].Fled? && !h[j].Fled? && h[j].route == Expiry
  {
  }

  // ----- what a seat earns -----

  /** A settlement is worth 100 points and a tenth of the score, a key for a win, and a tenth of the grazes in dust. */
  lemma RewardsAreWorth(w: Wallet, p: Player, v: Verdict)
    ensures Credit(w, Rewards(p, v)) ==
              Wallet(w.points + 100 + p.score / 10, w.keys + (if v.Win? then 1 else 0), w.dust + p.graze / 10)
  {
    var base := [Points(100 + p.score / 10)];
    var keyed := base + if v.Win? then [ChestKeys(1)] else [];
    CreditLast(w, [], base[0]);
    assert [] + base == base && Credit(w, []) == w;
    CreditMaybe(w, base, v.Win?, ChestKeys(1));
    CreditMaybe(w, keyed, p.graze >= 10, CardDust(p.graze / 10));
  }

  lemma CreditMaybe(w: Wallet, rewards: seq<Reward>, more: bool, last: Reward)
    ensures Credit(w, rewards + if more then [last] else []) ==
              if more then CreditOne(Credit(w, rewards), last) else Credit(w, rewards)
  {
    CreditLast(w, rewards, last);
    assert rewards + [] == rewards;
  }

  lemma CreditLast(w: Wallet, rewards: seq<Reward>, last: Reward)
    ensures Credit(w, rewards + [last]) == CreditOne(Credit(w, rewards), last)
  {
    assert (rewards + [last])[..|rewards|] == rewards;
  }

  predicate Unpaid(payouts: seq<Payout>, user: string) { forall j :: 0 <= j < |payouts| ==> payouts[j].user != user }

  lemma PaidStep(front: seq<Payout>, last: Payout, user: string)
    ensures PaidTo(front + [last], user) == Plus(PaidTo(front, user), Gain(last, user))
  {
    assert (front + [last])[..|front|] == front;
  }

  lemma {:induction false} PaidNeverYet(payouts: seq<Payout>, user: string, k: nat)
    requires Unpaid(payouts, user) && k <= |payouts|
    ensures PaidTo(payouts[..k], user) == EMPTY
  {
    if k == 0 {
      assert payouts[..k] == [];
    } else {
      var j := k - 1;
      PaidNeverYet(payouts, user, j);
      PayoutsPrefix(payouts, j, user);
      NoGain(payouts[j], user);
      PlusEmpty(PaidTo(payouts[..j], user));
      assert payouts[..j + 1] == payouts[..k];
      assert PaidTo(payouts[..k], user) == Plus(PaidTo(payouts[..j], user), EMPTY);
    }
  }

  lemma NoGain(payout: Payout, user: string)
    requires payout.user != user
    ensures Gain(payout, user) == EMPTY
  {
  }

  lemma PaidNever(payouts: seq<Payout>, user: string)
    requires Unpaid(payouts, user)
    ensures PaidTo(payouts, user) == EMPTY
  {
    PaidNeverYet(payouts, user, |payouts|);
    assert payouts[..|payouts|] == payouts;
  }

  lemma {:induction false} PaidOnce(payouts: seq<Payout>, user: string, i: nat)
    requires i < |payouts| && payouts[i].user == user
    requires Unpaid(payouts[..i], user) && Unpaid(payouts[i + 1..], user)
    ensures PaidTo(payouts, user) == Credit(EMPTY, payouts[i].rewards)
  {
    var front, last := payouts[..|payouts| - 1], payouts[|payouts| - 1];
    assert payouts == front + [last];
    PaidStep(front, last, user);
    if i < |front| {
      assert front[..i] == payouts[..i] && front[i + 1..] == payouts[i + 1..][..|front| - i - 1];
      assert last == payouts[i + 1..][|front| - i - 1];
      PaidOnce(front, user, i);
      PlusEmpty(PaidTo(front, user));
    } else {
      assert front == payouts[..i];
      PaidNever(front, user);
      PlusEmpty(Credit(EMPTY, last.rewards));
    }
  }

  lemma PlusEmpty(w: Wallet)
    ensures Plus(w, EMPTY) == w && Plus(EMPTY, w) == w
  {
  }

  /** What the payouts of a match give one user, when no user is seated twice. */
  lemma PayoutsGive(m: Match, d: Decision, user: string)
    requires NoRepeats(m.ids)
    ensures PaidTo(Payouts(m, d), user) == if user in m.ids then Credit(EMPTY, RecordOf(m, d, user).rewards) else EMPTY
  {
    var payouts := Payouts(m, d);
    if user in m.ids {
      var i :| 0 <= i < |m.ids| && m.ids[i] == user;
      PaidOnce(payouts, user, i);
    } else {
      PaidNever(payouts, user);
    }
  }

  /** A scored match credits each of its distinct seats with its own settlement, and no other user with anything. */
  lemma SettlePaysEachSeat(names: Names, s: State, id: string, d: Decision, route: Route, now: int, user: string)
    requires AllManned(s) && id in s.matches && !d.ByFlight? && user in s.wallets
    requires NoRepeats(s.matches[id].ids)
    ensures user in SettleWith(names, s, id, d, route, now, true).wallets
    ensures var m := Marked(s, id, now).matches[id];
            SettleWith(names, s, id, d, route, now, true).wallets[user] ==
              if user in m.ids then Credit(s.wallets[user], Rewards(m.players[user], VerdictOf(m, d, user)))
              else s.wallets[user]
  {
    var m := Marked(s, id, now).matches[id];
    var p := Prepared(s, id, d, now, now);
    assert Manned(s, s.matches[id]);
    SettleShape(names, s, id, d, route, now);
    PreparedFrame(s, id, d, now, now);
    SeatsPay(names, p, id, m, d, |m.ids|, user);
    assert Payouts(m, d)[..|m.ids|] == Payouts(m, d);
    PayoutsGive(m, d, user);
    PlusEmpty(s.wallets[user]);
    if user in m.ids {
      CreditIsPlus(s.wallets[user], RecordOf(m, d, user).rewards);
    }
  }

  /** An abandoned match: the leaver fled, everybody else won, and nobody's wallet moved. */
  lemma AbandonVerdicts(names: Names, s: State, id: string, user: string, now: int, i: nat)
    requires AllManned(s) && Guard(s, id, user).None? && i < |s.matches[id].ids|
    ensures var s' := Abandon(names, s, id, user, now, true).1;
            var seat := s.matches[id].ids[i];
            && s'.wallets == s.wallets && (id, seat) in s'.records
            && s'.records[(id, seat)].verdict == (if seat == user then Flee else Win)
            && s'.records[(id, seat)].rewards == []
  {
    var p := s.matches[id].players[user].(connected := false, droppedAt := now, abandoned := true);
    var mid := WithPlayer(s, id, user, p);
    var at := mid.matches[id].endedAt;
    var m := Marked(mid, id, at).matches[id];
    var d := ByFlight(user, false);
    assert Manned(s, s.matches[id]);
    FleeShape(names, mid, id, user, false, now);
    FleeEffect(names, mid, id, user, false, now);
    PreparedFrame(mid, id, d, at, now);
    SeatsFile(names, Prepared(mid, id, d, at, now), id, m, d, |m.ids|);
  }

  /** An accepted callback: the named winner wins and everybody else loses; without a name it is a draw. */
  lemma CallbackVerdicts(names: Names, s: State, c: Callback, now: int, i: nat)
    requires AllManned(s) && ApplyCallback(names, s, c, now, true).0.Accepted?
    requires i < |s.matches[TrimSpace(c.id)].ids|
    ensures var m := s.matches[TrimSpace(c.id)];
            var seat := m.ids[i];
            var s' := ApplyCallback(names, s, c, now, true).1;
            && (TrimSpace(c.id), seat) in s'.records
            && s'.records[(TrimSpace(c.id), seat)].verdict ==
                 if WinnerOf(m, c) == "" then Draw else if seat == WinnerOf(m, c) then Win else Loss
  {
    var id := TrimSpace(c.id);
    var sealed := s.(matches := s.matches[id := Sealed(s.matches[id], c)]);
    var d := ByWinner(WinnerOf(s.matches[id], c));
    var m := Marked(sealed, id, now).matches[id];
    assert ApplyCallback(names, s, c, now, true).1 == SettleWith(names, sealed, id, d, ResultCallback, now, true);
    assert Manned(s, s.matches[id]);
    SettleShape(names, sealed, id, d, ResultCallback, now);
    PreparedFrame(sealed, id, d, now, now);
    SeatsFile(names, Prepared(sealed, id, d, now, now), id, m, d, |m.ids|);
  }

  /** An input, whatever it holds, adds these points and grazes to its player. */
  lemma InputScores(m: Match, user: string, packet: Packet)
    requires user in m.players
    ensures var (p, p') := (m.players[user], ApplyInput(m, user, packet).players[user]);
            && p'.score == p.score + 1 + (if packet.slow then 3 else 0) + (if packet.shoot then 5 else 0)
                           + (if packet.bomb then 2 else 0) + (if packet.card.Some? then packet.card.value.1 else 0)
            && p'.graze == p.graze + (if packet.slow then 1 else 0)
  {
    var steered := Steer(m, user, packet);
    var bombed := Bomb(steered, user, packet.bomb);
    assert bombed.players[user].score == steered.players[user].score + if packet.bomb then 2 else 0;
    var played := Card(bombed, user, packet.card);
    assert played.players[user].score ==
             bombed.players[user].score + if packet.card.Some? then packet.card.value.1 else 0;
  }

  /** One blow counts whole while the boss stands, and not at all once it is down. */
  lemma BlowCounts(m: Match, user: string, score: nat, damage: int)
    requires user in m.players
    ensures var m' := Damage(AddScore(m, user, score, 0), user, damage);
            var blow := if damage > 0 then damage else 0;
            && user in m'.players
            && m'.players[user].damage == m.players[user].damage + (if m.bossHP > 0 then blow else 0)
            && m'.bossHP == (if m.bossHP > blow then m.bossHP - blow else 0)
  {
  }

  /**
   * An input deals 35 for a bomb, then the card's damage, then 4 for a shot. Each counts whole for the
   * player if the boss survived what came before, and the bar loses them down to zero.
   */
  lemma InputDamages(m: Match, user: string, packet: Packet)
    requires user in m.players
    ensures var bomb := if packet.bomb then 35 else 0;
            var card := if packet.card.Some? && packet.card.value.0 > 0 then packet.card.value.0 else 0;
            var shot := if packet.shoot then 4 else 0;
            var m' := ApplyInput(m, user, packet);
            && m'.players[user].damage ==
                 m.players[user].damage + (if m.bossHP > 0 then bomb else 0) + (if m.bossHP > bomb then card else 0)
                 + (if m.bossHP > bomb + card then shot else 0)
            && m'.bossHP == (if m.bossHP > bomb + card + shot then m.bossHP - bomb - card - shot else 0)
  {
    var steered := Steer(m, user, packet);
    var bombed := Bomb(steered, user, packet.bomb);
    var played := Card(bombed, user, packet.card);
    assert steered.bossHP == m.bossHP && steered.players[user].damage == m.players[user].damage;
    BlowCounts(steered, user, 2, 35);
    if packet.card.Some? {
      BlowCounts(bombed, user, packet.card.value.1, packet.card.value.0);
    }
    BlowCounts(played, user, 1, 4);
  }

  // ----- what never changes again -----

  /** An ended match keeps its result hash, its seats and its mode; a settled one its end time. */
  predicate Kept(m: Match, m': Match) {
    && m'.status.Ended? && m'.hash == m.hash && m'.seats == m.seats && m'.mode == m.mode && m'.ids == m.ids
    && m'.players == m.players
    && (m.endedAt != 0 ==> m'.endedAt == m.endedAt)
  }

  ghost predicate KeptRecords(s: State, s': State, id: string) {
    && (forall u :: (id, u) in s'.records <==> (id, u) in s.records)
    && (forall u :: (id, u) in s.records ==> s'.records[(id, u)] == s.records[(id, u)])
  }

  /** One step, seen from an ended match. */
  ghost predicate Final(s: State, s': State, id: string) {
    && id in s.matches && id in s'.matches && s.matches[id].status.Ended? && Kept(s.matches[id], s'.matches[id])
    && (s.matches[id].endedAt != 0 ==> KeptRecords(s, s', id))
  }

  lemma {:induction false} SeatsElsewhere(names: Names, s: State, id: string, m: Match, d: Decision, k: nat)
    requires k <= |m.ids|
    ensures SameElsewhere(s, WriteSeats(names, s, id, m, d, k), id)
  {
    if k > 0 {
      SeatsElsewhere(names, s, id, m, d, k - 1);
    }
  }

  lemma SettleElsewhere(names: Names, s: State, id: string, d: Decision, route: Route, now: int, stored: bool)
    requires id in s.matches && !d.ByFlight?
    ensures SameElsewhere(s, SettleWith(names, s, id, d, route, now, stored), id)
    ensures EndsOnly(s, SettleWith(names, s, id, d, route, now, stored), id, now)
  {
    if stored {
      var m := Marked(s, id, now).matches[id];
      SettleShape(names, s, id, d, route, now);
      SettleEffect(names, s, id, d, route, now);
      PreparedFrame(s, id, d, now, now);
      SeatsElsewhere(names, Prepared(s, id, d, now, now), id, m, d, |m.ids|);
    }
  }

  lemma FleeElsewhere(names: Names, s: State, id: string, leaver: string, both: bool, now: int, stored: bool)
    requires id in s.matches && !s.matches[id].status.Ended?
    ensures SameElsewhere(s, FleeWith(names, s, id, leaver, both, now, stored), id)
    ensures EndsOnly(s, FleeWith(names, s, id, leaver, both, now, stored), id, s.matches[id].endedAt)
  {
    if stored {
      var at := s.matches[id].endedAt;
      var m := Marked(s, id, at).matches[id];
      FleeShape(names, s, id, leaver, both, now);
      FleeEffect(names, s, id, leaver, both, now);
      PreparedFrame(s, id, ByFlight(leaver, both), at, now);
      SeatsElsewhere(names, Prepared(s, id, ByFlight(leaver, both), at, now), id, m, ByFlight(leaver, both), |m.ids|);
    }
  }

  /** Ending one match leaves an ended other one as it is. */
  lemma OtherIsFinal(s: State, mid: State, s': State, other: string, endedAt: int, id: string)
    requires id in s.matches && s.matches[id].status.Ended? && id != other
    requires id in mid.matches && mid.matches[id] == s.matches[id] && mid.records == s.records
    requires EndsOnly(mid, s', other, endedAt) && SameElsewhere(mid, s', other)
    ensures Final(s, s', id)
  {
  }

  /** The expiry may still settle a fled match, and then never again. */
  lemma ExpiryIsFinal(names: Names, s: State, other: string, now: int, stored: bool, id: string)
    requires id in s.matches && s.matches[id].status.Ended?
    ensures Final(s, ExpireOne(names, s, other, now, stored), id)
  {
    if other in s.matches && Stale(s.matches[other], now) {
      SettleElsewhere(names, s, other, ByScore, Expiry, now, stored);
      if other != id {
        OtherIsFinal(s, s, ExpireOne(names, s, other, now, stored), other, now, id);
      }
    }
  }

  lemma ClientIsFinal(names: Names, s: State, other: string, user: string, now: int, stored: bool, id: string)
    requires id in s.matches && s.matches[id].status.Ended?
    ensures Final(s, SettleMatch(names, s, other, user, now, stored).1, id)
  {
    var s' := SettleMatch(names, s, other, user, now, stored).1;
    if s' != s {
      SettleElsewhere(names, s, other, ByScore, ClientSettle, now, stored);
      OtherIsFinal(s, s, s', other, now, id);
    }
  }

  lemma ResultIsFinal(names: Names, s: State, r: Result, now: int, stored: bool, id: string)
    requires id in s.matches && s.matches[id].status.Ended?
    ensures Final(s, SubmitResult(names, s, r, now, stored).1, id)
  {
    var s' := SubmitResult(names, s, r, now, stored).1;
    if s' != s {
      var sealed := s.(matches := s.matches[r.id := s.matches[r.id].(hash := r.hash)]);
      SettleElsewhere(names, sealed, r.id, ByScore, SignedResult, now, stored);
      OtherIsFinal(s, sealed, s', r.id, now, id);
    }
  }

  lemma CallbackIsFinal(names: Names, s: State, c: Callback, now: int, stored: bool, id: string)
    requires id in s.matches && s.matches[id].status.Ended?
    ensures Final(s, ApplyCallback(names, s, c, now, stored).1, id)
  {
    var s' := ApplyCallback(names, s, c, now, stored).1;
    CallbackCases(names, s, c, now, stored);
    if s' != s {
      var other := TrimSpace(c.id);
      var sealed := s.(matches := s.matches[other := Sealed(s.matches[other], c)]);
      SettleElsewhere(names, sealed, other, ByWinner(WinnerOf(s.matches[other], c)), ResultCallback, now, stored);
      OtherIsFinal(s, sealed, s', other, now, id);
    }
  }

  lemma AbandonIsFinal(names: Names, s: State, other: string, user: string, now: int, stored: bool, id: string)
    requires id in s.matches && s.matches[id].status.Ended?
    ensures Final(s, Abandon(names, s, other, user, now, stored).1, id)
  {
    if Guard(s, other, user).None? {
      var p := s.matches[other].players[user].(connected := false, droppedAt := now, abandoned := true);
      var mid := WithPlayer(s, other, user, p);
      FleeElsewhere(names, mid, other, user, false, now, stored);
      OtherIsFinal(s, mid, Abandon(names, s, other, user, now, stored).1, other, mid.matches[other].endedAt, id);
    }
  }

  lemma EventsAreFinal(names: Names, s: State, other: string, server: string, cards: set<string>, rows: seq<Row>,
                       within: bool, now: int, stored: bool, id: string)
    requires id in s.matches && s.matches[id].status.Ended?
    ensures Final(s, SubmitEvents(names, s, other, server, cards, rows, within, now, stored).1, id)
  {
    var s' := SubmitEvents(names, s, other, server, cards, rows, within, now, stored).1;
    EventsCases(names, s, other, server, cards, rows, within, now, stored);
    if s' != s {
      var mid := s.(matches := s.matches[other := s.matches[other].(rows := s.matches[other].rows + rows)]);
      FleeElsewhere(names, mid, other, "", true, now, stored);
      if s' != mid {
        OtherIsFinal(s, mid, s', other, mid.matches[other].endedAt, id);
      }
    }
  }

  lemma PutIsFinal(s: State, other: string, m: Match, id: string)
    requires id in s.matches && s.matches[id].status.Ended? && (other == id ==> Kept(s.matches[id], m))
    ensures Final(s, s.(matches := s.matches[other := m]), id)
  {
  }

  /** Readying, dropping and reconnecting are refused once the match has ended. */
  lemma PlayerCallIsFinal(names: Names, s: State, step: Step, id: string)
    requires id in s.matches && s.matches[id].status.Ended?
    requires step.DoReady? || step.DoContact? || step.DoDisconnect? || step.DoReconnect?
    ensures Final(s, Apply(names, s, step), id)
  {
    if Guard(s, step.id, step.user).None? {
      var m := Apply(names, s, step).matches[step.id];
      PutIsFinal(s, step.id, m, id);
      assert Apply(names, s, step).matches == s.matches[step.id := m];
    }
  }

  lemma QuietIsFinal(names: Names, s: State, step: Step, id: string)
    requires id in s.matches && s.matches[id].status.Ended?
    requires step.DoCreate? || step.DoInput? || step.DoBind?
    ensures Final(s, Apply(names, s, step), id)
  {
    var s' := Apply(names, s, step);
    if s' != s {
      PutIsFinal(s, step.id, s'.matches[step.id], id);
      assert s'.matches == s.matches[step.id := s'.matches[step.id]];
    }
  }

  lemma StepIsFinal(names: Names, s: State, step: Step, id: string)
    requires id in s.matches && s.matches[id].status.Ended?
    ensures Final(s, Apply(names, s, step), id)
  {
    match step
    case DoSettle(other, user, now, stored) => ClientIsFinal(names, s, other, user, now, stored, id);
    case DoResult(r, now, stored) => ResultIsFinal(names, s, r, now, stored, id);
    case DoCallback(c, now, stored) => CallbackIsFinal(names, s, c, now, stored, id);
    case DoAbandon(other, user, now, stored) => AbandonIsFinal(names, s, other, user, now, stored, id);
    case DoEvents(other, server, cards, rows, within, now, stored) =>
      EventsAreFinal(names, s, other, server, cards, rows, within, now, stored, id);
    case DoExpire(other, now, stored) => ExpiryIsFinal(names, s, other, now, stored, id);
    case DoCreate(_, _, _, _, _, _, _) => QuietIsFinal(names, s, step, id);
    case DoInput(_, _, _) => QuietIsFinal(names, s, step, id);
    case DoBind(_, _, _) => QuietIsFinal(names, s, step, id);
    case _ => PlayerCallIsFinal(names, s, step, id);
  }

  /** Whatever happens later, an ended match stays ended under its hash, and a settled match keeps its settlements. */
  lemma {:induction false} RunIsFinal(names: Names, s: State, steps: seq<Step>, id: string)
    requires id in s.matches && s.matches[id].status.Ended?
    ensures Final(s, Run(names, s, steps), id)
  {
    if steps != [] {
      var mid := Run(names, s, steps[..|steps| - 1]);
      RunIsFinal(names, s, steps[..|steps| - 1], id);
      StepIsFinal(names, mid, steps[|steps| - 1], id);
    }
  }

  /** A result or callback with the hash the match ended under. */
  predicate SameResult(m: Match, hash: string) { m.status.Ended? && hash != "" && m.hash == hash }

  /**
   * Replaying an accepted signed result, at any later time and after any other steps, changes
   * nothing at all: it is a duplicate, unless the match has moved to another battle server.
   */
  lemma ReplayedResultIsHarmless(names: Names, s: State, r: Result, now: int, steps: seq<Step>, later: int,
                                 stored: bool)
    requires r.hash != "" && SubmitResult(names, s, r, now, true).0.Accepted?
    ensures var after := Run(names, SubmitResult(names, s, r, now, true).1, steps);
            && r.id in after.matches
            && SubmitResult(names, after, r, later, stored) ==
                 (if r.server == after.matches[r.id].server then Duplicate else Rejected(WrongServer), after)
  {
    var sealed := s.(matches := s.matches[r.id := s.matches[r.id].(hash := r.hash)]);
    SettleElsewhere(names, sealed, r.id, ByScore, SignedResult, now, true);
    var settled := SubmitResult(names, s, r, now, true).1;
    assert SameResult(settled.matches[r.id], r.hash);
    RunIsFinal(names, settled, steps, r.id);
    SameChecks(s.matches[r.id], Run(names, settled, steps).matches[r.id], r);
  }

  /** Mode and seats never change, so of a result's checks only the server's can turn. */
  lemma SameChecks(m: Match, m': Match, r: Result)
    requires SignedError(m, r).None? && m'.mode == m.mode && m'.seats == m.seats
    ensures SignedError(m', r) == if r.server == m'.server then None else Some(WrongServer)
  {
  }

  /** The same for a callback, whose checks all read what never changes: it is always a duplicate. */
  lemma ReplayedCallbackIsHarmless(names: Names, s: State, c: Callback, now: int, steps: seq<Step>, later: int,
                                   stored: bool)
    requires ApplyCallback(names, s, c, now, true).0.Accepted?
    ensures var after := Run(names, ApplyCallback(names, s, c, now, true).1, steps);
            ApplyCallback(names, after, c, later, stored) == (Duplicate, after)
  {
    var id := TrimSpace(c.id);
    CallbackCases(names, s, c, now, true);
    var settled := ApplyCallback(names, s, c, now, true).1;
    var sealed := s.(matches := s.matches[id := Sealed(s.matches[id], c)]);
    assert CallbackError(s.matches[id], c).None?;
    assert settled == SettleWith(names, sealed, id, ByWinner(WinnerOf(s.matches[id], c)), ResultCallback, now, true);
    SettleElsewhere(names, sealed, id, ByWinner(WinnerOf(s.matches[id], c)), ResultCallback, now, true);
    RunIsFinal(names, settled, steps, id);
  }

  /** In every reachable state a lost settle is the last outcome of its match. */
  lemma LostIsLast(names: Names, s: State, steps: seq<Step>, id: string, i: nat)
    requires Opening(s) && AllClocked(steps) && id in Run(names, s, steps).matches
    requires i < |History(Run(names, s, steps).log, id)| && History(Run(names, s, steps).log, id)[i].Lost?
    ensures i == |History(Run(names, s, steps).log, id)| - 1
    ensures forall user :: TimesPaid(History(Run(names, s, steps).log, id), user) == 0
  {
    RunTells(names, s, steps, id);
    LegalLoss(History(Run(names, s, steps).log, id), i);
  }

  lemma LegalLoss(h: seq<Outcome>, i: nat)
    requires Legal(h) && i < |h| && h[i].Lost?
    ensures i == |h| - 1 && forall user :: TimesPaid(h, user) == 0
  {
    forall user
      ensures TimesPaid(h, user) == 0
    {
      LegalPayments(h, user);
    }
  }

  // ----- the expiry sweep -----

  function Expiries(ids: seq<string>, now: int, stored: string -> bool): (steps: seq<Step>)
    ensures |steps| == |ids|
    ensures forall i :: 0 <= i < |ids| ==> steps[i] == DoExpire(ids[i], now, stored(ids[i]))
  {
    seq(|ids|, i requires 0 <= i < |ids| => DoExpire(ids[i], now, stored(ids[i])))
  }

  /** One sweep over the allocations, in whatever order, is a run of single expiries. */
  lemma {:induction false} SweepIsRun(names: Names, s: State, ids: seq<string>, now: int, stored: string -> bool)
    ensures Expire(names, s, ids, now, stored) == Run(names, s, Expiries(ids, now, stored))
  {
    if ids != [] {
      var front := ids[..|ids| - 1];
      SweepIsRun(names, s, front, now, stored);
      assert Expiries(ids, now, stored)[..|ids| - 1] == Expiries(front, now, stored);
    }
  }
}
