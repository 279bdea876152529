/**
 * What every interleaving of the lobby's steps keeps: each seat is paid at most once,
 * wallets balance against the payouts, and the world boss loses what matches landed.
 */
module SettlementRuns {
  import opened Text
  import opened Settlement

  // ----- histories -----

  /** The outcomes of one match, in order. */
  function History(log: seq<Outcome>, id: string): (h: seq<Outcome>)
    ensures forall i :: 0 <= i < |h| ==> h[i].id == id
  {
    if log == [] then []
    else
      var last := log[|log| - 1];
      History(log[..|log| - 1], id) + if last.id == id then [last] else []
  }

  lemma HistoryGrows(log: seq<Outcome>, outcome: Outcome, id: string)
    ensures History(log + [outcome], id) == History(log, id) + if outcome.id == id then [outcome] else []
  {
    assert (log + [outcome])[..|log|] == log;
  }

  /**
   * Every possible history: nothing, one outcome, or a flight that the allocation's
   * expiry settled later.
   */
  predicate Legal(h: seq<Outcome>) {
    |h| <= 1 || (|h| == 2 && h[0].Fled? && !h[1].Fled? && h[1].route == Expiry)
  }

  /** The two ended flags of a match, told from its history. */
  predicate Told(m: Match, h: seq<Outcome>) {
    && Legal(h)
    && (m.status.Ended? <==> h != [])
    && (m.endedAt == 0 <==> (h == [] || (|h| == 1 && h[0].Fled?)))
  }

  ghost predicate Histories(s: State) {
    && (forall id :: id in s.matches ==> Told(s.matches[id], History(s.log, id)))
    && (forall id :: id !in s.matches ==> History(s.log, id) == [])
  }

  // ----- the books -----

  function Plus(a: Wallet, b: Wallet): (w: Wallet) { Wallet(a.points + b.points, a.keys + b.keys, a.dust + b.dust) }

  const EMPTY: Wallet := Wallet(0, 0, 0)

  function Gain(payout: Payout, user: string): (w: Wallet) {
    if payout.user == user then Credit(EMPTY, payout.rewards) else EMPTY
  }

  function PaidTo(payouts: seq<Payout>, user: string): (w: Wallet) {
    if payouts == [] then EMPTY
    else Plus(PaidTo(payouts[..|payouts| - 1], user), Gain(payouts[|payouts| - 1], user))
  }

  /** All a user ever earned from matches. */
  function Earned(log: seq<Outcome>, user: string): (w: Wallet) {
    if log == [] then EMPTY
    else
      var last := log[|log| - 1];
      Plus(Earned(log[..|log| - 1], user), if last.Scored? then PaidTo(last.payouts, user) else EMPTY)
  }

  ghost predicate Books(s: State, start: map<string, Wallet>) {
    s.wallets.Keys == start.Keys
    && forall u :: u in start ==> s.wallets[u] == Plus(start[u], Earned(s.log, u))
  }

  // ----- who sits in a match -----

  predicate Manned(s: State, m: Match) {
    && (forall i :: 0 <= i < |m.ids| ==> m.ids[i] in m.players)
    && (forall u :: u in m.players ==> u in s.wallets)
  }

  ghost predicate AllManned(s: State) { forall id :: id in s.matches ==> Manned(s, s.matches[id]) }

  // ----- settlements shown -----

  /** The settlements on file pay what the payouts paid, seat by seat. */
  ghost predicate Shown(s: State, id: string, ids: seq<string>, payouts: seq<Payout>) {
    && |payouts| == |ids|
    && forall i :: 0 <= i < |ids| ==>
         (id, ids[i]) in s.records && payouts[i] == Payout(ids[i], s.records[(id, ids[i])].rewards)
  }

  ghost predicate ShownFlight(s: State, id: string, ids: seq<string>) {
    forall i :: 0 <= i < |ids| ==> (id, ids[i]) in s.records && s.records[(id, ids[i])].rewards == []
  }

  ghost predicate NoneShown(s: State, id: string) { forall u :: (id, u) !in s.records }

  ghost predicate Filed(s: State, id: string, ids: seq<string>, h: seq<Outcome>) {
    if h != [] && h[|h| - 1].Scored? then Shown(s, id, ids, h[|h| - 1].payouts)
    else if h != [] && h[0].Fled? && h[0].stored then ShownFlight(s, id, ids)
    else NoneShown(s, id)
  }

  ghost predicate AllFiled(s: State) {
    && (forall id :: id in s.matches ==> Filed(s, id, s.matches[id].ids, History(s.log, id)))
    && (forall id :: id !in s.matches ==> NoneShown(s, id))
  }

  // ----- the world-boss ledger -----

  function Landed(hits: seq<Hit>): (total: int) {
    if hits == [] then 0 else Landed(hits[..|hits| - 1]) + hits[|hits| - 1].applied
  }

  /** The hit that took the last health was landed by the match. */
  predicate Felled(hits: seq<Hit>, maxHP: int, id: string) {
    exists k :: 0 <= k < |hits| && hits[k].id == id && Landed(hits[..k]) < maxHP && Landed(hits[..k + 1]) == maxHP
  }

  ghost predicate HitOnce(s: State) {
    && (forall i, j :: 0 <= i < j < |s.hits| ==> s.hits[i].id != s.hits[j].id)
    && (forall i :: 0 <= i < |s.hits| ==>
          s.hits[i].applied >= 0 && s.hits[i].id in s.matches && s.matches[s.hits[i].id].finalized)
  }

  ghost predicate BossLedger(s: State) {
    && 0 < s.boss.maxHP && 0 <= s.boss.currentHP <= s.boss.maxHP
    && s.boss.maxHP - s.boss.currentHP == Landed(s.hits)
    && (s.boss.currentHP == 0 <==> s.boss.defeatedAt != 0)
    && (s.boss.defeatedAt != 0 ==> Felled(s.hits, s.boss.maxHP, s.boss.byMatch))
  }

  ghost predicate Sound(s: State, start: map<string, Wallet>) {
    Histories(s) && Books(s, start) && AllManned(s) && AllFiled(s) && HitOnce(s) && BossLedger(s)
  }

  // ----- writing the seats -----

  lemma {:induction false} SeatsFrame(names: Names, s: State, id: string, m: Match, d: Decision, k: nat)
    requires k <= |m.ids|
    ensures var s' := WriteSeats(names, s, id, m, d, k);
            && s'.matches == s.matches && s'.boss == s.boss && s'.log == s.log && s'.hits == s.hits
            && s'.wallets.Keys == s.wallets.Keys
  {
    if k > 0 {
      SeatsFrame(names, s, id, m, d, k - 1);
    }
  }

  /** The settlements of other matches stay; the first k seats have theirs. */
  ghost predicate SeatsFiled(s: State, s': State, id: string, m: Match, d: Decision, k: nat)
    requires k <= |m.ids|
  {
    && (forall i :: 0 <= i < k ==>
          (id, m.ids[i]) in s'.records && s'.records[(id, m.ids[i])] == RecordOf(m, d, m.ids[i]))
    && (forall key: (string, string) :: key.0 != id ==> (key in s'.records <==> key in s.records))
    && (forall key: (string, string) :: key.0 != id && key in s.records ==> s'.records[key] == s.records[key])
  }

  lemma SeatFiles(names: Names, s: State, id: string, m: Match, d: Decision, user: string)
    requires user in m.players && user in s.wallets
    ensures WriteSeat(names, s, id, m, d, user).records == s.records[(id, user) := RecordOf(m, d, user)]
    ensures !d.ByFlight? ==>
              WriteSeat(names, s, id, m, d, user).wallets ==
                s.wallets[user := Credit(s.wallets[user], RecordOf(m, d, user).rewards)]
    ensures d.ByFlight? ==> WriteSeat(names, s, id, m, d, user).wallets == s.wallets
  {
  }

  lemma {:induction false} SeatsFile(names: Names, s: State, id: string, m: Match, d: Decision, k: nat)
    requires k <= |m.ids| && Manned(s, m)
    ensures SeatsFiled(s, WriteSeats(names, s, id, m, d, k), id, m, d, k)
  {
    if k > 0 {
      SeatsFile(names, s, id, m, d, k - 1);
      SeatsFrame(names, s, id, m, d, k - 1);
      var before := WriteSeats(names, s, id, m, d, k - 1);
      SeatFiles(names, before, id, m, d, m.ids[k - 1]);
      FiledOneMore(s, before, WriteSeats(names, s, id, m, d, k), id, m, d, k);
    }
  }

  lemma FiledOneMore(s: State, before: State, after: State, id: string, m: Match, d: Decision, k: nat)
    requires 0 < k <= |m.ids| && SeatsFiled(s, before, id, m, d, k - 1)
    requires after.records == before.records[(id, m.ids[k - 1]) := RecordOf(m, d, m.ids[k - 1])]
    ensures SeatsFiled(s, after, id, m, d, k)
  {
  }

  lemma {:induction false} CreditIsPlus(w: Wallet, rewards: seq<Reward>)
    ensures Credit(w, rewards) == Plus(w, Credit(EMPTY, rewards))
  {
    if rewards != [] {
      CreditIsPlus(w, rewards[..|rewards| - 1]);
    }
  }

  lemma PayoutsPrefix(payouts: seq<Payout>, k: nat, user: string)
    requires k < |payouts|
    ensures PaidTo(payouts[..k + 1], user) == Plus(PaidTo(payouts[..k], user), Gain(payouts[k], user))
  {
    assert payouts[..k + 1][..k] == payouts[..k];
  }

  /** The wallet a user holds after one more seat, when the seat is theirs and when it is not. */
  lemma PayOneMore(start: Wallet, paid: Wallet, payout: Payout, user: string)
    ensures Plus(start, Plus(paid, Gain(payout, user))) ==
              if payout.user == user then Credit(Plus(start, paid), payout.rewards) else Plus(start, paid)
  {
    CreditIsPlus(Plus(start, paid), payout.rewards);
  }

  /** The first k seats of a scored match receive exactly their payouts. */
  lemma {:induction false} SeatsPay(names: Names, s: State, id: string, m: Match, d: Decision, k: nat, user: string)
    requires k <= |m.ids| && Manned(s, m) && user in s.wallets && !d.ByFlight?
    ensures user in WriteSeats(names, s, id, m, d, k).wallets
    ensures WriteSeats(names, s, id, m, d, k).wallets[user] == Plus(s.wallets[user], PaidTo(Payouts(m, d)[..k], user))
  {
    if k == 0 {
      assert WriteSeats(names, s, id, m, d, 0) == s;
    } else {
      SeatsPay(names, s, id, m, d, k - 1, user);
      SeatsFrame(names, s, id, m, d, k - 1);
      var before := WriteSeats(names, s, id, m, d, k - 1);
      SeatFiles(names, before, id, m, d, m.ids[k - 1]);
      PayoutsPrefix(Payouts(m, d), k - 1, user);
      PayOneMore(s.wallets[user], PaidTo(Payouts(m, d)[..k - 1], user), Payouts(m, d)[k - 1], user);
    }
  }

  lemma {:induction false} FlightPaysNothing(names: Names, s: State, id: string, m: Match, d: Decision, k: nat)
    requires k <= |m.ids| && d.ByFlight?
    ensures WriteSeats(names, s, id, m, d, k).wallets == s.wallets
  {
    if k > 0 {
      FlightPaysNothing(names, s, id, m, d, k - 1);
    }
  }

  // ----- ending a match keeps the books -----

  /** A match a route may still settle: not ended, or fled and reached by the expiry. */
  predicate Settleable(s: State, id: string, route: Route) {
    id in s.matches && (!s.matches[id].status.Ended? || (s.matches[id].endedAt == 0 && route == Expiry))
  }

  /** Only the one match moves, and only in its ended flags and its world-boss fields. */
  ghost predicate EndsOnly(s: State, s': State, id: string, endedAt: int) {
    && id in s.matches && s'.matches.Keys == s.matches.Keys && s'.wallets.Keys == s.wallets.Keys
    && (forall other :: other in s.matches && other != id ==> s'.matches[other] == s.matches[other])
    && var m' := s'.matches[id];
       m' == s.matches[id].(status := Ended, endedAt := endedAt, finalized := m'.finalized, bossDamage := m'.bossDamage)
  }

  lemma FinalizeFrame(s: State, id: string, now: int)
    requires id in s.matches
    ensures var s' := Finalize(s, id, now);
            && s'.wallets == s.wallets && s'.records == s.records && s'.replays == s.replays && s'.log == s.log
            && s'.matches.Keys == s.matches.Keys
            && (forall other :: other in s.matches && other != id ==> s'.matches[other] == s.matches[other])
            && var m' := s'.matches[id];
               m' == s.matches[id].(finalized := m'.finalized, bossDamage := m'.bossDamage)
  {
  }

  /** The state in which the seats are written. */
  function Prepared(s: State, id: string, d: Decision, endedAt: int, now: int): (s': State)
    requires id in s.matches
  {
    if d.ByWinner? then Marked(s, id, endedAt) else Finalize(Marked(s, id, endedAt), id, now)
  }

  lemma PreparedFrame(s: State, id: string, d: Decision, endedAt: int, now: int)
    requires id in s.matches
    ensures var p := Prepared(s, id, d, endedAt, now);
            && EndsOnly(s, p, id, endedAt)
            && p.wallets == s.wallets && p.records == s.records && p.log == s.log
  {
    FinalizeFrame(Marked(s, id, endedAt), id, now);
  }

  /** A settle in one line: prepare, write every seat, log the outcome. */
  lemma SettleShape(names: Names, s: State, id: string, d: Decision, route: Route, now: int)
    requires id in s.matches && !d.ByFlight?
    ensures var m := Marked(s, id, now).matches[id];
            var written := WriteSeats(names, Prepared(s, id, d, now, now), id, m, d, |m.ids|);
            && SettleWith(names, s, id, d, route, now, true) ==
                 written.(log := s.log + [Scored(id, route, Payouts(m, d))])
            && EndsOnly(s, written, id, now) && written.log == s.log
            && written.boss == Prepared(s, id, d, now, now).boss && written.hits == Prepared(s, id, d, now, now).hits
  {
    var m := Marked(s, id, now).matches[id];
    PreparedFrame(s, id, d, now, now);
    SeatsFrame(names, Prepared(s, id, d, now, now), id, m, d, |m.ids|);
  }

  lemma FleeShape(names: Names, s: State, id: string, leaver: string, both: bool, now: int)
    requires id in s.matches && !s.matches[id].status.Ended?
    ensures var at := s.matches[id].endedAt;
            var m := Marked(s, id, at).matches[id];
            var d := ByFlight(leaver, both);
            var written := WriteSeats(names, Prepared(s, id, d, at, now), id, m, d, |m.ids|);
            && FleeWith(names, s, id, leaver, both, now, true) == written.(log := s.log + [Fled(id, true)])
            && EndsOnly(s, written, id, at) && written.log == s.log
            && written.boss == Prepared(s, id, d, at, now).boss && written.hits == Prepared(s, id, d, at, now).hits
  {
    var at := s.matches[id].endedAt;
    var m := Marked(s, id, at).matches[id];
    var d := ByFlight(leaver, both);
    PreparedFrame(s, id, d, at, now);
    SeatsFrame(names, Prepared(s, id, d, at, now), id, m, d, |m.ids|);
  }

  lemma ToldOnce(m: Match, m': Match, h: seq<Outcome>, outcome: Outcome)
    requires Told(m, h) && m'.status.Ended?
    requires if outcome.Fled? then !m.status.Ended? && m'.endedAt == 0
             else m'.endedAt != 0 && (!m.status.Ended? || (m.endedAt == 0 && outcome.route == Expiry))
    ensures Told(m', h + [outcome])
  {
    if m.status.Ended? {
      assert |h| == 1;
      assert (h + [outcome])[0] == h[0] && (h + [outcome])[1] == outcome;
    } else {
      assert h == [];
    }
  }

  /** One more outcome of one match keeps every history legal. */
  lemma HistoriesGrow(s: State, s': State, id: string, endedAt: int, outcome: Outcome)
    requires Histories(s) && EndsOnly(s, s', id, endedAt) && outcome.id == id
    requires s'.log == s.log + [outcome]
    requires if outcome.Fled? then !s.matches[id].status.Ended? && endedAt == 0
             else Settleable(s, id, outcome.route) && endedAt != 0
    ensures Histories(s')
  {
    forall other
      ensures History(s'.log, other) == History(s.log, other) + if other == id then [outcome] else []
    {
      HistoryGrows(s.log, outcome, other);
    }
    ToldOnce(s.matches[id], s'.matches[id], History(s.log, id), outcome);
    forall other | other in s.matches
      ensures Told(s'.matches[other], History(s'.log, other))
    {
      if other != id {
        assert History(s'.log, other) == History(s.log, other);
      }
    }
  }

  lemma EarnedGrows(log: seq<Outcome>, outcome: Outcome, user: string)
    ensures Earned(log + [outcome], user) ==
              Plus(Earned(log, user), if outcome.Scored? then PaidTo(outcome.payouts, user) else EMPTY)
  {
    assert (log + [outcome])[..|log|] == log;
  }

  lemma PlusChains(a: Wallet, b: Wallet, c: Wallet)
    ensures Plus(Plus(a, b), c) == Plus(a, Plus(b, c)) && Plus(a, EMPTY) == a
  {
  }

  /** An outcome that pays nothing leaves the books balanced. */
  lemma BooksUnpaid(s: State, s': State, start: map<string, Wallet>, outcome: Outcome)
    requires Books(s, start) && !outcome.Scored? && s'.wallets == s.wallets && s'.log == s.log + [outcome]
    ensures Books(s', start)
  {
    forall u | u in start
      ensures Earned(s'.log, u) == Earned(s.log, u)
    {
      EarnedGrows(s.log, outcome, u);
    }
  }

  lemma SettleBooks(names: Names, s: State, start: map<string, Wallet>, id: string, d: Decision, route: Route, now: int)
    requires Books(s, start) && AllManned(s) && id in s.matches && !d.ByFlight?
    ensures Books(SettleWith(names, s, id, d, route, now, true), start)
  {
    var m := Marked(s, id, now).matches[id];
    var p := Prepared(s, id, d, now, now);
    SettleShape(names, s, id, d, route, now);
    PreparedFrame(s, id, d, now, now);
    var outcome := Scored(id, route, Payouts(m, d));
    assert Manned(s, s.matches[id]);
    forall u | u in start
      ensures WriteSeats(names, p, id, m, d, |m.ids|).wallets[u] == Plus(start[u], Earned(s.log + [outcome], u))
    {
      SeatsPay(names, p, id, m, d, |m.ids|, u);
      assert Payouts(m, d)[..|m.ids|] == Payouts(m, d);
      EarnedGrows(s.log, outcome, u);
      PlusChains(start[u], Earned(s.log, u), PaidTo(Payouts(m, d), u));
    }
  }

  lemma MannedAfter(s: State, s': State, id: string, endedAt: int)
    requires AllManned(s) && EndsOnly(s, s', id, endedAt)
    ensures AllManned(s')
  {
    forall other | other in s'.matches
      ensures Manned(s', s'.matches[other])
    {
      assert Manned(s, s.matches[other]);
    }
  }

  // ----- the settlements on file -----

  /** Writing one match's seats leaves every other match's settlements as filed. */
  lemma FiledOther(s: State, s': State, id: string, outcome: Outcome, other: string)
    requires AllFiled(s) && other != id && outcome.id == id && other in s.matches && other in s'.matches
    requires s'.log == s.log + [outcome] && s'.matches[other].ids == s.matches[other].ids
    requires forall u :: (other, u) in s'.records <==> (other, u) in s.records
    requires forall u :: (other, u) in s.records ==> s'.records[(other, u)] == s.records[(other, u)]
    ensures Filed(s', other, s'.matches[other].ids, History(s'.log, other))
  {
    HistoryGrows(s.log, outcome, other);
    assert Filed(s, other, s.matches[other].ids, History(s.log, other));
  }

  ghost predicate SameElsewhere(s: State, s': State, id: string) {
    && (forall other: string, u: string :: other != id ==> ((other, u) in s'.records <==> (other, u) in s.records))
    && (forall other: string, u: string :: other != id && (other, u) in s.records ==>
          s'.records[(other, u)] == s.records[(other, u)])
  }

  lemma AllFiledAfter(s: State, s': State, id: string, endedAt: int, outcome: Outcome)
    requires AllFiled(s) && EndsOnly(s, s', id, endedAt) && outcome.id == id
    requires s'.log == s.log + [outcome] && SameElsewhere(s, s', id)
    requires Filed(s', id, s.matches[id].ids, History(s.log, id) + [outcome])
    ensures AllFiled(s')
  {
    HistoryGrows(s.log, outcome, id);
    forall other | other in s'.matches
      ensures Filed(s', other, s'.matches[other].ids, History(s'.log, other))
    {
      if other != id {
        FiledOther(s, s', id, outcome, other);
      }
    }
    forall other | other !in s'.matches
      ensures NoneShown(s', other)
    {
      assert NoneShown(s, other);
    }
  }

  lemma SettleFiles(names: Names, s: State, id: string, d: Decision, route: Route, now: int)
    requires AllFiled(s) && AllManned(s) && id in s.matches && !d.ByFlight?
    ensures AllFiled(SettleWith(names, s, id, d, route, now, true))
  {
    var m := Marked(s, id, now).matches[id];
    var p := Prepared(s, id, d, now, now);
    var s' := SettleWith(names, s, id, d, route, now, true);
    SettleShape(names, s, id, d, route, now);
    PreparedFrame(s, id, d, now, now);
    assert Manned(s, s.matches[id]);
    SeatsFile(names, p, id, m, d, |m.ids|);
    var outcome := Scored(id, route, Payouts(m, d));
    assert Shown(s', id, m.ids, outcome.payouts);
    AllFiledAfter(s, s', id, now, outcome);
  }

  lemma FleeFiles(names: Names, s: State, id: string, leaver: string, both: bool, now: int)
    requires AllFiled(s) && AllManned(s) && Histories(s) && id in s.matches && !s.matches[id].status.Ended?
    ensures AllFiled(FleeWith(names, s, id, leaver, both, now, true))
  {
    var at := s.matches[id].endedAt;
    var m := Marked(s, id, at).matches[id];
    var d := ByFlight(leaver, both);
    var p := Prepared(s, id, d, at, now);
    var s' := FleeWith(names, s, id, leaver, both, now, true);
    FleeShape(names, s, id, leaver, both, now);
    PreparedFrame(s, id, d, at, now);
    assert Manned(s, s.matches[id]);
    SeatsFile(names, p, id, m, d, |m.ids|);
    assert ShownFlight(s', id, m.ids);
    assert Told(s.matches[id], History(s.log, id));
    AllFiledAfter(s, s', id, at, Fled(id, true));
  }

  /** A settle or flight the store refused files nothing. */
  lemma RefusedFiles(s: State, s': State, id: string, endedAt: int, outcome: Outcome)
    requires AllFiled(s) && Histories(s) && EndsOnly(s, s', id, endedAt)
    requires s'.records == s.records && s'.log == s.log + [outcome]
    requires if outcome.Fled? then outcome == Fled(id, false) && !s.matches[id].status.Ended?
             else outcome.Lost? && outcome.id == id && Settleable(s, id, outcome.route)
    ensures AllFiled(s')
  {
    var h := History(s.log, id);
    assert Told(s.matches[id], h) && Filed(s, id, s.matches[id].ids, h);
    assert h != [] ==> (h + [outcome])[0] == h[0];
    AllFiledAfter(s, s', id, endedAt, outcome);
  }

  // ----- the ledger -----

  lemma LandedGrows(hits: seq<Hit>, hit: Hit)
    ensures Landed(hits + [hit]) == Landed(hits) + hit.applied
  {
    assert (hits + [hit])[..|hits|] == hits;
  }

  /** Damage taken off the boss: never below zero, and the stamp exactly when nothing is left. */
  lemma StrikeKeeps(boss: WorldBoss, m: Match, id: string, damage: nat, now: int)
    requires 0 <= boss.currentHP && now != 0 && (boss.currentHP == 0 <==> boss.defeatedAt != 0)
    ensures var (b, applied) := Strike(boss, m, id, damage, now);
            && b.maxHP == boss.maxHP && applied == Min(boss.currentHP, damage)
            && b.currentHP == boss.currentHP - applied && 0 <= b.currentHP && 0 <= applied
            && (b.currentHP == 0 <==> b.defeatedAt != 0)
            && (boss.defeatedAt != 0 ==> b == boss)
            && (boss.defeatedAt == 0 && b.defeatedAt != 0 ==> b.byMatch == id && b.defeatedAt == now && applied > 0)
  {
  }

  lemma FelledStays(hits: seq<Hit>, hit: Hit, maxHP: int, id: string)
    requires Felled(hits, maxHP, id)
    ensures Felled(hits + [hit], maxHP, id)
  {
    var k :| 0 <= k < |hits| && hits[k].id == id && Landed(hits[..k]) < maxHP && Landed(hits[..k + 1]) == maxHP;
    assert (hits + [hit])[..k] == hits[..k] && (hits + [hit])[..k + 1] == hits[..k + 1];
    assert (hits + [hit])[k] == hits[k];
  }

  lemma FelledNow(hits: seq<Hit>, hit: Hit, maxHP: int)
    requires Landed(hits) < maxHP && Landed(hits) + hit.applied == maxHP
    ensures Felled(hits + [hit], maxHP, hit.id)
  {
    LandedGrows(hits, hit);
    var all := hits + [hit];
    assert all[..|hits|] == hits && all[..|hits| + 1] == all && all[|hits|] == hit;
  }

  lemma FinalizeKeepsLedger(s: State, id: string, now: int)
    requires BossLedger(s) && id in s.matches && now != 0
    ensures BossLedger(Finalize(s, id, now))
  {
    var m := s.matches[id];
    if m.mode == "world_boss" && !m.finalized {
      var damage := Min(TotalDamage(m), m.bossMaxHP);
      StrikeKeeps(s.boss, m, id, damage, now);
      var (boss, applied) := Strike(s.boss, m, id, damage, now);
      var hit := Hit(id, applied);
      assert Finalize(s, id, now).boss == boss && Finalize(s, id, now).hits == s.hits + [hit];
      LandedGrows(s.hits, hit);
      if s.boss.defeatedAt != 0 {
        FelledStays(s.hits, hit, boss.maxHP, boss.byMatch);
      } else if boss.defeatedAt != 0 {
        FelledNow(s.hits, hit, boss.maxHP);
      }
    }
  }

  lemma FinalizeHitsOnce(s: State, id: string, now: int)
    requires HitOnce(s) && BossLedger(s) && id in s.matches && now != 0
    ensures HitOnce(Finalize(s, id, now))
  {
    var m := s.matches[id];
    if m.mode == "world_boss" && !m.finalized {
      StrikeKeeps(s.boss, m, id, Min(TotalDamage(m), m.bossMaxHP), now);
      FinalizeFrame(s, id, now);
      assert forall i :: 0 <= i < |s.hits| ==> s.hits[i].id != id;
    }
  }

  lemma PreparedLedger(s: State, id: string, d: Decision, endedAt: int, now: int)
    requires BossLedger(s) && HitOnce(s) && id in s.matches && now != 0
    ensures BossLedger(Prepared(s, id, d, endedAt, now)) && HitOnce(Prepared(s, id, d, endedAt, now))
  {
    var marked := Marked(s, id, endedAt);
    assert BossLedger(marked) && HitOnce(marked);
    FinalizeKeepsLedger(marked, id, now);
    FinalizeHitsOnce(marked, id, now);
  }

  // ----- ending a match keeps everything -----

  /** The ledger reads the boss, the hits and the finalized flags alone. */
  lemma LedgerTransfers(p: State, s: State)
    requires BossLedger(p) && HitOnce(p)
    requires s.boss == p.boss && s.hits == p.hits && p.matches.Keys == s.matches.Keys
    requires forall id :: id in p.matches ==> s.matches[id].finalized == p.matches[id].finalized
    ensures BossLedger(s) && HitOnce(s)
  {
  }

  /** What a stored settle logs, and which matches, boss and hits it leaves. */
  lemma SettleEffect(names: Names, s: State, id: string, d: Decision, route: Route, now: int)
    requires id in s.matches && !d.ByFlight?
    ensures var s' := SettleWith(names, s, id, d, route, now, true);
            var p := Prepared(s, id, d, now, now);
            && EndsOnly(s, s', id, now) && s'.boss == p.boss && s'.hits == p.hits && s'.matches == p.matches
            && s'.log == s.log + [Scored(id, route, Payouts(Marked(s, id, now).matches[id], d))]
  {
    var m := Marked(s, id, now).matches[id];
    SettleShape(names, s, id, d, route, now);
    SeatsFrame(names, Prepared(s, id, d, now, now), id, m, d, |m.ids|);
  }

  lemma SettleKeeps(names: Names, s: State, start: map<string, Wallet>, id: string, d: Decision, route: Route,
                    now: int, stored: bool)
    requires Sound(s, start) && Settleable(s, id, route) && !d.ByFlight? && now != 0
    ensures Sound(SettleWith(names, s, id, d, route, now, stored), start)
  {
    if stored {
      SettleStoredKeeps(names, s, start, id, d, route, now);
    } else {
      RefusedKeeps(s, start, id, now, Lost(id, route));
    }
  }

  lemma SettleStoredKeeps(names: Names, s: State, start: map<string, Wallet>, id: string, d: Decision, route: Route,
                          now: int)
    requires Sound(s, start) && Settleable(s, id, route) && !d.ByFlight? && now != 0
    ensures Sound(SettleWith(names, s, id, d, route, now, true), start)
  {
    var s' := SettleWith(names, s, id, d, route, now, true);
    SettleBooks(names, s, start, id, d, route, now);
    SettleFiles(names, s, id, d, route, now);
    SettleEffect(names, s, id, d, route, now);
    PreparedLedger(s, id, d, now, now);
    LedgerTransfers(Prepared(s, id, d, now, now), s');
    HistoriesGrow(s, s', id, now, Scored(id, route, Payouts(Marked(s, id, now).matches[id], d)));
    MannedAfter(s, s', id, now);
  }

  /** A settle or flight the match store refused: the flags are set, nothing else moves. */
  lemma RefusedEffect(s: State, id: string, endedAt: int, outcome: Outcome)
    requires id in s.matches
    ensures var s' := Marked(s, id, endedAt).(log := s.log + [outcome]);
            && EndsOnly(s, s', id, endedAt) && s'.wallets == s.wallets && s'.records == s.records
            && s'.boss == s.boss && s'.hits == s.hits
            && forall other :: other in s.matches ==> s'.matches[other].finalized == s.matches[other].finalized
  {
  }

  lemma RefusedKeeps(s: State, start: map<string, Wallet>, id: string, endedAt: int, outcome: Outcome)
    requires Sound(s, start) && id in s.matches
    requires if outcome.Fled? then outcome == Fled(id, false) && !s.matches[id].status.Ended? && endedAt == 0
             else outcome.Lost? && outcome.id == id && Settleable(s, id, outcome.route) && endedAt != 0
    ensures Sound(Marked(s, id, endedAt).(log := s.log + [outcome]), start)
  {
    var s' := Marked(s, id, endedAt).(log := s.log + [outcome]);
    RefusedEffect(s, id, endedAt, outcome);
    HistoriesGrow(s, s', id, endedAt, outcome);
    BooksUnpaid(s, s', start, outcome);
    RefusedFiles(s, s', id, endedAt, outcome);
    LedgerTransfers(s, s');
    MannedAfter(s, s', id, endedAt);
  }

  lemma FleeKeeps(names: Names, s: State, start: map<string, Wallet>, id: string, leaver: string, both: bool,
                  now: int, stored: bool)
    requires Sound(s, start) && id in s.matches && now != 0
    ensures Sound(FleeWith(names, s, id, leaver, both, now, stored), start)
  {
    if !s.matches[id].status.Ended? {
      assert Told(s.matches[id], History(s.log, id));
      if stored {
        FleeStoredKeeps(names, s, start, id, leaver, both, now);
      } else {
        RefusedKeeps(s, start, id, 0, Fled(id, false));
      }
    }
  }

  lemma FleeEffect(names: Names, s: State, id: string, leaver: string, both: bool, now: int)
    requires id in s.matches && !s.matches[id].status.Ended?
    ensures var s' := FleeWith(names, s, id, leaver, both, now, true);
            var at := s.matches[id].endedAt;
            var p := Prepared(s, id, ByFlight(leaver, both), at, now);
            && EndsOnly(s, s', id, at) && s'.boss == p.boss && s'.hits == p.hits && s'.matches == p.matches
            && s'.wallets == s.wallets && s'.log == s.log + [Fled(id, true)]
  {
    var at := s.matches[id].endedAt;
    var m := Marked(s, id, at).matches[id];
    var d := ByFlight(leaver, both);
    FleeShape(names, s, id, leaver, both, now);
    PreparedFrame(s, id, d, at, now);
    SeatsFrame(names, Prepared(s, id, d, at, now), id, m, d, |m.ids|);
    FlightPaysNothing(names, Prepared(s, id, d, at, now), id, m, d, |m.ids|);
  }

  lemma FleeStoredKeeps(names: Names, s: State, start: map<string, Wallet>, id: string, leaver: string, both: bool,
                        now: int)
    requires Sound(s, start) && id in s.matches && now != 0
    requires !s.matches[id].status.Ended? && s.matches[id].endedAt == 0
    ensures Sound(FleeWith(names, s, id, leaver, both, now, true), start)
  {
    var s' := FleeWith(names, s, id, leaver, both, now, true);
    FleeFiles(names, s, id, leaver, both, now);
    FleeEffect(names, s, id, leaver, both, now);
    PreparedLedger(s, id, ByFlight(leaver, both), 0, now);
    LedgerTransfers(Prepared(s, id, ByFlight(leaver, both), 0, now), s');
    HistoriesGrow(s, s', id, 0, Fled(id, true));
    BooksUnpaid(s, s', start, Fled(id, true));
    MannedAfter(s, s', id, 0);
  }

  // ----- the steps that end nothing -----

  /** What the invariants read of a match. */
  predicate Alike(m: Match, m': Match) {
    && m'.ids == m.ids && m'.players.Keys == m.players.Keys && m'.endedAt == m.endedAt
    && m'.finalized == m.finalized && (m'.status.Ended? <==> m.status.Ended?)
  }

  ghost predicate Calm(s: State, s': State) {
    && s' == s.(matches := s'.matches)
    && (forall id :: id in s.matches ==> id in s'.matches && Alike(s.matches[id], s'.matches[id]))
    && (forall id :: id in s'.matches && id !in s.matches ==>
          Manned(s', s'.matches[id]) && s'.matches[id].status.Loading? && s'.matches[id].endedAt == 0)
  }

  lemma CalmKeepsHistories(s: State, s': State)
    requires Histories(s) && Calm(s, s')
    ensures Histories(s')
  {
    forall id | id in s'.matches
      ensures Told(s'.matches[id], History(s'.log, id))
    {
      if id in s.matches {
        assert Told(s.matches[id], History(s.log, id));
      }
    }
  }

  lemma CalmKeepsFiles(s: State, s': State)
    requires Histories(s) && AllFiled(s) && Calm(s, s')
    ensures AllFiled(s')
  {
    forall id | id in s'.matches
      ensures Filed(s', id, s'.matches[id].ids, History(s'.log, id))
    {
      if id in s.matches {
        assert Filed(s, id, s.matches[id].ids, History(s.log, id));
      } else {
        assert NoneShown(s, id);
      }
    }
    forall id | id !in s'.matches
      ensures NoneShown(s', id)
    {
      assert NoneShown(s, id);
    }
  }

  lemma CalmKeepsManned(s: State, s': State)
    requires AllManned(s) && Calm(s, s')
    ensures AllManned(s')
  {
    forall id | id in s'.matches
      ensures Manned(s', s'.matches[id])
    {
      if id in s.matches {
        assert Manned(s, s.matches[id]);
      }
    }
  }

  lemma CalmKeeps(s: State, s': State, start: map<string, Wallet>)
    requires Sound(s, start) && Calm(s, s')
    ensures Sound(s', start)
  {
    CalmKeepsHistories(s, s');
    CalmKeepsFiles(s, s');
    CalmKeepsManned(s, s');
  }

  /** Replacing one match by an alike one. */
  lemma PutIsCalm(s: State, id: string, m: Match)
    requires id in s.matches && Alike(s.matches[id], m)
    ensures Calm(s, s.(matches := s.matches[id := m]))
  {
  }

  lemma PutKeeps(s: State, start: map<string, Wallet>, id: string, m: Match)
    requires Sound(s, start) && id in s.matches && Alike(s.matches[id], m)
    ensures Sound(s.(matches := s.matches[id := m]), start)
  {
    PutIsCalm(s, id, m);
    CalmKeeps(s, s.(matches := s.matches[id := m]), start);
  }

  lemma ScoreAlike(m: Match, user: string, score: nat, graze: nat)
    requires user in m.players
    ensures Alike(m, AddScore(m, user, score, graze))
  {
    assert AddScore(m, user, score, graze).players.Keys == m.players.Keys;
  }

  lemma DamageAlike(m: Match, user: string, damage: int)
    requires user in m.players
    ensures Alike(m, Damage(m, user, damage))
  {
    assert Damage(m, user, damage).players.Keys == m.players.Keys;
  }

  lemma SteerAlike(m: Match, user: string, packet: Packet)
    requires user in m.players
    ensures Alike(m, Steer(m, user, packet))
  {
    var moved := m.(players := m.players[user := m.players[user].(lastSeq := packet.seqNo)],
                    tick := Max(m.tick, packet.tick));
    assert moved.players.Keys == m.players.Keys;
    ScoreAlike(moved, user, 3, 1);
    ScoreAlike(if packet.slow then AddScore(moved, user, 3, 1) else moved, user, 5, 0);
  }

  lemma InputAlike(m: Match, user: string, packet: Packet)
    requires user in m.players
    ensures Alike(m, ApplyInput(m, user, packet))
  {
    SteerAlike(m, user, packet);
    var steered := Steer(m, user, packet);
    ScoreAlike(steered, user, 2, 0);
    DamageAlike(AddScore(steered, user, 2, 0), user, 35);
    var bombed := Bomb(steered, user, packet.bomb);
    CardAlike(bombed, user, packet.card);
    var played := Card(bombed, user, packet.card);
    ScoreAlike(played, user, 1, 0);
    DamageAlike(AddScore(played, user, 1, 0), user, 4);
  }

  lemma CardAlike(m: Match, user: string, card: Option<(int, nat)>)
    requires user in m.players
    ensures Alike(m, Card(m, user, card))
  {
    if card.Some? {
      ScoreAlike(m, user, card.value.1, 0);
      DamageAlike(AddScore(m, user, card.value.1, 0), user, card.value.0);
    }
  }

  lemma CreateIsCalm(names: Names, s: State, id: string, mode: string, participants: seq<string>,
                     catalogHP: Option<nat>, roomHP: nat, server: string, now: int)
    ensures Calm(s, Create(names, s, id, mode, participants, catalogHP, roomHP, server, now))
  {
  }

  /** A player's own fields change, and the match may start running. */
  lemma PlayerAlike(m: Match, user: string, p: Player)
    requires user in m.players && !m.status.Ended?
    ensures Alike(m, m.(players := m.players[user := p]))
    ensures Alike(m, m.(players := m.players[user := p], status := Running))
  {
    assert m.players[user := p].Keys == m.players.Keys;
  }

  // ----- every run -----

  datatype Step =
    | DoCreate(id: string, mode: string, participants: seq<string>, catalogHP: Option<nat>, roomHP: nat, server: string,
               now: int)
    | DoReady(id: string, user: string)
    | DoInput(id: string, user: string, packet: Packet)
    | DoContact(id: string, user: string, hit: bool)
    | DoDisconnect(id: string, user: string, now: int)
    | DoReconnect(id: string, user: string, now: int)
    | DoBind(id: string, server: string, now: int)
    | DoSettle(id: string, user: string, now: int, stored: bool)
    | DoResult(result: Result, now: int, stored: bool)
    | DoCallback(callback: Callback, now: int, stored: bool)
    | DoAbandon(id: string, user: string, now: int, stored: bool)
    | DoEvents(id: string, server: string, cards: set<string>, rows: seq<Row>, within: bool, now: int, stored: bool)
    | DoExpire(id: string, now: int, stored: bool)

  function Apply(names: Names, s: State, step: Step): (s': State) {
    match step
    case DoCreate(id, mode, participants, catalogHP, roomHP, server, now) =>
      Create(names, s, id, mode, participants, catalogHP, roomHP, server, now)
    case DoReady(id, user) => Ready(s, id, user).1
    case DoInput(id, user, packet) => SubmitInput(s, id, user, packet).1
    case DoContact(id, user, hit) => Contact(s, id, user, hit)
    case DoDisconnect(id, user, now) => Disconnect(s, id, user, now).1
    case DoReconnect(id, user, now) => Reconnect(s, id, user, now).1
    case DoBind(id, server, now) => Bind(s, id, server, now)
    case DoSettle(id, user, now, stored) => SettleMatch(names, s, id, user, now, stored).1
    case DoResult(result, now, stored) => SubmitResult(names, s, result, now, stored).1
    case DoCallback(callback, now, stored) => ApplyCallback(names, s, callback, now, stored).1
    case DoAbandon(id, user, now, stored) => Abandon(names, s, id, user, now, stored).1
    case DoEvents(id, server, cards, rows, within, now, stored) =>
      SubmitEvents(names, s, id, server, cards, rows, within, now, stored).1
    case DoExpire(id, now, stored) => ExpireOne(names, s, id, now, stored)
  }

  /** The clock never reads the unset time. */
  predicate Clocked(step: Step) {
    match step
    case DoSettle(_, _, now, _) => now != 0
    case DoResult(_, now, _) => now != 0
    case DoCallback(_, now, _) => now != 0
    case DoAbandon(_, _, now, _) => now != 0
    case DoEvents(_, _, _, _, _, now, _) => now != 0
    case DoExpire(_, now, _) => now != 0
    case _ => true
  }

  lemma CreateKeeps(names: Names, s: State, start: map<string, Wallet>, step: Step)
    requires Sound(s, start) && step.DoCreate?
    ensures Sound(Apply(names, s, step), start)
  {
    CreateIsCalm(names, s, step.id, step.mode, step.participants, step.catalogHP, step.roomHP, step.server, step.now);
    CalmKeeps(s, Apply(names, s, step), start);
  }

  lemma WithPlayerKeeps(s: State, start: map<string, Wallet>, id: string, user: string, p: Player)
    requires Sound(s, start) && Guard(s, id, user).None?
    ensures Sound(WithPlayer(s, id, user, p), start)
  {
    PlayerAlike(s.matches[id], user, p);
    PutKeeps(s, start, id, s.matches[id].(players := s.matches[id].players[user := p]));
  }

  lemma ReadyKeeps(s: State, start: map<string, Wallet>, id: string, user: string)
    requires Sound(s, start)
    ensures Sound(Ready(s, id, user).1, start)
  {
    if Guard(s, id, user).None? {
      var p := s.matches[id].players[user].(ready := true);
      var readied := WithPlayer(s, id, user, p);
      WithPlayerKeeps(s, start, id, user, p);
      PutKeeps(readied, start, id, readied.matches[id].(status := Running));
    }
  }

  lemma DropKeeps(s: State, start: map<string, Wallet>, id: string, user: string, now: int)
    requires Sound(s, start)
    ensures Sound(Disconnect(s, id, user, now).1, start) && Sound(Reconnect(s, id, user, now).1, start)
  {
    if Guard(s, id, user).None? {
      var p := s.matches[id].players[user];
      WithPlayerKeeps(s, start, id, user, p.(connected := false, droppedAt := now));
      WithPlayerKeeps(s, start, id, user, p.(connected := true, droppedAt := 0));
    }
  }

  lemma ContactKeeps(s: State, start: map<string, Wallet>, id: string, user: string, hit: bool)
    requires Sound(s, start)
    ensures Sound(Contact(s, id, user, hit), start)
  {
    if Guard(s, id, user).None? && s.matches[id].status.Running? {
      WithPlayerKeeps(s, start, id, user, Contact(s, id, user, hit).matches[id].players[user]);
    }
  }

  lemma InputKeeps(names: Names, s: State, start: map<string, Wallet>, id: string, user: string, packet: Packet)
    requires Sound(s, start)
    ensures Sound(SubmitInput(s, id, user, packet).1, start)
  {
    if SubmitInput(s, id, user, packet).0.None? {
      InputAlike(s.matches[id], user, packet);
      PutKeeps(s, start, id, ApplyInput(s.matches[id], user, packet));
    }
  }

  lemma BindKeeps(s: State, start: map<string, Wallet>, id: string, server: string, now: int)
    requires Sound(s, start)
    ensures Sound(Bind(s, id, server, now), start)
  {
    if id in s.matches {
      PutKeeps(s, start, id, Bind(s, id, server, now).matches[id]);
    }
  }

  lemma ResultKeeps(names: Names, s: State, start: map<string, Wallet>, r: Result, now: int, stored: bool)
    requires Sound(s, start) && now != 0
    ensures Sound(SubmitResult(names, s, r, now, stored).1, start)
  {
    if r.id in s.matches && SignedError(s.matches[r.id], r).None? && s.matches[r.id].status.Running? {
      var sealed := s.matches[r.id].(hash := r.hash);
      PutKeeps(s, start, r.id, sealed);
      SettleKeeps(names, s.(matches := s.matches[r.id := sealed]), start, r.id, ByScore, SignedResult, now, stored);
    }
  }

  /** The match a callback is about to settle, and its winner. */
  function Sealed(m: Match, c: Callback): (m': Match) {
    m.(players := Overwrite(m.players, m.seats, c.entries), hash := TrimSpace(c.hash))
  }

  function WinnerOf(m: Match, c: Callback): (user: string) {
    if TrimSpace(c.winner) == "" then "" else UserOf(m.seats, TrimSpace(c.winner)).GetOr("")
  }

  /** A callback either changes nothing or settles a running match. */
  lemma CallbackCases(names: Names, s: State, c: Callback, now: int, stored: bool)
    ensures var id := TrimSpace(c.id);
            var s' := ApplyCallback(names, s, c, now, stored).1;
            || s' == s
            || (id in s.matches && s.matches[id].status.Running?
                && s' == SettleWith(names, s.(matches := s.matches[id := Sealed(s.matches[id], c)]), id,
                                    ByWinner(WinnerOf(s.matches[id], c)), ResultCallback, now, stored))
  {
  }

  lemma CallbackKeeps(names: Names, s: State, start: map<string, Wallet>, c: Callback, now: int, stored: bool)
    requires Sound(s, start) && now != 0
    ensures Sound(ApplyCallback(names, s, c, now, stored).1, start)
  {
    var id := TrimSpace(c.id);
    CallbackCases(names, s, c, now, stored);
    if ApplyCallback(names, s, c, now, stored).1 != s {
      var m := Sealed(s.matches[id], c);
      PutKeeps(s, start, id, m);
      SettleKeeps(names, s.(matches := s.matches[id := m]), start, id, ByWinner(WinnerOf(s.matches[id], c)),
                  ResultCallback, now, stored);
    }
  }

  lemma AbandonKeeps(names: Names, s: State, start: map<string, Wallet>, id: string, user: string, now: int,
                     stored: bool)
    requires Sound(s, start) && now != 0
    ensures Sound(Abandon(names, s, id, user, now, stored).1, start)
  {
    if Guard(s, id, user).None? {
      var p := s.matches[id].players[user].(connected := false, droppedAt := now, abandoned := true);
      WithPlayerKeeps(s, start, id, user, p);
      FleeKeeps(names, WithPlayer(s, id, user, p), start, id, user, false, now, stored);
    }
  }

  /** A batch of events changes nothing, or appends every row and may end in a mutual flight. */
  lemma EventsCases(names: Names, s: State, id: string, server: string, cards: set<string>, rows: seq<Row>,
                    within: bool, now: int, stored: bool)
    ensures var s' := SubmitEvents(names, s, id, server, cards, rows, within, now, stored).1;
            || s' == s
            || (id in s.matches && s.matches[id].status.Running?
                && var appended := s.(matches := s.matches[id := s.matches[id].(rows := s.matches[id].rows + rows)]);
                   s' == appended || s' == FleeWith(names, appended, id, "", true, now, stored))
  {
  }

  lemma EventsKeep(names: Names, s: State, start: map<string, Wallet>, id: string, server: string, cards: set<string>,
                   rows: seq<Row>, within: bool, now: int, stored: bool)
    requires Sound(s, start) && now != 0
    ensures Sound(SubmitEvents(names, s, id, server, cards, rows, within, now, stored).1, start)
  {
    EventsCases(names, s, id, server, cards, rows, within, now, stored);
    if id in s.matches {
      var m := s.matches[id].(rows := s.matches[id].rows + rows);
      PutKeeps(s, start, id, m);
      FleeKeeps(names, s.(matches := s.matches[id := m]), start, id, "", true, now, stored);
    }
  }

  lemma ClientSettleKeeps(names: Names, s: State, start: map<string, Wallet>, id: string, user: string, now: int,
                          stored: bool)
    requires Sound(s, start) && now != 0
    ensures Sound(SettleMatch(names, s, id, user, now, stored).1, start)
  {
    if id in s.matches && user in s.matches[id].players && !s.matches[id].status.Ended? {
      SettleKeeps(names, s, start, id, ByScore, ClientSettle, now, stored);
    }
  }

  lemma ExpireKeeps(names: Names, s: State, start: map<string, Wallet>, id: string, now: int, stored: bool)
    requires Sound(s, start) && now != 0
    ensures Sound(ExpireOne(names, s, id, now, stored), start)
  {
    if id in s.matches && Stale(s.matches[id], now) {
      SettleKeeps(names, s, start, id, ByScore, Expiry, now, stored);
    }
  }

  lemma StepKeeps(names: Names, s: State, start: map<string, Wallet>, step: Step)
    requires Sound(s, start) && Clocked(step)
    ensures Sound(Apply(names, s, step), start)
  {
    match step
    case DoCreate(_, _, _, _, _, _, _) => CreateKeeps(names, s, start, step);
    case DoInput(id, user, packet) => InputKeeps(names, s, start, id, user, packet);
    case DoBind(id, server, now) => BindKeeps(s, start, id, server, now);
    case DoSettle(id, user, now, stored) => ClientSettleKeeps(names, s, start, id, user, now, stored);
    case DoResult(result, now, stored) => ResultKeeps(names, s, start, result, now, stored);
    case DoCallback(callback, now, stored) => CallbackKeeps(names, s, start, callback, now, stored);
    case DoAbandon(id, user, now, stored) => AbandonKeeps(names, s, start, id, user, now, stored);
    case DoEvents(id, server, cards, rows, within, now, stored) =>
      EventsKeep(names, s, start, id, server, cards, rows, within, now, stored);
    case DoExpire(id, now, stored) => ExpireKeeps(names, s, start, id, now, stored);
    case DoReady(id, user) => ReadyKeeps(s, start, id, user);
    case DoContact(id, user, hit) => ContactKeeps(s, start, id, user, hit);
    case DoDisconnect(id, user, now) => DropKeeps(s, start, id, user, now);
    case DoReconnect(id, user, now) => DropKeeps(s, start, id, user, now);
  }

  function Run(names: Names, s: State, steps: seq<Step>): (s': State) {
    if steps == [] then s else Apply(names, Run(names, s, steps[..|steps| - 1]), steps[|steps| - 1])
  }

  predicate AllClocked(steps: seq<Step>) { forall i :: 0 <= i < |steps| ==> Clocked(steps[i]) }

  /** A lobby without matches and an undamaged world boss. */
  predicate Opening(s: State) {
    && s.matches == map[] && s.records == map[] && s.log == [] && s.hits == []
    && s.boss.maxHP > 0 && s.boss.currentHP == s.boss.maxHP && s.boss.defeatedAt == 0
  }

  /**
   * In every reachable state the histories are legal, the wallets balance against the payouts,
   * the settlements on file show them, and the world boss has lost what matches landed.
   */
  lemma {:induction false} RunIsSound(names: Names, s: State, steps: seq<Step>)
    requires Opening(s) && AllClocked(steps)
    ensures Sound(Run(names, s, steps), s.wallets)
  {
    if steps == [] {
      assert Histories(s) && AllFiled(s) && HitOnce(s) && BossLedger(s);
    } else {
      RunIsSound(names, s, steps[..|steps| - 1]);
      StepKeeps(names, Run(names, s, steps[..|steps| - 1]), s.wallets, steps[|steps| - 1]);
    }
  }
}
