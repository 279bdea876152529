/**
 * The boss of a match: its bar shows exactly the damage the players dealt, a world-boss
 * match lands what its bar lost, and a battle-server callback lands nothing.
 */
module BossBars {
  import opened Text
  import opened Settlement
  import opened SettlementRuns

  /** Only a callback overwrites the damage of the players. */
  predicate CalledBack(h: seq<Outcome>) {
    exists i :: 0 <= i < |h| && !h[i].Fled? && h[i].route == ResultCallback
  }

  /** The bar is the full health less the damage dealt, stopped at zero. */
  predicate BarOK(m: Match) {
    && m.bossHP == Max(0, m.bossMaxHP - TotalDamage(m))
    && (m.finalized ==> m.bossDamage == m.bossMaxHP - m.bossHP)
  }

  predicate Seated(m: Match) { forall u :: u in m.players ==> u in m.ids }

  ghost predicate MeterAt(s: State, id: string)
    requires id in s.matches
  {
    && Seated(s.matches[id]) && (s.matches[id].finalized ==> s.matches[id].status.Ended?)
    && (!CalledBack(History(s.log, id)) ==> BarOK(s.matches[id]))
  }

  ghost predicate Metered(s: State) { forall id :: id in s.matches ==> MeterAt(s, id) }

  // ----- damage -----

  lemma {:induction false} DamageSumUpdate(players: map<string, Player>, users: seq<string>, user: string, p: Player)
    requires NoRepeats(users) && user in players
    ensures DamageSum(players[user := p], users) ==
              DamageSum(players, users) + if user in users then p.damage - players[user].damage else 0
  {
    if users != [] {
      var front, last := users[..|users| - 1], users[|users| - 1];
      DamageSumUpdate(players, front, user, p);
      assert users == front + [last];
      assert last == user ==> user !in front;
    }
  }

  /** A player's update that leaves the damage alone leaves the total alone. */
  lemma SameTotal(m: Match, user: string, p: Player)
    requires user in m.players && p.damage == m.players[user].damage
    ensures TotalDamage(m.(players := m.players[user := p])) == TotalDamage(m)
  {
    DamageSumUpdate(m.players, Roster(m.ids), user, p);
  }

  /** An update of one running match that its bar survives. */
  predicate Steady(m: Match, m': Match) {
    && m'.ids == m.ids && m'.players.Keys == m.players.Keys
    && m'.finalized == m.finalized && m'.bossDamage == m.bossDamage
    && m'.bossMaxHP == m.bossMaxHP && (m.status.Ended? ==> m'.status.Ended?)
    && (!m.finalized && m.bossHP == Max(0, m.bossMaxHP - TotalDamage(m)) ==>
          m'.bossHP == Max(0, m'.bossMaxHP - TotalDamage(m')))
    && (m.finalized ==> m'.bossHP == m.bossHP && TotalDamage(m') == TotalDamage(m))
  }

  lemma SteadyChain(a: Match, b: Match, c: Match)
    requires Steady(a, b) && Steady(b, c)
    ensures Steady(a, c)
  {
  }

  /** Damage counts whole while the boss stands. */
  lemma DamageCounts(m: Match, user: string, damage: int)
    requires Seated(m) && user in m.players && damage > 0 && m.bossHP > 0
    ensures TotalDamage(Damage(m, user, damage)) == TotalDamage(m) + damage
    ensures Damage(m, user, damage).players.Keys == m.players.Keys
  {
    var p := m.players[user].(damage := m.players[user].damage + damage);
    var m' := Damage(m, user, damage);
    assert m'.players == m.players[user := p] && m'.ids == m.ids;
    DamageSumUpdate(m.players, Roster(m.ids), user, p);
  }

  lemma DamageSteady(m: Match, user: string, damage: int)
    requires Seated(m) && user in m.players && !m.finalized
    ensures Steady(m, Damage(m, user, damage)) && Seated(Damage(m, user, damage))
  {
    if damage > 0 && m.bossHP > 0 {
      DamageCounts(m, user, damage);
      var m' := Damage(m, user, damage);
      assert m'.bossHP == Max(0, m.bossHP - damage);
      assert m'.ids == m.ids && m'.bossMaxHP == m.bossMaxHP;
    }
  }

  lemma PlayerSteady(m: Match, user: string, p: Player)
    requires Seated(m) && user in m.players && p.damage == m.players[user].damage
    ensures var m' := m.(players := m.players[user := p]); Steady(m, m') && Seated(m')
  {
    SameTotal(m, user, p);
    assert m.players[user := p].Keys == m.players.Keys;
  }

  lemma ScoreSteady(m: Match, user: string, score: nat, graze: nat)
    requires Seated(m) && user in m.players
    ensures Steady(m, AddScore(m, user, score, graze)) && Seated(AddScore(m, user, score, graze))
  {
    var p := m.players[user];
    PlayerSteady(m, user, p.(score := p.score + score, graze := p.graze + graze));
  }

  lemma SteerSteady(m: Match, user: string, packet: Packet)
    requires Seated(m) && user in m.players
    ensures Steady(m, Steer(m, user, packet)) && Seated(Steer(m, user, packet))
  {
    var p := m.players[user].(lastSeq := packet.seqNo);
    PlayerSteady(m, user, p);
    var moved := m.(players := m.players[user := p], tick := Max(m.tick, packet.tick));
    assert Steady(m, moved) && Seated(moved);
    ScoreSteady(moved, user, 3, 1);
    var slowed := if packet.slow then AddScore(moved, user, 3, 1) else moved;
    ScoreSteady(slowed, user, 5, 0);
  }

  /** A strike of an input: points, then damage. */
  lemma StrikeSteady(m: Match, user: string, score: nat, damage: int)
    requires Seated(m) && user in m.players && !m.finalized
    ensures Steady(m, AddScore(m, user, score, 0)) && Seated(AddScore(m, user, score, 0))
    ensures var m' := Damage(AddScore(m, user, score, 0), user, damage); Steady(m, m') && Seated(m')
  {
    ScoreSteady(m, user, score, 0);
    DamageSteady(AddScore(m, user, score, 0), user, damage);
  }

  /** Bombs, cards and shots: whatever an input does, the bar still shows the damage dealt. */
  lemma InputSteady(m: Match, user: string, packet: Packet)
    requires Seated(m) && user in m.players && !m.finalized
    ensures Steady(m, ApplyInput(m, user, packet)) && Seated(ApplyInput(m, user, packet))
  {
    SteerSteady(m, user, packet);
    var steered := Steer(m, user, packet);
    BlowsSteady(steered, user, packet);
    SteadyChain(m, steered, ApplyInput(m, user, packet));
  }

  lemma BlowsSteady(m: Match, user: string, packet: Packet)
    requires Seated(m) && user in m.players && !m.finalized
    ensures var m' := Shoot(Card(Bomb(m, user, packet.bomb), user, packet.card), user, packet.shoot);
            Steady(m, m') && Seated(m')
  {
    StrikeSteady(m, user, 2, 35);
    var bombed := Bomb(m, user, packet.bomb);
    assert Steady(m, bombed) && Seated(bombed);
    if packet.card.Some? {
      StrikeSteady(bombed, user, packet.card.value.1, packet.card.value.0);
    }
    var played := Card(bombed, user, packet.card);
    assert Steady(bombed, played) && Seated(played);
    StrikeSteady(played, user, 1, 4);
    SteadyChain(m, bombed, played);
    SteadyChain(m, played, Shoot(played, user, packet.shoot));
  }

  // ----- every step -----

  lemma PutMetered(s: State, id: string, m: Match)
    requires Metered(s) && id in s.matches && Steady(s.matches[id], m) && Seated(m)
    ensures Metered(s.(matches := s.matches[id := m]))
  {
    assert MeterAt(s, id);
    forall other | other in s.matches && other != id
      ensures MeterAt(s.(matches := s.matches[id := m]), other)
    {
      assert MeterAt(s, other);
    }
  }

  /** The match that ends: its bar was right, or a callback has just overwritten the damage. */
  ghost predicate Ending(s: State, id: string, outcome: Outcome) {
    && id in s.matches && outcome.id == id && Seated(s.matches[id])
    && ((!outcome.Fled? && outcome.route == ResultCallback) || MeterAt(s, id))
  }

  predicate Landing(m: Match, m': Match) {
    (m'.finalized == m.finalized && m'.bossDamage == m.bossDamage) || m'.bossDamage == Min(TotalDamage(m), m.bossMaxHP)
  }

  lemma CalledBackGrows(h: seq<Outcome>, outcome: Outcome)
    ensures CalledBack(h + [outcome]) <==> CalledBack(h) || (!outcome.Fled? && outcome.route == ResultCallback)
  {
    if CalledBack(h) {
      var i :| 0 <= i < |h| && !h[i].Fled? && h[i].route == ResultCallback;
      assert (h + [outcome])[i] == h[i];
    }
    assert (h + [outcome])[|h|] == outcome;
  }

  lemma EndBar(m: Match, m': Match)
    requires BarOK(m) && Landing(m, m') && m'.status.Ended?
    requires m' == m.(status := m'.status, endedAt := m'.endedAt, finalized := m'.finalized,
                      bossDamage := m'.bossDamage)
    ensures BarOK(m')
  {
    assert TotalDamage(m') == TotalDamage(m);
  }

  lemma EndMetered(s: State, s': State, id: string, endedAt: int, outcome: Outcome)
    requires (forall other :: other in s.matches && other != id ==> MeterAt(s, other)) && Ending(s, id, outcome)
    requires EndsOnly(s, s', id, endedAt) && s'.log == s.log + [outcome] && Landing(s.matches[id], s'.matches[id])
    ensures Metered(s')
  {
    forall other | other in s'.matches
      ensures MeterAt(s', other)
    {
      HistoryGrows(s.log, outcome, other);
      if other == id {
        CalledBackGrows(History(s.log, id), outcome);
        if !CalledBack(History(s'.log, id)) {
          EndBar(s.matches[id], s'.matches[id]);
        }
      } else {
        assert MeterAt(s, other) && History(s'.log, other) == History(s.log, other);
      }
    }
  }

  lemma SettleLands(names: Names, s: State, id: string, d: Decision, route: Route, now: int, stored: bool)
    requires id in s.matches && !d.ByFlight?
    ensures var s' := SettleWith(names, s, id, d, route, now, stored);
            && EndsOnly(s, s', id, now) && Landing(s.matches[id], s'.matches[id])
            && exists outcome: Outcome ::
                 outcome.id == id && !outcome.Fled? && outcome.route == route && s'.log == s.log + [outcome]
  {
    var s' := SettleWith(names, s, id, d, route, now, stored);
    if stored {
      SettleEffect(names, s, id, d, route, now);
      var outcome := Scored(id, route, Payouts(Marked(s, id, now).matches[id], d));
      assert outcome.id == id && !outcome.Fled? && outcome.route == route && s'.log == s.log + [outcome];
    } else {
      var outcome := Lost(id, route);
      assert outcome.id == id && !outcome.Fled? && outcome.route == route && s'.log == s.log + [outcome];
    }
  }

  lemma SettleMetered(names: Names, s: State, id: string, d: Decision, route: Route, now: int, stored: bool)
    requires id in s.matches && !d.ByFlight? && Seated(s.matches[id])
    requires forall other :: other in s.matches && other != id ==> MeterAt(s, other)
    requires route == ResultCallback || MeterAt(s, id)
    ensures Metered(SettleWith(names, s, id, d, route, now, stored))
  {
    SettleLands(names, s, id, d, route, now, stored);
    var s' := SettleWith(names, s, id, d, route, now, stored);
    var outcome: Outcome :| outcome.id == id && !outcome.Fled? && outcome.route == route && s'.log == s.log + [outcome];
    EndMetered(s, s', id, now, outcome);
  }

  lemma FleeMetered(names: Names, s: State, id: string, leaver: string, both: bool, now: int, stored: bool)
    requires Metered(s) && id in s.matches
    ensures Metered(FleeWith(names, s, id, leaver, both, now, stored))
  {
    if !s.matches[id].status.Ended? {
      var s' := FleeWith(names, s, id, leaver, both, now, stored);
      if stored {
        FleeEffect(names, s, id, leaver, both, now);
      }
      assert MeterAt(s, id);
      EndMetered(s, s', id, s.matches[id].endedAt, Fled(id, stored));
    }
  }

  lemma ClientMetered(names: Names, s: State, id: string, user: string, now: int, stored: bool)
    requires Metered(s)
    ensures Metered(SettleMatch(names, s, id, user, now, stored).1)
  {
    if SettleMatch(names, s, id, user, now, stored).1 != s {
      assert MeterAt(s, id);
      SettleMetered(names, s, id, ByScore, ClientSettle, now, stored);
    }
  }

  lemma ExpiryMetered(names: Names, s: State, id: string, now: int, stored: bool)
    requires Metered(s)
    ensures Metered(ExpireOne(names, s, id, now, stored))
  {
    if id in s.matches && Stale(s.matches[id], now) {
      assert MeterAt(s, id);
      SettleMetered(names, s, id, ByScore, Expiry, now, stored);
    }
  }

  /** An update outside players and boss. */
  lemma AsideMetered(s: State, id: string, m: Match)
    requires Metered(s) && id in s.matches
    requires var o := s.matches[id];
             m == o.(hash := m.hash, rows := m.rows, server := m.server, allocatedAt := m.allocatedAt,
                     status := m.status)
             && (o.status.Ended? ==> m.status.Ended?)
    ensures Metered(s.(matches := s.matches[id := m]))
  {
    assert MeterAt(s, id) && TotalDamage(m) == TotalDamage(s.matches[id]);
    PutMetered(s, id, m);
  }

  lemma ResultMetered(names: Names, s: State, r: Result, now: int, stored: bool)
    requires Metered(s)
    ensures Metered(SubmitResult(names, s, r, now, stored).1)
  {
    if SubmitResult(names, s, r, now, stored).1 != s {
      var sealed := s.(matches := s.matches[r.id := s.matches[r.id].(hash := r.hash)]);
      AsideMetered(s, r.id, s.matches[r.id].(hash := r.hash));
      assert MeterAt(sealed, r.id);
      SettleMetered(names, sealed, r.id, ByScore, SignedResult, now, stored);
    }
  }

  lemma CallbackMetered(names: Names, s: State, c: Callback, now: int, stored: bool)
    requires Metered(s)
    ensures Metered(ApplyCallback(names, s, c, now, stored).1)
  {
    CallbackCases(names, s, c, now, stored);
    if ApplyCallback(names, s, c, now, stored).1 != s {
      var id := TrimSpace(c.id);
      var sealed := s.(matches := s.matches[id := Sealed(s.matches[id], c)]);
      assert MeterAt(s, id);
      forall other | other in sealed.matches && other != id
        ensures MeterAt(sealed, other)
      {
        assert MeterAt(s, other);
      }
      SettleMetered(names, sealed, id, ByWinner(WinnerOf(s.matches[id], c)), ResultCallback, now, stored);
    }
  }

  lemma PlayerMetered(s: State, id: string, user: string, p: Player)
    requires Metered(s) && Guard(s, id, user).None? && p.damage == s.matches[id].players[user].damage
    ensures Metered(WithPlayer(s, id, user, p))
  {
    assert MeterAt(s, id);
    PlayerSteady(s.matches[id], user, p);
    PutMetered(s, id, s.matches[id].(players := s.matches[id].players[user := p]));
  }

  lemma AbandonMetered(names: Names, s: State, id: string, user: string, now: int, stored: bool)
    requires Metered(s)
    ensures Metered(Abandon(names, s, id, user, now, stored).1)
  {
    if Guard(s, id, user).None? {
      var p := s.matches[id].players[user].(connected := false, droppedAt := now, abandoned := true);
      PlayerMetered(s, id, user, p);
      FleeMetered(names, WithPlayer(s, id, user, p), id, user, false, now, stored);
    }
  }

  lemma EventsMetered(names: Names, s: State, id: string, server: string, cards: set<string>, rows: seq<Row>,
                      within: bool, now: int, stored: bool)
    requires Metered(s)
    ensures Metered(SubmitEvents(names, s, id, server, cards, rows, within, now, stored).1)
  {
    EventsCases(names, s, id, server, cards, rows, within, now, stored);
    if SubmitEvents(names, s, id, server, cards, rows, within, now, stored).1 != s {
      var m := s.matches[id].(rows := s.matches[id].rows + rows);
      AsideMetered(s, id, m);
      FleeMetered(names, s.(matches := s.matches[id := m]), id, "", true, now, stored);
    }
  }

  lemma ReadyMetered(s: State, id: string, user: string)
    requires Metered(s)
    ensures Metered(Ready(s, id, user).1)
  {
    if Guard(s, id, user).None? {
      var p := s.matches[id].players[user].(ready := true);
      var readied := WithPlayer(s, id, user, p);
      PlayerMetered(s, id, user, p);
      AsideMetered(readied, id, readied.matches[id].(status := Running));
    }
  }

  lemma DropMetered(s: State, id: string, user: string, now: int)
    requires Metered(s)
    ensures Metered(Disconnect(s, id, user, now).1) && Metered(Reconnect(s, id, user, now).1)
  {
    if Guard(s, id, user).None? {
      var p := s.matches[id].players[user];
      PlayerMetered(s, id, user, p.(connected := false, droppedAt := now));
      PlayerMetered(s, id, user, p.(connected := true, droppedAt := 0));
    }
  }

  lemma ContactMetered(s: State, id: string, user: string, hit: bool)
    requires Metered(s)
    ensures Metered(Contact(s, id, user, hit))
  {
    if Guard(s, id, user).None? && s.matches[id].status.Running? {
      PlayerMetered(s, id, user, Contact(s, id, user, hit).matches[id].players[user]);
    }
  }

  lemma CreateMetered(names: Names, s: State, step: Step)
    requires Metered(s) && Histories(s) && step.DoCreate?
    ensures Metered(Apply(names, s, step))
  {
    var s' := Apply(names, s, step);
    forall id | id in s'.matches
      ensures MeterAt(s', id)
    {
      if id in s.matches {
        assert MeterAt(s, id);
      } else {
        NewMatchBar(s'.matches[id]);
      }
    }
  }

  /** A new match: nobody has dealt damage and the bar is full. */
  lemma NewMatchBar(m: Match)
    requires m.bossHP == m.bossMaxHP && !m.finalized
    requires forall u :: u in m.players ==> u in m.ids && m.players[u] == NEWCOMER
    ensures Seated(m) && BarOK(m)
  {
    NoDamageYet(m.players, Roster(m.ids));
  }

  lemma {:induction false} NoDamageYet(players: map<string, Player>, users: seq<string>)
    requires forall u :: u in players ==> players[u].damage == 0
    ensures DamageSum(players, users) == 0
  {
    if users != [] {
      NoDamageYet(players, users[..|users| - 1]);
    }
  }

  lemma InputMetered(s: State, id: string, user: string, packet: Packet)
    requires Metered(s)
    ensures Metered(SubmitInput(s, id, user, packet).1)
  {
    if SubmitInput(s, id, user, packet).0.None? {
      assert MeterAt(s, id);
      InputSteady(s.matches[id], user, packet);
      PutMetered(s, id, ApplyInput(s.matches[id], user, packet));
    }
  }

  lemma StepMetered(names: Names, s: State, step: Step)
    requires Metered(s) && Histories(s)
    ensures Metered(Apply(names, s, step))
  {
    match step
    case DoCreate(_, _, _, _, _, _, _) => CreateMetered(names, s, step);
    case DoReady(id, user) => ReadyMetered(s, id, user);
    case DoInput(id, user, packet) => InputMetered(s, id, user, packet);
    case DoContact(id, user, hit) => ContactMetered(s, id, user, hit);
    case DoDisconnect(id, user, now) => DropMetered(s, id, user, now);
    case DoReconnect(id, user, now) => DropMetered(s, id, user, now);
    case DoBind(id, server, now) =>
      if id in s.matches {
        AsideMetered(s, id, Bind(s, id, server, now).matches[id]);
      }
    case DoSettle(id, user, now, stored) => ClientMetered(names, s, id, user, now, stored);
    case DoResult(r, now, stored) => ResultMetered(names, s, r, now, stored);
    case DoCallback(c, now, stored) => CallbackMetered(names, s, c, now, stored);
    case DoAbandon(id, user, now, stored) => AbandonMetered(names, s, id, user, now, stored);
    case DoEvents(id, server, cards, rows, within, now, stored) =>
      EventsMetered(names, s, id, server, cards, rows, within, now, stored);
    case DoExpire(id, now, stored) => ExpiryMetered(names, s, id, now, stored);
  }

  /**
   * In every reachable state, unless a battle-server callback overwrote the damage: the boss
   * bar is its full health less all damage dealt, and a match that was counted against the
   * world boss was counted with exactly what its bar lost.
   */
  lemma {:induction false} RunIsMetered(names: Names, s: State, steps: seq<Step>)
    requires Opening(s) && AllClocked(steps)
    ensures Metered(Run(names, s, steps))
  {
    if steps != [] {
      var front := steps[..|steps| - 1];
      RunIsMetered(names, s, front);
      RunIsSound(names, s, front);
      StepMetered(names, Run(names, s, front), steps[|steps| - 1]);
    }
  }

  /** A callback pays its players but takes nothing off the world boss. */
  lemma CallbackSparesWorldBoss(names: Names, s: State, c: Callback, now: int, stored: bool)
    ensures ApplyCallback(names, s, c, now, stored).1.boss == s.boss
    ensures ApplyCallback(names, s, c, now, stored).1.hits == s.hits
  {
    CallbackCases(names, s, c, now, stored);
    var s' := ApplyCallback(names, s, c, now, stored).1;
    if s' != s {
      var id := TrimSpace(c.id);
      var sealed := s.(matches := s.matches[id := Sealed(s.matches[id], c)]);
      var d := ByWinner(WinnerOf(s.matches[id], c));
      if stored {
        SettleEffect(names, sealed, id, d, ResultCallback, now);
      }
    }
  }

  /** What an ending takes off the world boss: what the bar lost, as far as the boss has it, and only the first time. */
  function Due(s: State, id: string): (hits: seq<Hit>)
    requires id in s.matches
  {
    var m := s.matches[id];
    if m.mode != "world_boss" || m.finalized then [] else [Hit(id, Min(s.boss.currentHP, m.bossMaxHP - m.bossHP))]
  }

  lemma FinalizeLands(s: State, id: string, now: int)
    requires id in s.matches && BossLedger(s) && BarOK(s.matches[id])
    ensures Finalize(s, id, now).hits == s.hits + Due(s, id)
    ensures Finalize(s, id, now).matches[id].finalized ==
              (s.matches[id].finalized || s.matches[id].mode == "world_boss")
  {
  }

  /** Scores and flights alike land the damage of a world-boss match, once. */
  lemma EndingLandsTheBar(names: Names, s: State, id: string, route: Route, leaver: string, both: bool, now: int)
    requires id in s.matches && BossLedger(s) && BarOK(s.matches[id])
    ensures SettleWith(names, s, id, ByScore, route, now, true).hits == s.hits + Due(s, id)
    ensures !s.matches[id].status.Ended? ==> FleeWith(names, s, id, leaver, both, now, true).hits == s.hits + Due(s, id)
  {
    SettleEffect(names, s, id, ByScore, route, now);
    MarkedLands(s, id, now, now);
    if !s.matches[id].status.Ended? {
      FleeEffect(names, s, id, leaver, both, now);
      MarkedLands(s, id, s.matches[id].endedAt, now);
    }
  }

  lemma MarkedLands(s: State, id: string, endedAt: int, now: int)
    requires id in s.matches && BossLedger(s) && BarOK(s.matches[id])
    ensures Finalize(Marked(s, id, endedAt), id, now).hits == s.hits + Due(s, id)
  {
    var marked := Marked(s, id, endedAt);
    assert TotalDamage(marked.matches[id]) == TotalDamage(s.matches[id]);
    FinalizeLands(marked, id, now);
  }

  // ----- the player who felled the boss -----

  /** The first of the users with the most damage. */
  predicate FirstTop(players: map<string, Player>, users: seq<string>, k: nat)
    requires k < |users|
  {
    && (forall i :: 0 <= i < |users| ==> DamageOf(players, users[i]) <= DamageOf(players, users[k]))
    && (forall i :: 0 <= i < k ==> DamageOf(players, users[i]) < DamageOf(players, users[k]))
  }

  /** The name on the defeat stamp: the most damage, and the smallest id among equals. */
  lemma {:induction false} TopDamageIsTop(players: map<string, Player>, users: seq<string>) returns (top: nat)
    requires users != []
    ensures top < |users| && TopDamage(players, users) == users[top] && FirstTop(players, users, top)
  {
    var n := |users| - 1;
    top := 0;
    if n > 0 {
      var front := users[..n];
      var k := TopDamageIsTop(players, front);
      assert users[k] == front[k];
      top := if DamageOf(players, users[n]) > DamageOf(players, users[k]) then n else k;
      assert forall i :: 0 <= i < n ==> users[i] == front[i];
    }
  }

  // ----- the winner by score -----

  /** Outside boss modes a match without a tie has exactly one winning seat, one with a tie has none. */
  lemma OneWinner(m: Match)
    requires NoRepeats(m.ids) && m.ids != []
    requires m.mode != "instance_boss" && m.mode != "world_boss"
    ensures if Tied(m) then forall i :: 0 <= i < |m.ids| ==> ScoreVerdict(m, m.ids[i]) == Draw
            else exists w :: 0 <= w < |m.ids| && TopAt(m, w) && forall i :: 0 <= i < |m.ids| ==>
                   ScoreVerdict(m, m.ids[i]) == if i == w then Win else Loss
  {
    if !Tied(m) {
      var w := SomeTop(m, |m.ids|);
      assert TopAt(m, w);
      forall i | 0 <= i < |m.ids|
        ensures ScoreVerdict(m, m.ids[i]) == if i == w then Win else Loss
      {
        if Leads(m, m.ids[i]) {
          var j :| 0 <= j < |m.ids| && m.ids[j] == m.ids[i] && TopAt(m, j);
          assert j == w;
        }
      }
    }
  }

  lemma {:induction false} SomeTop(m: Match, k: nat) returns (w: nat)
    requires 0 < k <= |m.ids|
    ensures w < k && forall j :: 0 <= j < k ==> ScoreAt(m, j) <= ScoreAt(m, w)
  {
    w := 0;
    if k > 1 {
      w := SomeTop(m, k - 1);
      if ScoreAt(m, k - 1) > ScoreAt(m, w) {
        w := k - 1;
      }
    }
  }
}
