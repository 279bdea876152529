/**
 * Every step of the lobby either moves players and allocations, or ends one match. From this
 * follow when an ended match is settled again, and what the world boss keeps over whole runs.
 */
module SettlementSteps {
  import opened Text
  import opened Settlement
  import opened SettlementRuns
  import opened SettlementLaws
  import opened BossBars
  import MixedPool

  // ----- the two kinds of steps -----

  /** A match before and after a step that ends nothing. */
  predicate Unended(m: Match, m': Match) {
    && m'.mode == m.mode && m'.ids == m.ids && m'.seats == m.seats && m'.players.Keys == m.players.Keys
    && m'.finalized == m.finalized && (m'.status.Ended? <==> m.status.Ended?)
    && (m.status.Ended? ==> m'.players == m.players)
  }

  predicate Newborn(m: Match) {
    && !m.status.Ended? && !m.finalized
    && (forall u :: u in m.players ==> u in m.ids) && (forall i :: 0 <= i < |m.seats| ==> m.seats[i].user in m.ids)
  }

  ghost predicate Quiet(s: State, s': State) {
    && s'.log == s.log && s'.boss == s.boss && s'.hits == s.hits && s'.wallets == s.wallets
    && (forall id :: id in s.matches ==> id in s'.matches && Unended(s.matches[id], s'.matches[id]))
    && (forall id :: id in s'.matches && id !in s.matches ==> Newborn(s'.matches[id]))
  }

  /** Whether an outcome lands the damage of a world-boss match. */
  predicate Lands(o: Outcome) { (o.Fled? && o.stored) || (o.Scored? && o.route != ResultCallback) }

  /** What an outcome does to the world boss. */
  predicate Struck(s: State, s': State, o: Outcome, now: int)
    requires o.id in s.matches && o.id in s'.matches
  {
    var m := s'.matches[o.id];
    if Lands(o) && m.mode == "world_boss" && !s.matches[o.id].finalized then
      var (boss, applied) := Strike(s.boss, m, o.id, Min(TotalDamage(m), m.bossMaxHP), now);
      m.finalized && s'.boss == boss && s'.hits == s.hits + [Hit(o.id, applied)]
    else m.finalized == s.matches[o.id].finalized && s'.boss == s.boss && s'.hits == s.hits
  }

  /** The step ended the match of the outcome, or ended it again. */
  ghost predicate EndedWith(s: State, s': State, o: Outcome, now: int) {
    && o.id in s.matches && s'.matches.Keys == s.matches.Keys && s'.log == s.log + [o]
    && (forall id :: id in s.matches && id != o.id ==> s'.matches[id] == s.matches[id])
    && var m, m' := s.matches[o.id], s'.matches[o.id];
       && m'.status.Ended? && m'.mode == m.mode && m'.ids == m.ids && m'.seats == m.seats
       && m'.players.Keys == m.players.Keys && (m.status.Ended? ==> m'.players == m.players)
       && Struck(s, s', o, now)
  }

  lemma StrikeReads(boss: WorldBoss, m: Match, m': Match, id: string, damage: int, now: int)
    requires m'.players == m.players && m'.ids == m.ids
    ensures Strike(boss, m', id, damage, now) == Strike(boss, m, id, damage, now) && TotalDamage(m') == TotalDamage(m)
  {
  }

  /** The outcome a settle logs. */
  function OutcomeOf(s: State, id: string, d: Decision, route: Route, now: int, stored: bool): (o: Outcome)
    requires id in s.matches
  {
    if stored then Scored(id, route, Payouts(Marked(s, id, now).matches[id], d)) else Lost(id, route)
  }

  lemma SettleEnds(names: Names, s: State, id: string, d: Decision, route: Route, now: int, stored: bool)
    requires id in s.matches && !d.ByFlight? && (d.ByWinner? <==> route == ResultCallback)
    ensures EndedWith(s, SettleWith(names, s, id, d, route, now, stored), OutcomeOf(s, id, d, route, now, stored), now)
  {
    if stored {
      SettleEffect(names, s, id, d, route, now);
      var marked := Marked(s, id, now);
      StrikeReads(s.boss, s.matches[id], marked.matches[id], id, 0, now);
    }
  }

  lemma FleeEnds(names: Names, s: State, id: string, leaver: string, both: bool, now: int, stored: bool)
    requires id in s.matches && !s.matches[id].status.Ended?
    ensures EndedWith(s, FleeWith(names, s, id, leaver, both, now, stored), Fled(id, stored), now)
  {
    if stored {
      FleeEffect(names, s, id, leaver, both, now);
    }
  }

  /** An ending after an update of the match that leaves its flags and its world-boss fields alone. */
  lemma EndedAfter(s: State, m: Match, s': State, o: Outcome, now: int)
    requires o.id in s.matches && !s.matches[o.id].status.Ended? && !m.status.Ended?
    requires Unended(s.matches[o.id], m)
    requires EndedWith(s.(matches := s.matches[o.id := m]), s', o, now)
    ensures EndedWith(s, s', o, now)
  {
  }

  // ----- route by route -----

  lemma PutIsQuiet(s: State, id: string, m: Match)
    requires id in s.matches && Unended(s.matches[id], m)
    ensures Quiet(s, s.(matches := s.matches[id := m]))
  {
  }

  lemma PlayerUnended(m: Match, user: string, p: Player)
    requires user in m.players && !m.status.Ended?
    ensures Unended(m, m.(players := m.players[user := p]))
    ensures Unended(m, m.(players := m.players[user := p], status := Running))
  {
    assert m.players[user := p].Keys == m.players.Keys;
  }

  lemma PlayerIsQuiet(s: State, id: string, user: string, p: Player)
    requires Guard(s, id, user).None?
    ensures Quiet(s, WithPlayer(s, id, user, p))
    ensures Quiet(s, s.(matches := s.matches[id :=
                       s.matches[id].(players := s.matches[id].players[user := p], status := Running)]))
  {
    PlayerUnended(s.matches[id], user, p);
    PutIsQuiet(s, id, s.matches[id].(players := s.matches[id].players[user := p]));
    PutIsQuiet(s, id, s.matches[id].(players := s.matches[id].players[user := p], status := Running));
  }

  lemma ReadyIsQuiet(s: State, id: string, user: string)
    ensures Quiet(s, Ready(s, id, user).1)
  {
    if Guard(s, id, user).None? {
      var p := s.matches[id].players[user].(ready := true);
      var m := s.matches[id].(players := s.matches[id].players[user := p]);
      PlayerIsQuiet(s, id, user, p);
      assert AllReady(m) ==> Ready(s, id, user).1 == s.(matches := s.matches[id := m.(status := Running)]) by {
        assert s.matches[id := m][id := m.(status := Running)] == s.matches[id := m.(status := Running)];
      }
    }
  }

  /** Dropping, reconnecting and bullets. */
  lemma CallIsQuiet(names: Names, s: State, step: Step)
    requires step.DoContact? || step.DoDisconnect? || step.DoReconnect?
    ensures Quiet(s, Apply(names, s, step))
  {
    if Guard(s, step.id, step.user).None? && Apply(names, s, step) != s {
      var p := Apply(names, s, step).matches[step.id].players[step.user];
      PlayerIsQuiet(s, step.id, step.user, p);
      assert Apply(names, s, step) == WithPlayer(s, step.id, step.user, p);
    }
  }

  lemma InputIsQuiet(s: State, id: string, user: string, packet: Packet)
    ensures Quiet(s, SubmitInput(s, id, user, packet).1)
  {
    if SubmitInput(s, id, user, packet).0.None? {
      var m := s.matches[id];
      InputAlike(m, user, packet);
      InputKeepsSeats(m, user, packet);
      PutIsQuiet(s, id, ApplyInput(m, user, packet));
    }
  }

  lemma InputKeepsSeats(m: Match, user: string, packet: Packet)
    requires user in m.players
    ensures var m' := ApplyInput(m, user, packet); m'.seats == m.seats && m'.mode == m.mode
  {
    var steered := Steer(m, user, packet);
    var bombed := Bomb(steered, user, packet.bomb);
    assert bombed.seats == m.seats && bombed.mode == m.mode;
    var played := Card(bombed, user, packet.card);
    assert played.seats == m.seats && played.mode == m.mode;
  }

  lemma CreateIsQuiet(names: Names, s: State, step: Step)
    requires step.DoCreate?
    ensures Quiet(s, Apply(names, s, step))
  {
  }

  lemma BindIsQuiet(s: State, id: string, server: string, now: int)
    ensures Quiet(s, Bind(s, id, server, now))
  {
    if id in s.matches {
      PutIsQuiet(s, id, Bind(s, id, server, now).matches[id]);
    }
  }

  /** The clock of a step, where it has one. */
  function ClockOf(step: Step): (now: int) {
    match step
    case DoSettle(_, _, now, _) => now
    case DoResult(_, now, _) => now
    case DoCallback(_, now, _) => now
    case DoAbandon(_, _, now, _) => now
    case DoEvents(_, _, _, _, _, now, _) => now
    case DoExpire(_, now, _) => now
    case _ => 0
  }

  /** A step ends nothing, or ends a match that had not ended, or is the expiry of a stale allocation. */
  ghost predicate Classified(s: State, s': State, step: Step, o: Option<Outcome>) {
    && (o.None? ==> Quiet(s, s'))
    && (o.Some? ==>
          && (step.DoSettle? || step.DoResult? || step.DoCallback?
              || step.DoAbandon? || step.DoEvents? || step.DoExpire?)
          && EndedWith(s, s', o.value, ClockOf(step))
          && (!step.DoExpire? ==> !s.matches[o.value.id].status.Ended?))
    && (step.DoExpire? ==>
          (o.Some? <==> step.id in s.matches && Stale(s.matches[step.id], step.now))
          && (o.Some? ==> o.value.id == step.id && !o.value.Fled? && o.value.route == Expiry
                          && (o.value.Scored? <==> step.stored)))
  }

  lemma ClientCases(names: Names, s: State, step: Step) returns (o: Option<Outcome>)
    requires step.DoSettle?
    ensures Classified(s, Apply(names, s, step), step, o)
  {
    o := None;
    if Guard(s, step.id, step.user).None? {
      o := Some(OutcomeOf(s, step.id, ByScore, ClientSettle, step.now, step.stored));
      SettleEnds(names, s, step.id, ByScore, ClientSettle, step.now, step.stored);
    }
  }

  lemma ExpiryCases(names: Names, s: State, step: Step) returns (o: Option<Outcome>)
    requires step.DoExpire?
    ensures Classified(s, Apply(names, s, step), step, o)
  {
    o := None;
    if step.id in s.matches && Stale(s.matches[step.id], step.now) {
      o := Some(OutcomeOf(s, step.id, ByScore, Expiry, step.now, step.stored));
      SettleEnds(names, s, step.id, ByScore, Expiry, step.now, step.stored);
    }
  }

  lemma ResultCases(names: Names, s: State, step: Step) returns (o: Option<Outcome>)
    requires step.DoResult?
    ensures Classified(s, Apply(names, s, step), step, o)
  {
    var r := step.result;
    o := None;
    if r.id in s.matches && SignedError(s.matches[r.id], r).None? && s.matches[r.id].status.Running? {
      var m := s.matches[r.id].(hash := r.hash);
      var sealed := s.(matches := s.matches[r.id := m]);
      o := Some(OutcomeOf(sealed, r.id, ByScore, SignedResult, step.now, step.stored));
      SettleEnds(names, sealed, r.id, ByScore, SignedResult, step.now, step.stored);
      EndedAfter(s, m, Apply(names, s, step), o.value, step.now);
    }
  }

  lemma CallbackClassified(names: Names, s: State, step: Step) returns (o: Option<Outcome>)
    requires step.DoCallback?
    ensures Classified(s, Apply(names, s, step), step, o)
  {
    var c, s' := step.callback, Apply(names, s, step);
    CallbackCases(names, s, c, step.now, step.stored);
    o := None;
    if s' != s {
      var id := TrimSpace(c.id);
      var m := Sealed(s.matches[id], c);
      var d := ByWinner(WinnerOf(s.matches[id], c));
      var sealed := s.(matches := s.matches[id := m]);
      o := Some(OutcomeOf(sealed, id, d, ResultCallback, step.now, step.stored));
      SettleEnds(names, sealed, id, d, ResultCallback, step.now, step.stored);
      EndedAfter(s, m, s', o.value, step.now);
    }
  }

  lemma AbandonCases(names: Names, s: State, step: Step) returns (o: Option<Outcome>)
    requires step.DoAbandon?
    ensures Classified(s, Apply(names, s, step), step, o)
  {
    o := None;
    if Guard(s, step.id, step.user).None? {
      var p := s.matches[step.id].players[step.user].(connected := false, droppedAt := step.now, abandoned := true);
      var mid := WithPlayer(s, step.id, step.user, p);
      o := Some(Fled(step.id, step.stored));
      PlayerUnended(s.matches[step.id], step.user, p);
      FleeEnds(names, mid, step.id, step.user, false, step.now, step.stored);
      EndedAfter(s, mid.matches[step.id], Apply(names, s, step), o.value, step.now);
    }
  }

  lemma EventsClassified(names: Names, s: State, step: Step) returns (o: Option<Outcome>)
    requires step.DoEvents?
    ensures Classified(s, Apply(names, s, step), step, o)
  {
    EventsCases(names, s, step.id, step.server, step.cards, step.rows, step.within, step.now, step.stored);
    o := EventsSplit(names, s, Apply(names, s, step), step.id, step.rows, step.now, step.stored);
  }

  lemma EventsSplit(names: Names, s: State, s': State, id: string, rows: seq<Row>, now: int, stored: bool)
    returns (o: Option<Outcome>)
    requires s' == s
             || (id in s.matches && s.matches[id].status.Running?
                 && var appended := s.(matches := s.matches[id := s.matches[id].(rows := s.matches[id].rows + rows)]);
                    s' == appended || s' == FleeWith(names, appended, id, "", true, now, stored))
    ensures o.None? ==> Quiet(s, s')
    ensures o.Some? ==> EndedWith(s, s', o.value, now) && !s.matches[o.value.id].status.Ended?
  {
    o := None;
    if s' != s {
      var m := s.matches[id].(rows := s.matches[id].rows + rows);
      PutIsQuiet(s, id, m);
      if s' != s.(matches := s.matches[id := m]) {
        o := Some(Fled(id, stored));
        AppendedFlightEnds(names, s, id, m, now, stored);
      }
    }
  }

  lemma AppendedFlightEnds(names: Names, s: State, id: string, m: Match, now: int, stored: bool)
    requires id in s.matches && s.matches[id].status.Running? && m == s.matches[id].(rows := m.rows)
    ensures var appended := s.(matches := s.matches[id := m]);
            EndedWith(s, FleeWith(names, appended, id, "", true, now, stored), Fled(id, stored), now)
  {
    var appended := s.(matches := s.matches[id := m]);
    FleeEnds(names, appended, id, "", true, now, stored);
    EndedAfter(s, m, FleeWith(names, appended, id, "", true, now, stored), Fled(id, stored), now);
  }

  /** Every step of the lobby is one of the two. */
  lemma StepCases(names: Names, s: State, step: Step) returns (o: Option<Outcome>)
    ensures Classified(s, Apply(names, s, step), step, o)
  {
    o := None;
    match step {
      case DoCreate(_, _, _, _, _, _, _) => CreateIsQuiet(names, s, step);
      case DoInput(id, user, packet) => InputIsQuiet(s, id, user, packet);
      case DoBind(id, server, now) => BindIsQuiet(s, id, server, now);
      case DoSettle(_, _, _, _) => o := ClientCases(names, s, step);
      case DoResult(_, _, _) => o := ResultCases(names, s, step);
      case DoCallback(_, _, _) => o := CallbackClassified(names, s, step);
      case DoAbandon(_, _, _, _) => o := AbandonCases(names, s, step);
      case DoEvents(_, _, _, _, _, _, _) => o := EventsClassified(names, s, step);
      case DoExpire(_, _, _) => o := ExpiryCases(names, s, step);
      case DoReady(id, user) => ReadyIsQuiet(s, id, user);
      case _ => CallIsQuiet(names, s, step);
    }
  }

  // ----- when an ended match is settled again -----

  /**
   * An ended match gets another outcome exactly from the expiry of its allocation, if it has no
   * end time and its allocation has lived its term; that outcome pays exactly if it was stored.
   */
  lemma EndedAgainIff(names: Names, s: State, step: Step, id: string)
    requires id in s.matches && s.matches[id].status.Ended?
    ensures var h, h' := History(s.log, id), History(Apply(names, s, step).log, id);
            && (h' != h <==>
                  && step.DoExpire? && step.id == id && s.matches[id].endedAt == 0 && s.matches[id].allocatedAt != 0
                  && step.now - s.matches[id].allocatedAt >= ALLOCATION_TTL)
            && (h' != h ==> |h'| == |h| + 1 && h'[..|h|] == h && (h'[|h|].Scored? <==> step.stored))
  {
    var o := StepCases(names, s, step);
    if o.Some? {
      HistoryGrows(s.log, o.value, id);
      var h := History(s.log, id);
      if o.value.id == id {
        assert (h + [o.value])[..|h|] == h && (h + [o.value])[|h|] == o.value;
        assert |h + [o.value]| != |h|;
      } else {
        assert h + [] == h;
      }
    }
  }

  // ----- the world boss over whole runs -----

  predicate HasHit(hits: seq<Hit>, id: string) { exists i :: 0 <= i < |hits| && hits[i].id == id }

  predicate LandedBefore(h: seq<Outcome>) { exists i :: 0 <= i < |h| && Lands(h[i]) }

  /** A match is finalized exactly by a landing outcome of a world-boss match, and then it has its hit. */
  ghost predicate Finalizations(s: State) {
    forall id :: id in s.matches ==>
      && (s.matches[id].finalized <==> s.matches[id].mode == "world_boss" && LandedBefore(History(s.log, id)))
      && (s.matches[id].finalized ==> HasHit(s.hits, id))
  }

  /** The players and the roster ids of a match belong to its seats. */
  ghost predicate Seating(s: State) {
    forall id :: id in s.matches ==>
      && (forall u :: u in s.matches[id].players ==> u in s.matches[id].ids)
      && (forall i :: 0 <= i < |s.matches[id].seats| ==> s.matches[id].seats[i].user in s.matches[id].ids)
  }

  /** The defeat stamp names the top damage of the match it names, whose players move no more. */
  ghost predicate StampOK(s: State) {
    s.boss.defeatedAt != 0 ==>
      && s.boss.byMatch in s.matches
      && var m := s.matches[s.boss.byMatch];
         m.status.Ended? && m.ids != [] && s.boss.byUser == TopDamage(m.players, MixedPool.SortStrings(m.ids))
  }

  lemma LandedGrows(h: seq<Outcome>, o: Outcome)
    ensures LandedBefore(h + [o]) <==> LandedBefore(h) || Lands(o)
  {
    if LandedBefore(h) {
      var i :| 0 <= i < |h| && Lands(h[i]);
      assert (h + [o])[i] == h[i];
    }
    assert (h + [o])[|h|] == o;
  }

  lemma HitStays(hits: seq<Hit>, hit: Hit, id: string)
    ensures HasHit(hits + [hit], id) <==> HasHit(hits, id) || hit.id == id
  {
    if HasHit(hits, id) {
      var i :| 0 <= i < |hits| && hits[i].id == id;
      assert (hits + [hit])[i] == hits[i];
    }
    assert (hits + [hit])[|hits|] == hit;
  }

  lemma EndKeepsFinalizations(s: State, s': State, o: Outcome, now: int)
    requires Finalizations(s) && EndedWith(s, s', o, now)
    ensures Finalizations(s')
  {
    forall id | id in s'.matches
      ensures s'.matches[id].finalized
              <==> s'.matches[id].mode == "world_boss" && LandedBefore(History(s'.log, id))
      ensures s'.matches[id].finalized ==> HasHit(s'.hits, id)
    {
      HistoryGrows(s.log, o, id);
      LandedGrows(History(s.log, id), o);
      if s'.hits != s.hits {
        HitStays(s.hits, s'.hits[|s.hits|], id);
        assert s'.hits == s.hits + [s'.hits[|s.hits|]];
      }
      if id != o.id {
        assert History(s'.log, id) == History(s.log, id);
      }
    }
  }

  lemma QuietKeepsFinalizations(s: State, s': State)
    requires Finalizations(s) && Histories(s) && Quiet(s, s')
    ensures Finalizations(s')
  {
  }

  /** Nothing is left to strike once the boss is down, so the stamp and the health stay. */
  lemma EndKeepsStamp(s: State, s': State, o: Outcome, now: int)
    requires StampOK(s) && BossLedger(s) && EndedWith(s, s', o, now) && now != 0
    ensures StampOK(s') && (s.boss.defeatedAt != 0 ==> s'.boss == s.boss)
  {
    var m := s'.matches[o.id];
    if Lands(o) && m.mode == "world_boss" && !s.matches[o.id].finalized {
      StrikeKeeps(s.boss, m, o.id, Min(TotalDamage(m), m.bossMaxHP), now);
      if s.boss.defeatedAt == 0 && s'.boss.defeatedAt != 0 {
        assert TotalDamage(m) > 0;
        assert m.ids != [];
      }
    }
  }

  ghost predicate BossKept(s: State) { Finalizations(s) && Seating(s) && StampOK(s) }

  lemma QuietKeepsBoss(s: State, s': State)
    requires BossKept(s) && Histories(s) && Quiet(s, s')
    ensures BossKept(s') && s'.boss == s.boss
  {
    QuietKeepsFinalizations(s, s');
  }

  lemma EndKeepsSeating(s: State, s': State, o: Outcome, now: int)
    requires Seating(s) && EndedWith(s, s', o, now)
    ensures Seating(s')
  {
  }

  lemma EndKeepsBoss(s: State, s': State, o: Outcome, now: int)
    requires BossKept(s) && BossLedger(s) && EndedWith(s, s', o, now) && now != 0
    ensures BossKept(s') && (s.boss.defeatedAt != 0 ==> s'.boss == s.boss)
  {
    EndKeepsFinalizations(s, s', o, now);
    EndKeepsSeating(s, s', o, now);
    EndKeepsStamp(s, s', o, now);
  }

  lemma StepKeepsBoss(names: Names, s: State, step: Step)
    requires BossKept(s) && Histories(s) && BossLedger(s) && Clocked(step)
    ensures BossKept(Apply(names, s, step))
    ensures s.boss.defeatedAt != 0 ==> Apply(names, s, step).boss == s.boss
  {
    var o := StepCases(names, s, step);
    if o.None? {
      QuietKeepsBoss(s, Apply(names, s, step));
    } else {
      assert ClockOf(step) != 0;
      EndKeepsBoss(s, Apply(names, s, step), o.value, ClockOf(step));
    }
  }

  /**
   * In every reachable state: a match is finalized exactly by a stored flight or a stored settle
   * other than a callback of a world-boss match, every finalized match has its hit, and the
   * defeat stamp names the player with the most damage in the match it names.
   */
  lemma {:induction false} RunKeepsBoss(names: Names, s: State, steps: seq<Step>)
    requires Opening(s) && AllClocked(steps)
    ensures BossKept(Run(names, s, steps))
  {
    if steps != [] {
      var front := steps[..|steps| - 1];
      RunKeepsBoss(names, s, front);
      RunIsSound(names, s, front);
      StepKeepsBoss(names, Run(names, s, front), steps[|steps| - 1]);
    }
  }

  /** Once set, the defeat stamp stays as it is, and so does the boss. */
  lemma {:induction false} StampStays(names: Names, s: State, steps: seq<Step>, k: nat)
    requires Opening(s) && AllClocked(steps) && k <= |steps|
    requires Run(names, s, steps[..k]).boss.defeatedAt != 0
    ensures Run(names, s, steps).boss == Run(names, s, steps[..k]).boss
  {
    if k == |steps| {
      assert steps[..k] == steps;
    } else {
      var front := steps[..|steps| - 1];
      assert front[..k] == steps[..k];
      StampStays(names, s, front, k);
      RunKeepsBoss(names, s, front);
      RunIsSound(names, s, front);
      StepKeepsBoss(names, Run(names, s, front), steps[|steps| - 1]);
    }
  }

  /** The player on the defeat stamp dealt the most damage of the match, and has the least id among equals. */
  lemma StampNamesTop(names: Names, s: State, steps: seq<Step>, user: string)
    requires Opening(s) && AllClocked(steps) && Run(names, s, steps).boss.defeatedAt != 0
    requires var e := Run(names, s, steps);
             e.boss.byMatch in e.matches ==> NoRepeats(e.matches[e.boss.byMatch].ids)
    ensures var e := Run(names, s, steps);
            && e.boss.byMatch in e.matches && e.boss.byUser in e.matches[e.boss.byMatch].ids
            && var m := e.matches[e.boss.byMatch];
               (user in m.ids && user != e.boss.byUser ==>
                  || DamageOf(m.players, user) < DamageOf(m.players, e.boss.byUser)
                  || (DamageOf(m.players, user) == DamageOf(m.players, e.boss.byUser) && Less(e.boss.byUser, user)))
  {
    RunKeepsBoss(names, s, steps);
    var e := Run(names, s, steps);
    TopIsLeastOfBest(e.matches[e.boss.byMatch].players, e.matches[e.boss.byMatch].ids, user);
  }

  lemma TopIsLeastOfBest(players: map<string, Player>, ids: seq<string>, user: string)
    requires NoRepeats(ids) && ids != []
    ensures var top := TopDamage(players, MixedPool.SortStrings(ids));
            && top in ids
            && (user in ids && user != top ==>
                  || DamageOf(players, user) < DamageOf(players, top)
                  || (DamageOf(players, user) == DamageOf(players, top) && Less(top, user)))
  {
    var sorted := MixedPool.SortStrings(ids);
    MixedPool.SortStringsSorts(ids);
    assert ids[0] in sorted;
    var k := TopDamageIsTop(players, sorted);
    assert sorted[k] in sorted;
    if user in ids {
      assert user in sorted;
      var i :| 0 <= i < |sorted| && sorted[i] == user;
    }
  }

  // ----- the named winner of a callback -----

  lemma {:induction false} UserIsSeated(seats: seq<Seat>, player: string)
    requires player in PlayerIDs(seats)
    ensures UserOf(seats, player).Some? && exists k :: 0 <= k < |seats| && seats[k].user == UserOf(seats, player).value
  {
    var n := |seats| - 1;
    var k :| 0 <= k < |seats| && PlayerIDs(seats)[k] == player;
    if seats[n].player != player {
      assert PlayerIDs(seats[..n])[k] == player;
      UserIsSeated(seats[..n], player);
      var j :| 0 <= j < n && seats[..n][j].user == UserOf(seats[..n], player).value;
      assert seats[j] == seats[..n][j];
    }
  }

  /** An accepted callback that names a winner names a seat of the match. */
  lemma NamedWinnerIsSeated(names: Names, s: State, c: Callback, now: int, stored: bool)
    requires Seating(s) && ApplyCallback(names, s, c, now, stored).0.Accepted? && TrimSpace(c.winner) != ""
    ensures WinnerOf(s.matches[TrimSpace(c.id)], c) in s.matches[TrimSpace(c.id)].ids
  {
    UserIsSeated(s.matches[TrimSpace(c.id)].seats, TrimSpace(c.winner));
  }

  /** And that seat wins. No user has the empty id. */
  lemma NamedPlayerWins(names: Names, s: State, c: Callback, now: int)
    requires AllManned(s) && Seating(s) && "" !in s.wallets
    requires ApplyCallback(names, s, c, now, true).0.Accepted? && TrimSpace(c.winner) != ""
    ensures var id := TrimSpace(c.id);
            var winner := WinnerOf(s.matches[id], c);
            var s' := ApplyCallback(names, s, c, now, true).1;
            winner in s.matches[id].ids && (id, winner) in s'.records && s'.records[(id, winner)].verdict == Win
  {
    var m := s.matches[TrimSpace(c.id)];
    NamedWinnerIsSeated(names, s, c, now, true);
    assert Manned(s, m);
    var i :| 0 <= i < |m.ids| && m.ids[i] == WinnerOf(m, c);
    CallbackVerdicts(names, s, c, now, i);
  }

  // ----- paying a fled match -----

  /** Every fled match pays its seats after all, once its allocation outlives its term. */
  lemma FlightThenExpiryPays(names: Names, s: State, start: map<string, Wallet>, id: string, leaver: string,
                             user: string, fledAt: int, now: int)
    requires Sound(s, start) && Guard(s, id, leaver).None? && user in s.matches[id].ids && NoRepeats(s.matches[id].ids)
    requires fledAt != 0 && now != 0 && s.matches[id].allocatedAt != 0
    requires now - s.matches[id].allocatedAt >= ALLOCATION_TTL
    ensures var fled := Abandon(names, s, id, leaver, fledAt, true).1;
            var late := ExpireOne(names, fled, id, now, true);
            && user in s.wallets && fled.wallets == s.wallets && user in late.wallets
            && late.wallets[user].points >= s.wallets[user].points + 100
  {
    var p := s.matches[id].players[leaver].(connected := false, droppedAt := fledAt, abandoned := true);
    var mid := WithPlayer(s, id, leaver, p);
    var fled := Abandon(names, s, id, leaver, fledAt, true).1;
    assert Manned(s, s.matches[id]) && Told(s.matches[id], History(s.log, id));
    FleeEffect(names, mid, id, leaver, false, fledAt);
    AbandonKeeps(names, s, start, id, leaver, fledAt, true);
    LatePays(names, fled, id, user, now);
  }

  lemma LatePays(names: Names, s: State, id: string, user: string, now: int)
    requires AllManned(s) && id in s.matches && Stale(s.matches[id], now)
    requires user in s.matches[id].ids && NoRepeats(s.matches[id].ids)
    ensures user in s.wallets && user in ExpireOne(names, s, id, now, true).wallets
    ensures ExpireOne(names, s, id, now, true).wallets[user].points >= s.wallets[user].points + 100
  {
    var m := Marked(s, id, now).matches[id];
    assert Manned(s, s.matches[id]);
    SettlePaysEachSeat(names, s, id, ByScore, Expiry, now, user);
    RewardsAreWorth(s.wallets[user], m.players[user], VerdictOf(m, ByScore, user));
  }
}
