/**
 * The requests around a settlement, told from match and request alone: a new match, its start, drops and
 * returns, inputs, event batches, results and callbacks, and the marks they leave.
 */
module SettlementRequests {
  import opened Text
  import opened Settlement
  import opened SettlementRuns
  import opened SettlementLaws
  import opened SettlementSteps

  // ----- a new match -----

  lemma {:induction false} KnownCounts(users: map<string, Wallet>, participants: seq<string>, u: string)
    ensures multiset(Known(users, participants))[u] == if u in users then multiset(participants)[u] else 0
    ensures (forall p :: p in participants ==> p in users) ==> Known(users, participants) == participants
  {
    if participants != [] {
      KnownCounts(users, participants[1..], u);
      assert participants == [participants[0]] + participants[1..];
    }
  }

  /** Boss health: the room's choice, else the catalog's, else what is left of the world boss or the mode's own. */
  predicate BornWith(s: State, mode: string, catalogHP: Option<nat>, roomHP: nat, hp: nat) {
    if roomHP > 0 then hp == roomHP
    else if catalogHP.Some? then hp == catalogHP.value
    else if mode == "world_boss" then hp == s.boss.currentHP || (s.boss.currentHP < 0 && hp == 0)
    else if mode == "instance_boss" then hp == 16000
    else if mode == "battle_royale" then hp == 0
    else hp == 2400
  }

  /** A new match seats its known participants as often as they are named, whole and unready, under their roster ids. */
  lemma NewMatch(names: Names, s: State, id: string, mode: string, participants: seq<string>, catalogHP: Option<nat>,
                 roomHP: nat, server: string, now: int, u: string)
    requires id !in s.matches
    ensures var s' := Create(names, s, id, mode, participants, catalogHP, roomHP, server, now);
            && id in s'.matches && s' == s.(matches := s.matches[id := s'.matches[id]])
            && var m := s'.matches[id];
               && m.mode == mode && m.status.Loading? && m.endedAt == 0 && m.server == server && m.allocatedAt == now
               && !m.finalized && m.hash == "" && m.rows == []
               && BornWith(s, mode, catalogHP, roomHP, m.bossHP) && m.bossMaxHP == m.bossHP
               && multiset(m.ids)[u] == (if u in s.wallets then multiset(participants)[u] else 0)
               && ((forall p :: p in participants ==> p in s.wallets) ==> m.ids == participants)
               && (u in m.players <==> u in participants && u in s.wallets)
               && (u in m.players ==>
                     var p := m.players[u];
                     p.connected && !p.ready && !p.abandoned && p.droppedAt == 0
                     && p.score == 0 && p.graze == 0 && p.damage == 0)
               && |m.seats| == |m.ids|
               && forall i :: 0 <= i < |m.ids| ==> m.seats[i] == Seat(m.ids[i], names.player(id, m.ids[i]))
  {
    KnownCounts(s.wallets, participants, u);
  }

  // ----- from loading to running -----

  lemma ReadyCount(m: Match)
    requires NoRepeats(m.ids) && forall u :: u in m.players <==> u in m.ids
    ensures AllReady(m) <==> forall u :: u in m.players ==> m.players[u].ready
  {
    var ready := set u | u in m.players && m.players[u].ready;
    DistinctSize(m.ids);
    var all := set u | u in m.ids;
    assert ready <= all;
    if |ready| == |all| {
      SubsetFull(ready, all);
      forall u | u in m.players
        ensures m.players[u].ready
      {
        assert u in all;
      }
    }
    if forall u :: u in m.players ==> m.players[u].ready {
      assert ready == all;
    }
  }

  lemma {:induction false} DistinctSize(ids: seq<string>)
    requires NoRepeats(ids)
    ensures |set u | u in ids| == |ids|
  {
    if ids != [] {
      var front, last := ids[..|ids| - 1], ids[|ids| - 1];
      DistinctSize(front);
      assert (set u | u in ids) == (set u | u in front) + {last};
      assert last !in front;
    } else {
      assert (set u | u in ids) == {};
    }
  }

  lemma SubsetFull(a: set<string>, b: set<string>)
    requires a <= b && |a| == |b|
    ensures a == b
  {
    assert b == a + (b - a) && |b| == |a| + |b - a|;
    assert b - a == {};
  }

  /** The call that readies the last player starts the match, and no other does. */
  lemma LastReadyStarts(s: State, id: string, user: string)
    requires Guard(s, id, user).None? && NoRepeats(s.matches[id].ids)
    requires forall u :: u in s.matches[id].players <==> u in s.matches[id].ids
    ensures var (error, s') := Ready(s, id, user);
            var (m, m') := (s.matches[id], s'.matches[id]);
            && error.None? && s' == s.(matches := s.matches[id := m'])
            && m' == m.(players := m.players[user := m.players[user].(ready := true)], status := m'.status)
            && (m'.status.Running? <==>
                  m.status.Running? || forall u :: u in m.players && u != user ==> m.players[u].ready)
            && (!m'.status.Running? ==> m'.status == m.status)
  {
    ReadyCount(WithPlayer(s, id, user, s.matches[id].players[user].(ready := true)).matches[id]);
  }

  // ----- drops and returns -----

  /** A player who dropped may return for thirty seconds, and then the match is as if nothing had happened. */
  lemma ReturnUndoesDrop(s: State, id: string, user: string, dropped: int, now: int)
    requires Guard(s, id, user).None? && dropped != 0
    ensures var away := Disconnect(s, id, user, dropped);
            var back := Reconnect(away.1, id, user, now);
            && away.0.None? && !away.1.matches[id].players[user].connected
            && (back.0.None? <==> now - dropped < 30)
            && (back.0.Some? ==> back == (Some(WindowExpired), away.1))
            && (back.0.None? && s.matches[id].players[user].connected && s.matches[id].players[user].droppedAt == 0
                ==> back.1 == s)
  {
    var m := s.matches[id];
    var p := m.players[user];
    var away := Disconnect(s, id, user, dropped).1;
    assert away.matches[id].players[user] == p.(connected := false, droppedAt := dropped);
    assert m.players[user := p.(connected := false, droppedAt := dropped)][user := p] == m.players;
    assert s.matches[id := away.matches[id]][id := m] == s.matches;
  }

  // ----- inputs -----

  /** An input counts exactly in a running match of a connected player; a refused one changes nothing. */
  lemma InputAcceptedIff(s: State, id: string, user: string, packet: Packet)
    ensures var (error, s') := SubmitInput(s, id, user, packet);
            && (error.None? <==> id in s.matches && s.matches[id].status.Running? && user in s.matches[id].players
                                 && s.matches[id].players[user].connected)
            && (error.Some? ==> s' == s)
            && (error.None? ==>
                  var (m, m') := (s.matches[id], s'.matches[id]);
                  && s' == s.(matches := s.matches[id := m'])
                  && m' == m.(players := m.players[user := m'.players[user]], tick := m'.tick, bossHP := m'.bossHP)
                  && m'.tick == (if packet.tick > m.tick then packet.tick else m.tick)
                  && m'.players[user] == m.players[user].(score := m'.players[user].score, lastSeq := packet.seqNo,
                                                          graze := m'.players[user].graze,
                                                          damage := m'.players[user].damage))
  {
    if id in s.matches && user in s.matches[id].players {
      InputFrame(s.matches[id], user, packet);
    }
  }

  /** One of the parts of an input touches nothing but its player's counts and the bar. */
  ghost predicate Counts(m: Match, m': Match, user: string) {
    && user in m.players && user in m'.players
    && m' == m.(players := m.players[user := m'.players[user]], bossHP := m'.bossHP)
    && m'.players[user] == m.players[user].(score := m'.players[user].score, graze := m'.players[user].graze,
                                            damage := m'.players[user].damage)
  }

  lemma InputFrame(m: Match, user: string, packet: Packet)
    requires user in m.players
    ensures var m' := ApplyInput(m, user, packet);
            var moved := m.(players := m.players[user := m.players[user].(lastSeq := packet.seqNo)],
                            tick := Max(m.tick, packet.tick));
            Counts(moved, m', user)
  {
    var moved := m.(players := m.players[user := m.players[user].(lastSeq := packet.seqNo)],
                    tick := Max(m.tick, packet.tick));
    var steered := Steer(m, user, packet);
    var bombed := Bomb(steered, user, packet.bomb);
    var played := Card(bombed, user, packet.card);
    SteerCounts(m, user, packet);
    BombCounts(steered, user, packet.bomb);
    CountsChain(moved, steered, bombed, user);
    CardCounts(bombed, user, packet.card);
    CountsChain(moved, bombed, played, user);
    ShootCounts(played, user, packet.shoot);
    CountsChain(moved, played, Shoot(played, user, packet.shoot), user);
  }

  lemma ScoreCounts(m: Match, user: string, score: nat, graze: nat)
    requires user in m.players
    ensures Counts(m, AddScore(m, user, score, graze), user)
  {
  }

  lemma SteerCounts(m: Match, user: string, packet: Packet)
    requires user in m.players
    ensures Counts(m.(players := m.players[user := m.players[user].(lastSeq := packet.seqNo)],
                      tick := Max(m.tick, packet.tick)), Steer(m, user, packet), user)
  {
    var moved := m.(players := m.players[user := m.players[user].(lastSeq := packet.seqNo)],
                    tick := Max(m.tick, packet.tick));
    var slowed := if packet.slow then AddScore(moved, user, 3, 1) else moved;
    ScoreCounts(moved, user, 3, 1);
    ScoreCounts(slowed, user, 5, 0);
    CountsSelf(moved, user);
    CountsSelf(slowed, user);
    CountsChain(moved, slowed, Steer(m, user, packet), user);
  }

  lemma CountsSelf(m: Match, user: string)
    requires user in m.players
    ensures Counts(m, m, user)
  {
    assert m.players[user := m.players[user]] == m.players;
  }

  lemma DamageCounts(m: Match, user: string, score: nat, damage: int)
    requires user in m.players
    ensures Counts(m, AddScore(m, user, score, 0), user)
    ensures Counts(m, Damage(AddScore(m, user, score, 0), user, damage), user)
  {
    var scored := AddScore(m, user, score, 0);
    ScoreCounts(m, user, score, 0);
    CountsSelf(scored, user);
    assert Counts(scored, Damage(scored, user, damage), user);
    CountsChain(m, scored, Damage(scored, user, damage), user);
  }

  lemma BombCounts(m: Match, user: string, bomb: bool)
    requires user in m.players
    ensures Counts(m, Bomb(m, user, bomb), user)
  {
    DamageCounts(m, user, 2, 35);
    CountsSelf(m, user);
  }

  lemma CardCounts(m: Match, user: string, card: Option<(int, nat)>)
    requires user in m.players
    ensures Counts(m, Card(m, user, card), user)
  {
    if card.Some? {
      DamageCounts(m, user, card.value.1, card.value.0);
    }
    CountsSelf(m, user);
  }

  lemma ShootCounts(m: Match, user: string, shoot: bool)
    requires user in m.players
    ensures Counts(m, Shoot(m, user, shoot), user)
  {
    DamageCounts(m, user, 1, 4);
  }

  lemma CountsChain(a: Match, b: Match, c: Match, user: string)
    requires Counts(a, b, user) && Counts(b, c, user)
    ensures Counts(a, c, user)
  {
  }

  /** A bullet moves a score in a running match: a hit takes up to 25 points, a graze gives three and counts. */
  lemma ContactCounts(s: State, id: string, user: string, hit: bool)
    ensures var s' := Contact(s, id, user, hit);
            if id in s.matches && s.matches[id].status.Running? && user in s.matches[id].players then
              var (p, m') := (s.matches[id].players[user], s'.matches[id]);
              && s' == s.(matches := s.matches[id := m'])
              && m' == s.matches[id].(players := s.matches[id].players[user := m'.players[user]])
              && m'.players[user] == p.(score := if !hit then p.score + 3 else if p.score < 25 then 0 else p.score - 25,
                                        graze := if hit then p.graze else p.graze + 1)
            else s' == s
  {
  }

  /** Who abandons is marked as gone for good, at the clock of the call. */
  lemma AbandonMarks(names: Names, s: State, id: string, user: string, now: int, stored: bool)
    requires Guard(s, id, user).None?
    ensures var (p, s') := (s.matches[id].players[user], Abandon(names, s, id, user, now, stored).1);
            && id in s'.matches && s'.matches[id].status.Ended?
            && s'.matches[id].players ==
                 s.matches[id].players[user := p.(connected := false, droppedAt := now, abandoned := true)]
  {
    var p := s.matches[id].players[user].(connected := false, droppedAt := now, abandoned := true);
    FleeElsewhere(names, WithPlayer(s, id, user, p), id, user, false, now, stored);
  }

  // ----- the allocation -----

  /** A bind names the server whose results count, and starts the term of the allocation anew. */
  lemma BindRestartsTerm(names: Names, s: State, id: string, server: string, bound: int, now: int, stored: bool)
    requires id in s.matches && s.matches[id].endedAt == 0 && bound != 0
    ensures var s' := Bind(s, id, server, bound);
            && s' == s.(matches := s.matches[id := s'.matches[id]])
            && s'.matches[id] == s.matches[id].(server := s'.matches[id].server, allocatedAt := bound)
            && s'.matches[id].server == (if TrimSpace(server) == "" then "battle-" + id else TrimSpace(server))
            && (ExpireOne(names, s', id, now, stored) == s' <==> now - bound < 15 * 60)
  {
    var s' := Bind(s, id, server, bound);
    if now - bound >= 15 * 60 {
      SettleElsewhere(names, s', id, ByScore, Expiry, now, stored);
      SettleEnds(names, s', id, ByScore, Expiry, now, stored);
    }
  }
}
