/** The lobby's settlement as it runs: one object under one lock, updated in place. */
module MatchService {
  import opened Text
  import opened Settlement
  import opened SettlementRuns
  import MixedPool

  // ----- loops that only read -----

  /** totalDamageDealt: the players in any order give the same total. */
  method TotalDamageDealt(m: Match) returns (total: nat)
    requires forall u :: u in m.players <==> u in m.ids
    ensures total == TotalDamage(m)
  {
    total := 0;
    var left := m.players;
    while left != map[]
      invariant forall u :: u in left ==> u in m.players && left[u] == m.players[u]
      invariant total + DamageSum(left, Roster(m.ids)) == TotalDamage(m)
      decreases |left|
    {
      var user :| user in left;
      total := total + left[user].damage;
      WithoutOne(left, Roster(m.ids), user);
      left := left - {user};
    }
    NothingLeft(Roster(m.ids));
  }

  lemma {:induction false} WithoutOne(players: map<string, Player>, users: seq<string>, user: string)
    requires NoRepeats(users) && user in players
    ensures DamageSum(players, users) ==
              DamageSum(players - {user}, users) + if user in users then players[user].damage else 0
  {
    if users != [] {
      var front, last := users[..|users| - 1], users[|users| - 1];
      WithoutOne(players, front, user);
      assert users == front + [last];
      assert last == user ==> user !in front;
    }
  }

  lemma {:induction false} NothingLeft(users: seq<string>)
    ensures DamageSum(map[], users) == 0
  {
    if users != [] {
      NothingLeft(users[..|users| - 1]);
    }
  }

  /** topDamagePlayerID, over the sorted ids. */
  method TopDamagePlayer(m: Match) returns (winner: string)
    ensures winner == TopDamage(m.players, MixedPool.SortStrings(m.ids))
  {
    var users := MixedPool.SortStrings(m.ids);
    winner := "";
    var best: int := -1;
    for i := 0 to |users|
      invariant winner == TopDamage(m.players, users[..i])
      invariant best == if i == 0 then -1 else DamageOf(m.players, winner)
    {
      assert users[..i + 1][..i] == users[..i];
      if DamageOf(m.players, users[i]) > best {
        best := DamageOf(m.players, users[i]);
        winner := users[i];
      }
    }
    assert users[..|users|] == users;
  }

  /** The winner loop of settleMatchLocked: who leads, and whether two seats share the lead. */
  method WinnerByScore(m: Match) returns (winner: string, draw: bool)
    ensures draw == Tied(m)
    ensures !draw ==> forall user :: user in m.ids ==> (user == winner <==> Leads(m, user))
  {
    winner, draw := "", false;
    ghost var top := 0;
    var best := INT64_MIN;
    for i := 0 to |m.ids|
      invariant i == 0 ==> best == INT64_MIN
      invariant i > 0 ==> top < i && winner == m.ids[top] && best == ScoreAt(m, top)
      invariant forall j :: 0 <= j < i ==> ScoreAt(m, j) <= best
      invariant i > 0 ==> forall j :: 0 <= j < top ==> ScoreAt(m, j) < best
      invariant draw <==> exists j :: 0 < i && top < j < i && ScoreAt(m, j) == best
    {
      var score := ScoreAt(m, i);
      if score > best {
        winner, best, draw, top := m.ids[i], score, false, i;
      } else if score == best {
        draw := true;
      }
    }
    LeadFound(m, top, draw);
  }

  lemma LeadFound(m: Match, top: nat, draw: bool)
    requires m.ids != [] ==> top < |m.ids| && TopAt(m, top)
    requires m.ids != [] ==> forall j :: 0 <= j < top ==> ScoreAt(m, j) < ScoreAt(m, top)
    requires draw <==> exists j :: m.ids != [] && top < j < |m.ids| && ScoreAt(m, j) == ScoreAt(m, top)
    ensures draw == Tied(m)
    ensures !draw && m.ids != [] ==> forall user :: user in m.ids ==> (user == m.ids[top] <==> Leads(m, user))
  {
    assert forall j :: 0 <= j < |m.ids| && TopAt(m, j) ==> ScoreAt(m, j) == ScoreAt(m, top);
    if draw {
      var j :| top < j < |m.ids| && ScoreAt(m, j) == ScoreAt(m, top);
      assert TopAt(m, j);
    }
  }

  /** sameStringSet: counts up the left strings and down the right ones. */
  method SameStringSet(left: seq<string>, right: seq<string>) returns (same: bool)
    ensures same == SameStrings(left, right)
  {
    if |left| != |right| {
      DifferentSizes(left, right);
      return false;
    }
    var seen: multiset<string> := multiset{};
    for i := 0 to |left|
      invariant seen == multiset(Trimmed(left)[..i]) && "" !in Trimmed(left)[..i]
    {
      assert Trimmed(left)[..i + 1] == Trimmed(left)[..i] + [Trimmed(left)[i]];
      if TrimSpace(left[i]) == "" {
        assert Trimmed(left)[i] == "";
        return false;
      }
      seen := seen + multiset{TrimSpace(left[i])};
    }
    assert Trimmed(left)[..|left|] == Trimmed(left);
    for i := 0 to |right|
      invariant seen + multiset(Trimmed(right)[..i]) == multiset(Trimmed(left)) && "" !in Trimmed(right)[..i]
    {
      var value := TrimSpace(right[i]);
      assert Trimmed(right)[..i + 1] == Trimmed(right)[..i] + [value];
      assert Trimmed(right) == Trimmed(right)[..i + 1] + Trimmed(right)[i + 1..];
      if value == "" {
        assert Trimmed(right)[i] == "";
        return false;
      }
      if seen[value] == 0 {
        MissingString(Trimmed(left), Trimmed(right), i, seen);
        return false;
      }
      seen := seen - multiset{value};
    }
    assert Trimmed(right)[..|right|] == Trimmed(right);
    assert |seen| + |multiset(Trimmed(right))| == |multiset(Trimmed(left))|;
    same := true;
  }

  lemma DifferentSizes(left: seq<string>, right: seq<string>)
    requires |left| != |right|
    ensures !SameStrings(left, right)
  {
    assert |multiset(Trimmed(left))| == |left| && |multiset(Trimmed(right))| == |right|;
  }

  lemma MissingString(left: seq<string>, right: seq<string>, i: nat, seen: multiset<string>)
    requires i < |right| && seen + multiset(right[..i]) == multiset(left) && seen[right[i]] == 0
    ensures multiset(left) != multiset(right)
  {
    assert right == right[..i] + [right[i]] + right[i + 1..];
    assert multiset(right)[right[i]] > multiset(right[..i])[right[i]];
  }

  /** The players of a match are the users of its seats. */
  ghost predicate Rostered(m: Match) { forall u :: u in m.players <==> u in m.ids }

  // ----- the service -----

  class Service {
    const names: Names
    var matches: map<string, Match>
    var wallets: map<string, Wallet>
    var records: map<(string, string), Record>
    var replays: map<string, Replay>
    var boss: WorldBoss
    ghost var log: seq<Outcome>
    ghost var hits: seq<Hit>

    constructor (names: Names, wallets: map<string, Wallet>, maxHP: int)
      ensures Valid()
      ensures View() == State(map[], wallets, map[], map[], WorldBoss(maxHP, maxHP, 0, "", ""), [], [])
    {
      this.names, this.wallets := names, wallets;
      matches, records, replays, boss := map[], map[], map[], WorldBoss(maxHP, maxHP, 0, "", "");
      log, hits := [], [];
    }

    ghost function View(): (s: State)
      reads this
    {
      State(matches, wallets, records, replays, boss, log, hits)
    }

    ghost predicate Valid()
      reads this
    {
      forall id :: id in matches ==> Rostered(matches[id])
    }

    /** The strike of finalizeModeResultLocked: health down, and the stamp if this brought it to zero. */
    method StrikeWorldBoss(id: string, m: Match, damage: int, now: int) returns (applied: int)
      modifies `boss
      ensures (boss, applied) == Strike(old(boss), m, id, damage, now)
    {
      var before := boss.currentHP;
      applied := Min(Max(0, before), damage);
      boss := boss.(currentHP := Max(0, boss.currentHP - applied));
      if before > 0 && boss.currentHP == 0 && boss.defeatedAt == 0 {
        boss := boss.(defeatedAt := now);
        boss := boss.(byMatch := id);
        var top := TopDamagePlayer(m);
        boss := boss.(byUser := top);
      }
    }

    /** finalizeModeResultLocked. */
    method FinalizeModeResult(id: string, now: int)
      requires Valid() && id in matches
      modifies `matches, `boss, `hits
      ensures Valid() && View() == Finalize(old(View()), id, now)
    {
      var m := matches[id];
      if m.mode != "world_boss" || m.finalized {
        return;
      }
      var total := TotalDamageDealt(m);
      var damage := Min(total, m.bossMaxHP);
      m := m.(bossDamage := damage);
      var applied := StrikeWorldBoss(id, m, damage, now);
      m := m.(finalized := true);
      matches := matches[id := m];
      hits := hits + [Hit(id, applied)];
    }

    /** applyRewardsLocked. */
    method ApplyRewards(user: string, rewards: seq<Reward>)
      requires user in wallets
      modifies `wallets
      ensures wallets == old(wallets)[user := Credit(old(wallets)[user], rewards)]
    {
      for i := 0 to |rewards|
        invariant user in wallets
        invariant wallets == old(wallets)[user := Credit(old(wallets)[user], rewards[..i])]
      {
        assert rewards[..i + 1][..i] == rewards[..i];
        if rewards[i].amount > 0 {
          var w := wallets[user];
          wallets := wallets[user := match rewards[i]
                                     case Points(n) => w.(points := w.points + n)
                                     case ChestKeys(n) => w.(keys := w.keys + n)
                                     case CardDust(n) => w.(dust := w.dust + n)];
        }
      }
      assert rewards[..|rewards|] == rewards;
    }

    /** One seat of a settlement loop, with the verdict the loop found. */
    method SettleSeat(id: string, m: Match, ghost d: Decision, user: string, verdict: Verdict, rewarded: bool)
      requires verdict == VerdictOf(m, d, user) && rewarded == !d.ByFlight?
      modifies `records, `replays, `wallets
      ensures View() == WriteSeat(names, old(View()), id, m, d, user)
    {
      if user !in m.players || user !in wallets {
        return;
      }
      var player := m.players[user];
      var record := Record(verdict, player.score, Rewards(player, verdict));
      if !rewarded {
        record := record.(rewards := []);
      }
      records := records[(id, user) := record];
      replays := replays[names.replay(id, user, player.lastSeq, player.score) := Replay(record, m.endedAt)];
      if rewarded {
        ApplyRewards(user, record.rewards);
      }
    }

    /** The settlement loop of settleMatchLocked: the winner loop decides the modes without a boss. */
    method SettleSeatsByScore(id: string, m: Match)
      modifies `records, `replays, `wallets
      ensures View() == WriteSeats(names, old(View()), id, m, ByScore, |m.ids|)
    {
      var winner, draw := WinnerByScore(m);
      for k := 0 to |m.ids|
        invariant View() == WriteSeats(names, old(View()), id, m, ByScore, k)
      {
        var user := m.ids[k];
        var verdict := Loss;
        if m.mode == "instance_boss" {
          if m.bossHP == 0 && AnyConnected(m) {
            verdict := Win;
          }
        } else if m.mode == "world_boss" {
          if DamageOf(m.players, user) > 0 {
            verdict := Win;
          }
        } else if draw {
          verdict := Draw;
        } else if user == winner {
          verdict := Win;
        }
        SettleSeat(id, m, ByScore, user, verdict, true);
      }
    }

    /** The settlement loop of settleMatchFromWinnerLocked. */
    method SettleSeatsByWinner(id: string, m: Match, winner: string)
      modifies `records, `replays, `wallets
      ensures View() == WriteSeats(names, old(View()), id, m, ByWinner(winner), |m.ids|)
    {
      var draw := winner == "";
      for k := 0 to |m.ids|
        invariant View() == WriteSeats(names, old(View()), id, m, ByWinner(winner), k)
      {
        var verdict := Loss;
        if draw {
          verdict := Draw;
        } else if m.ids[k] == winner {
          verdict := Win;
        }
        SettleSeat(id, m, ByWinner(winner), m.ids[k], verdict, true);
      }
    }

    /** The settlement loop of settleFleeLocked. */
    method SettleSeatsFled(id: string, m: Match, leaver: string, both: bool)
      modifies `records, `replays, `wallets
      ensures View() == WriteSeats(names, old(View()), id, m, ByFlight(leaver, both), |m.ids|)
    {
      for k := 0 to |m.ids|
        invariant View() == WriteSeats(names, old(View()), id, m, ByFlight(leaver, both), k)
      {
        var verdict := Flee;
        if !both && m.ids[k] != leaver {
          verdict := Win;
        }
        SettleSeat(id, m, ByFlight(leaver, both), m.ids[k], verdict, false);
      }
    }

    /** settleMatchLocked; the store's answer comes in as stored. */
    method SettleByScore(id: string, route: Route, now: int, stored: bool) returns (ok: bool)
      requires Valid() && id in matches
      modifies this
      ensures Valid() && ok == stored
      ensures View() == SettleWith(names, old(View()), id, ByScore, route, now, stored)
    {
      matches := matches[id := matches[id].(status := Ended)];
      matches := matches[id := matches[id].(endedAt := now)];
      var m := matches[id];
      ghost var marked := View();
      assert marked == Marked(old(View()), id, now);
      if !stored {
        log := log + [Lost(id, route)];
        return false;
      }
      FinalizeModeResult(id, now);
      ghost var final := View();
      SettleSeatsByScore(id, m);
      SeatsLeave(names, final, id, m, ByScore, |m.ids|);
      log := log + [Scored(id, route, Payouts(m, ByScore))];
      ok := true;
    }

    /** settleMatchFromWinnerLocked: the same without the mode's final result. */
    method SettleFromWinner(id: string, winner: string, now: int, stored: bool) returns (ok: bool)
      requires Valid() && id in matches
      modifies this
      ensures Valid() && ok == stored
      ensures View() == SettleWith(names, old(View()), id, ByWinner(winner), ResultCallback, now, stored)
    {
      matches := matches[id := matches[id].(status := Ended)];
      matches := matches[id := matches[id].(endedAt := now)];
      var m := matches[id];
      ghost var marked := View();
      assert marked == Marked(old(View()), id, now);
      if !stored {
        log := log + [Lost(id, ResultCallback)];
        return false;
      }
      SettleSeatsByWinner(id, m, winner);
      SeatsLeave(names, marked, id, m, ByWinner(winner), |m.ids|);
      log := log + [Scored(id, ResultCallback, Payouts(m, ByWinner(winner)))];
      ok := true;
    }

    /** settleFleeLocked. */
    method SettleFlee(id: string, leaver: string, both: bool, now: int, stored: bool) returns (ok: bool)
      requires Valid() && id in matches
      modifies this
      ensures Valid() && View() == FleeWith(names, old(View()), id, leaver, both, now, stored)
      ensures ok == (stored || old(matches[id].status.Ended?))
    {
      if matches[id].status.Ended? {
        return true;
      }
      matches := matches[id := matches[id].(status := Ended)];
      var m := matches[id];
      ghost var marked := View();
      assert marked == Marked(old(View()), id, m.endedAt);
      if !stored {
        log := log + [Fled(id, false)];
        return false;
      }
      FinalizeModeResult(id, now);
      ghost var final := View();
      SettleSeatsFled(id, m, leaver, both);
      SeatsLeave(names, final, id, m, ByFlight(leaver, both), |m.ids|);
      log := log + [Fled(id, true)];
      ok := true;
    }

    /** SettleMatch. */
    method SettleMatchOf(id: string, user: string, now: int, stored: bool) returns (reply: SettleReply)
      requires Valid()
      modifies this
      ensures Valid() && (reply, View()) == SettleMatch(names, old(View()), id, user, now, stored)
    {
      if id !in matches {
        return Refused(NotFound);
      }
      if user !in matches[id].players {
        return Refused(NotInMatch);
      }
      var duplicate := matches[id].status.Ended?;
      if !duplicate {
        var ok := SettleByScore(id, ClientSettle, now, stored);
        if !ok {
          return Refused(StoreFailed);
        }
      }
      if (id, user) !in records {
        return Refused(NoSettlement);
      }
      reply := Settled(records[(id, user)], duplicate);
    }

    /** SubmitBattleResult. */
    method SubmitBattleResult(r: Result, now: int, stored: bool) returns (reply: ResultReply)
      requires Valid()
      modifies this
      ensures Valid() && (reply, View()) == SubmitResult(names, old(View()), r, now, stored)
    {
      if r.id !in matches {
        return Rejected(NotFound);
      }
      var m := matches[r.id];
      if r.mode != m.mode {
        return Rejected(WrongMode);
      }
      if !r.sound {
        return Rejected(Incompatible);
      }
      if r.server != m.server {
        return Rejected(WrongServer);
      }
      var same := SameStringSet(r.players, PlayerIDs(m.seats));
      if !same {
        return Rejected(WrongPlayers);
      }
      if m.status.Ended? {
        return if m.hash != "" && m.hash == r.hash then Duplicate else Rejected(WrongState);
      }
      if !m.status.Running? {
        return Rejected(WrongState);
      }
      m := m.(hash := r.hash);
      matches := matches[r.id := m];
      var ok := SettleByScore(r.id, SignedResult, now, stored);
      reply := if ok then Accepted else Rejected(StoreFailed);
    }

    /** The damage of the callback's players, entry by entry. */
    method OverwriteDamage(m: Match, entries: seq<Entry>) returns (players: map<string, Player>)
      ensures players == Overwrite(m.players, m.seats, entries)
    {
      players := m.players;
      for i := 0 to |entries|
        invariant players == Overwrite(m.players, m.seats, entries[..i])
      {
        assert entries[..i + 1][..i] == entries[..i];
        var user := UserOf(m.seats, TrimSpace(entries[i].player));
        if user.Some? && user.value in players && entries[i].damage > 0 {
          players := players[user.value := players[user.value].(damage := entries[i].damage)];
        }
      }
      assert entries[..|entries|] == entries;
    }

    /** ApplyBattleResultCallback. */
    method ApplyBattleResultCallback(c: Callback, now: int, stored: bool) returns (reply: ResultReply)
      requires Valid()
      modifies this
      ensures Valid() && (reply, View()) == ApplyCallback(names, old(View()), c, now, stored)
    {
      var id := TrimSpace(c.id);
      if id == "" || id !in matches {
        return Rejected(NotFound);
      }
      var m := matches[id];
      var error := CallbackError(m, c);
      if error.Some? {
        return Rejected(error.value);
      }
      if m.status.Ended? {
        return if m.hash == TrimSpace(c.hash) then Duplicate else Rejected(WrongState);
      }
      if !m.status.Running? {
        return Rejected(WrongState);
      }
      var winner := "";
      if TrimSpace(c.winner) != "" {
        winner := UserOf(m.seats, TrimSpace(c.winner)).GetOr("");
      }
      var players := OverwriteDamage(m, c.entries);
      m := m.(players := players);
      m := m.(hash := TrimSpace(c.hash));
      matches := matches[id := m];
      var ok := SettleFromWinner(id, winner, now, stored);
      reply := if ok then Accepted else Rejected(StoreFailed);
    }

    /** AbandonMatch. */
    method AbandonMatch(id: string, user: string, now: int, stored: bool) returns (error: Option<Error>)
      requires Valid()
      modifies this
      ensures Valid() && (error, View()) == Abandon(names, old(View()), id, user, now, stored)
    {
      error := Check(id, user);
      if error.Some? {
        return;
      }
      var p := matches[id].players[user].(connected := false, droppedAt := now, abandoned := true);
      SetPlayer(id, user, p);
      var ok := SettleFlee(id, user, false, now, stored);
      error := if ok then None else Some(StoreFailed);
    }

    /** The guard the player's own calls share. */
    method Check(id: string, user: string) returns (error: Option<Error>)
      ensures error == Guard(View(), id, user)
    {
      if id !in matches {
        return Some(NotFound);
      }
      if user !in matches[id].players {
        return Some(NotInMatch);
      }
      error := if matches[id].status.Ended? then Some(WrongState) else None;
    }

    method DisconnectMatch(id: string, user: string, now: int) returns (error: Option<Error>)
      requires Valid()
      modifies `matches
      ensures Valid() && (error, View()) == Disconnect(old(View()), id, user, now)
    {
      error := Check(id, user);
      if error.None? {
        SetPlayer(id, user, matches[id].players[user].(connected := false, droppedAt := now));
      }
    }

    method ReconnectMatch(id: string, user: string, now: int) returns (error: Option<Error>)
      requires Valid()
      modifies `matches
      ensures Valid() && (error, View()) == Reconnect(old(View()), id, user, now)
    {
      error := Check(id, user);
      if error.None? {
        var p := matches[id].players[user];
        if p.droppedAt != 0 && now - p.droppedAt >= RECONNECT_WINDOW {
          return Some(WindowExpired);
        }
        SetPlayer(id, user, p.(connected := true, droppedAt := 0));
      }
    }

    method ReadyMatch(id: string, user: string) returns (error: Option<Error>)
      requires Valid()
      modifies `matches
      ensures Valid() && (error, View()) == Ready(old(View()), id, user)
    {
      error := Check(id, user);
      if error.None? {
        SetPlayer(id, user, matches[id].players[user].(ready := true));
        if AllReady(matches[id]) {
          matches := matches[id := matches[id].(status := Running)];
        }
      }
    }

    /** BindBattleServerAllocation, as far as the settlement sees it. */
    method BindBattleServer(id: string, server: string, now: int)
      requires Valid()
      modifies `matches
      ensures Valid() && View() == Bind(old(View()), id, server, now)
    {
      if id in matches {
        var name := TrimSpace(server);
        if name == "" {
          name := "battle-" + id;
        }
        matches := matches[id := matches[id].(server := name)];
        matches := matches[id := matches[id].(allocatedAt := now)];
      }
    }

    /** createMatchFromParticipantsLocked. */
    method CreateMatch(id: string, mode: string, participants: seq<string>, catalogHP: Option<nat>, roomHP: nat,
                       server: string, now: int)
      requires Valid()
      modifies `matches
      ensures Valid() && View() == Create(names, old(View()), id, mode, participants, catalogHP, roomHP, server, now)
    {
      if id in matches {
        return;
      }
      var hp: nat := ModeBossHP(mode);
      if mode == "world_boss" {
        hp := Max(0, boss.currentHP);
      }
      if catalogHP.Some? {
        hp := catalogHP.value;
      }
      if roomHP > 0 {
        hp := roomHP;
      }
      var ids, players := SeatParticipants(participants);
      matches := matches[id := Match(mode, ids, players, SeatsFor(names, id, ids), Loading, 0, 0, hp, hp, "",
                                     server, now, false, 0, [])];
    }

    /** The participants the service knows, in order, each with a fresh player. */
    method SeatParticipants(participants: seq<string>) returns (ids: seq<string>, players: map<string, Player>)
      ensures ids == Known(wallets, participants)
      ensures players == map u | u in ids :: NEWCOMER
    {
      ids, players := [], map[];
      for i := 0 to |participants|
        invariant ids == Known(wallets, participants[..i])
        invariant forall u :: u in players <==> u in ids
        invariant forall u :: u in players ==> players[u] == NEWCOMER
      {
        KnownGrows(wallets, participants, i);
        if participants[i] in wallets {
          ids := ids + [participants[i]];
          players := players[participants[i] := NEWCOMER];
        }
      }
      assert participants[..|participants|] == participants;
    }

    method SetPlayer(id: string, user: string, p: Player)
      requires Valid() && id in matches && user in matches[id].players
      modifies `matches
      ensures Valid() && View() == WithPlayer(old(View()), id, user, p)
    {
      var m := matches[id];
      matches := matches[id := m.(players := m.players[user := p])];
    }

    /** expireStaleAllocationsLocked: every listed allocation that outlived its time. */
    method ExpireStaleAllocations(ids: seq<string>, now: int, stored: string -> bool)
      requires Valid()
      modifies this
      ensures Valid() && View() == Expire(names, old(View()), ids, now, stored)
    {
      for i := 0 to |ids|
        invariant Valid() && View() == Expire(names, old(View()), ids[..i], now, stored)
      {
        assert ids[..i + 1][..i] == ids[..i];
        var id := ids[i];
        if id in matches && matches[id].allocatedAt != 0 && now - matches[id].allocatedAt >= ALLOCATION_TTL
           && matches[id].endedAt == 0
        {
          var ok := SettleByScore(id, Expiry, now, stored(id));
        }
      }
      assert ids[..|ids|] == ids;
    }

    /** SubmitBattleEvents: every row is checked before any is appended. */
    method SubmitBattleEvents(id: string, server: string, cards: set<string>, rows: seq<Row>, within: bool, now: int,
                              stored: bool)
      returns (error: Option<Error>)
      requires Valid()
      modifies this
      ensures Valid()
      ensures (error, View()) == SubmitEvents(names, old(View()), id, server, cards, rows, within, now, stored)
    {
      if id !in matches {
        return Some(NotFound);
      }
      var m := matches[id];
      if server != m.server {
        return Some(WrongServer);
      }
      if !m.status.Running? {
        return Some(WrongState);
      }
      if !within {
        return Some(RateLimited);
      }
      if rows == [] {
        return Some(NoEvents);
      }
      if |rows| > MAX_EVENTS {
        return Some(TooManyEvents);
      }
      var good := ValidRows(m, cards, rows);
      if !good {
        return Some(BadRow);
      }
      AppendRows(id, rows);
      var gone := NamesAllGone(rows);
      if gone && UnresolvedDrop(matches[id]) {
        var ok := SettleFlee(id, "", true, now, stored);
        return if ok then None else Some(StoreFailed);
      }
      error := None;
    }

    method ValidRows(m: Match, cards: set<string>, rows: seq<Row>) returns (good: bool)
      ensures good == RowsOK(m, cards, rows)
    {
      for i := 0 to |rows|
        invariant RowsOK(m, cards, rows[..i])
      {
        if !RowOK(m, cards, rows[i]) {
          return false;
        }
      }
      assert rows[..|rows|] == rows;
      good := true;
    }

    method AppendRows(id: string, rows: seq<Row>)
      requires Valid() && id in matches
      modifies `matches
      ensures Valid()
      ensures matches == old(matches)[id := old(matches)[id].(rows := old(matches)[id].rows + rows)]
    {
      ghost var before := matches[id];
      assert before.rows + rows[..0] == before.rows;
      for i := 0 to |rows|
        invariant Valid() && id in matches
        invariant matches == old(matches)[id := before.(rows := before.rows + rows[..i])]
      {
        assert before.rows + rows[..i] + [rows[i]] == before.rows + rows[..i + 1];
        matches := matches[id := matches[id].(rows := matches[id].rows + [rows[i]])];
      }
      assert rows[..|rows|] == rows;
    }

    method NamesAllGone(rows: seq<Row>) returns (gone: bool)
      ensures gone == AllGone(rows)
    {
      for i := 0 to |rows|
        invariant forall j :: 0 <= j < i ==> !MatchLevel(rows[j].kind)
      {
        if MatchLevel(rows[i].kind) {
          return true;
        }
      }
      gone := false;
    }

    /** SubmitInput: points and damage in the order of the source's branches. */
    method SubmitInputOf(id: string, user: string, packet: Packet) returns (error: Option<Error>)
      requires Valid()
      modifies `matches
      ensures Valid() && (error, View()) == SubmitInput(old(View()), id, user, packet)
    {
      if id !in matches {
        return Some(NotFound);
      }
      if user !in matches[id].players {
        return Some(NotInMatch);
      }
      if !matches[id].status.Running? || !matches[id].players[user].connected {
        return Some(WrongState);
      }
      var m := matches[id];
      var moved := ApplyInputTo(m, user, packet);
      InputAlike(m, user, packet);
      matches := matches[id := moved];
      error := None;
    }
  }

  lemma {:induction false} KnownGrows(users: map<string, Wallet>, participants: seq<string>, i: nat)
    requires i < |participants|
    ensures Known(users, participants[..i + 1]) ==
              Known(users, participants[..i]) + if participants[i] in users then [participants[i]] else []
  {
    if i > 0 {
      var rest := participants[1..];
      KnownGrows(users, rest, i - 1);
      assert participants[..i + 1][1..] == rest[..i] && participants[..i][1..] == rest[..i - 1];
    } else {
      assert participants[..1][1..] == [] && participants[..0] == [];
    }
  }

  /** Writing seats moves settlements, replays and wallets only. */
  lemma {:induction false} SeatsLeave(names: Names, s: State, id: string, m: Match, d: Decision, k: nat)
    requires k <= |m.ids|
    ensures var s' := WriteSeats(names, s, id, m, d, k);
            s' == s.(records := s'.records, replays := s'.replays, wallets := s'.wallets)
  {
    if k > 0 {
      SeatsLeave(names, s, id, m, d, k - 1);
    }
  }

  /** applyInputLocked. */
  method ApplyInputTo(m: Match, user: string, packet: Packet) returns (r: Match)
    requires user in m.players
    ensures r == ApplyInput(m, user, packet)
  {
    r := m.(players := m.players[user := m.players[user].(lastSeq := packet.seqNo)]);
    if packet.tick > r.tick {
      r := r.(tick := packet.tick);
    }
    if packet.slow {
      r := AddScore(r, user, 3, 1);
    }
    if packet.shoot {
      r := AddScore(r, user, 5, 0);
    }
    assert r == Steer(m, user, packet);
    if packet.bomb {
      r := AddScore(r, user, 2, 0);
      r := Damage(r, user, 35);
    }
    ghost var bombed := Bomb(Steer(m, user, packet), user, packet.bomb);
    assert r == bombed;
    if packet.card.Some? {
      r := AddScore(r, user, packet.card.value.1, 0);
      r := Damage(r, user, packet.card.value.0);
    }
    assert r == Card(bombed, user, packet.card);
    r := AddScore(r, user, 1, 0);
    if packet.shoot {
      r := Damage(r, user, 4);
    }
  }
}
