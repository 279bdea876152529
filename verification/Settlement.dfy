/**
 * How a match runs, how it ends and what it pays: one function for each atomic step
 * of the lobby. Five routes end a match; some test its status, one its end time.
 */
module Settlement {
  import opened Text
  import MixedPool

  /** battleAllocationTTL and ReconnectWindowSeconds, in seconds. */
  const ALLOCATION_TTL: int := 15 * 60
  const RECONNECT_WINDOW: int := 30
  const MAX_EVENTS: nat := 64
  const TICK_SLACK: int := 64
  const MAX_REASON: nat := 128

  datatype Status = Loading | Running | Ended

  datatype Player = Player(score: nat, graze: nat, damage: nat, lastSeq: int, ready: bool, connected: bool,
                           abandoned: bool, droppedAt: int)

  /** A seat of the battle allocation: the roster id of a user. */
  datatype Seat = Seat(user: string, player: string)

  /** A card event the battle server simulated. */
  datatype Row = Row(kind: string, tick: int, user: string, card: string, value: int, reason: string)

  /** Clock readings are seconds; zero is the unset time. finalized is WorldBossApplied. */
  datatype Match = Match(mode: string, ids: seq<string>, players: map<string, Player>, seats: seq<Seat>,
                         status: Status, endedAt: int, tick: int, bossHP: nat, bossMaxHP: nat, hash: string,
                         server: string, allocatedAt: int, finalized: bool, bossDamage: nat, rows: seq<Row>)

  datatype Verdict = Win | Loss | Draw | Flee

  datatype Reward = Points(amount: int) | ChestKeys(amount: int) | CardDust(amount: int)

  /** The settlement of one seat. */
  datatype Record = Record(verdict: Verdict, score: int, rewards: seq<Reward>)

  datatype Replay = Replay(record: Record, endedAt: int)

  datatype Wallet = Wallet(points: int, keys: int, dust: int)

  datatype WorldBoss = WorldBoss(maxHP: int, currentHP: int, defeatedAt: int, byMatch: string, byUser: string)

  /** What decides the verdicts: the lobby's scores, a named winner, or a flight. */
  datatype Decision = ByScore | ByWinner(winner: string) | ByFlight(leaver: string, both: bool)

  datatype Route = ClientSettle | SignedResult | ResultCallback | Expiry

  datatype Payout = Payout(user: string, rewards: seq<Reward>)

  /** How a match ended: rewards applied, a flight, or a settle the match store refused. */
  datatype Outcome =
    | Scored(id: string, route: Route, payouts: seq<Payout>)
    | Fled(id: string, stored: bool)
    | Lost(id: string, route: Route)

  /** Damage one match took off the world boss. */
  datatype Hit = Hit(id: string, applied: int)

  /** log and hits record what happened, in order. */
  datatype State = State(matches: map<string, Match>, wallets: map<string, Wallet>,
                         records: map<(string, string), Record>, replays: map<string, Replay>, boss: WorldBoss,
                         log: seq<Outcome>, hits: seq<Hit>)

  /** The hashes behind replay ids and roster ids. */
  datatype Names = Names(replay: (string, string, int, int) -> string, player: (string, string) -> string)

  function Min(a: int, b: int): (r: int) { if a < b then a else b }

  function Max(a: int, b: int): (r: int) { if a < b then b else a }

  // ----- players -----

  /** The users of a match, each once. */
  function Roster(ids: seq<string>): (users: seq<string>)
    ensures forall u :: u in users <==> u in ids
    ensures NoRepeats(users)
  {
    if ids == [] then []
    else
      var before := Roster(ids[..|ids| - 1]);
      if ids[|ids| - 1] in before then before else before + [ids[|ids| - 1]]
  }

  function DamageOf(players: map<string, Player>, user: string): (d: nat) {
    if user in players then players[user].damage else 0
  }

  function DamageSum(players: map<string, Player>, users: seq<string>): (d: nat) {
    if users == [] then 0
    else DamageSum(players, users[..|users| - 1]) + DamageOf(players, users[|users| - 1])
  }

  /** totalDamageDealt. */
  function TotalDamage(m: Match): (d: nat) { DamageSum(m.players, Roster(m.ids)) }

  /** The first of the users with the most damage. */
  function TopDamage(players: map<string, Player>, users: seq<string>): (user: string) {
    if users == [] then ""
    else
      var before := TopDamage(players, users[..|users| - 1]);
      var last := users[|users| - 1];
      if |users| == 1 || DamageOf(players, last) > DamageOf(players, before) then last else before
  }

  predicate AnyConnected(m: Match) { exists u :: u in m.players && m.players[u].connected }

  // ----- verdicts and rewards -----

  function ScoreAt(m: Match, i: nat): (score: int)
    requires i < |m.ids|
  {
    if m.ids[i] in m.players then m.players[m.ids[i]].score else 0
  }

  predicate TopAt(m: Match, i: nat)
    requires i < |m.ids|
  {
    forall j :: 0 <= j < |m.ids| ==> ScoreAt(m, j) <= ScoreAt(m, i)
  }

  /** Two seats share the highest score. */
  predicate Tied(m: Match) { exists i, j :: 0 <= i < j < |m.ids| && TopAt(m, i) && TopAt(m, j) }

  predicate Leads(m: Match, user: string) { exists i :: 0 <= i < |m.ids| && m.ids[i] == user && TopAt(m, i) }

  function ScoreVerdict(m: Match, user: string): (v: Verdict) {
    if m.mode == "instance_boss" then (if m.bossHP == 0 && AnyConnected(m) then Win else Loss)
    else if m.mode == "world_boss" then (if DamageOf(m.players, user) > 0 then Win else Loss)
    else if Tied(m) then Draw
    else if Leads(m, user) then Win else Loss
  }

  function VerdictOf(m: Match, d: Decision, user: string): (v: Verdict) {
    match d
    case ByScore => ScoreVerdict(m, user)
    case ByWinner(winner) => if winner == "" then Draw else if user == winner then Win else Loss
    case ByFlight(leaver, both) => if !both && user != leaver then Win else Flee
  }

  function Rewards(p: Player, v: Verdict): (rewards: seq<Reward>) {
    [Points(100 + p.score / 10)] + (if v.Win? then [ChestKeys(1)] else [])
    + if p.graze >= 10 then [CardDust(p.graze / 10)] else []
  }

  /** The settlement of a seat; a flight clears its rewards. */
  function RecordOf(m: Match, d: Decision, user: string): (r: Record) {
    var verdict := VerdictOf(m, d, user);
    if user !in m.players then Record(verdict, 0, [])
    else Record(verdict, m.players[user].score, if d.ByFlight? then [] else Rewards(m.players[user], verdict))
  }

  function CreditOne(w: Wallet, reward: Reward): (w': Wallet) {
    if reward.amount <= 0 then w
    else
      match reward
      case Points(n) => w.(points := w.points + n)
      case ChestKeys(n) => w.(keys := w.keys + n)
      case CardDust(n) => w.(dust := w.dust + n)
  }

  /** applyRewardsLocked. */
  function Credit(w: Wallet, rewards: seq<Reward>): (w': Wallet) {
    if rewards == [] then w else CreditOne(Credit(w, rewards[..|rewards| - 1]), rewards[|rewards| - 1])
  }

  // ----- writing the settlements -----

  /** One seat: its settlement, its replay and, unless the match was fled, its rewards. */
  function WriteSeat(names: Names, s: State, id: string, m: Match, d: Decision, user: string): (s': State) {
    if user !in m.players || user !in s.wallets then s
    else
      var record := RecordOf(m, d, user);
      s.(records := s.records[(id, user) := record],
         replays := s.replays[names.replay(id, user, m.players[user].lastSeq, m.players[user].score) :=
                                Replay(record, m.endedAt)],
         wallets := if d.ByFlight? then s.wallets
                    else s.wallets[user := Credit(s.wallets[user], record.rewards)])
  }

  function WriteSeats(names: Names, s: State, id: string, m: Match, d: Decision, k: nat): (s': State)
    requires k <= |m.ids|
  {
    if k == 0 then s else WriteSeat(names, WriteSeats(names, s, id, m, d, k - 1), id, m, d, m.ids[k - 1])
  }

  /** What the seats of a match are paid, in seat order. */
  function Payouts(m: Match, d: Decision): (payouts: seq<Payout>)
    ensures |payouts| == |m.ids|
  {
    seq(|m.ids|, i requires 0 <= i < |m.ids| => Payout(m.ids[i], RecordOf(m, d, m.ids[i]).rewards))
  }

  // ----- the world boss -----

  function Strike(boss: WorldBoss, m: Match, id: string, damage: int, now: int): (r: (WorldBoss, int)) {
    var applied := Min(Max(0, boss.currentHP), damage);
    var after := Max(0, boss.currentHP - applied);
    if boss.currentHP > 0 && after == 0 && boss.defeatedAt == 0
    then (boss.(currentHP := after, defeatedAt := now, byMatch := id,
                byUser := TopDamage(m.players, MixedPool.SortStrings(m.ids))), applied)
    else (boss.(currentHP := after), applied)
  }

  /** finalizeModeResultLocked: a world-boss match lands its damage once. */
  function Finalize(s: State, id: string, now: int): (s': State)
    requires id in s.matches
  {
    var m := s.matches[id];
    if m.mode != "world_boss" || m.finalized then s
    else
      var damage := Min(TotalDamage(m), m.bossMaxHP);
      var (boss, applied) := Strike(s.boss, m, id, damage, now);
      s.(matches := s.matches[id := m.(finalized := true, bossDamage := damage)], boss := boss,
         hits := s.hits + [Hit(id, applied)])
  }

  // ----- the two ways to end a match -----

  function Marked(s: State, id: string, endedAt: int): (s': State)
    requires id in s.matches
  {
    s.(matches := s.matches[id := s.matches[id].(status := Ended, endedAt := endedAt)])
  }

  /** settleMatchLocked and settleMatchFromWinnerLocked; only the first finalizes the mode. */
  function SettleWith(names: Names, s: State, id: string, d: Decision, route: Route, now: int, stored: bool)
    : (s': State)
    requires id in s.matches && !d.ByFlight?
  {
    var marked := Marked(s, id, now);
    var m := marked.matches[id];
    if !stored then marked.(log := marked.log + [Lost(id, route)])
    else
      var final := if d.ByScore? then Finalize(marked, id, now) else marked;
      WriteSeats(names, final, id, m, d, |m.ids|).(log := final.log + [Scored(id, route, Payouts(m, d))])
  }

  /** settleFleeLocked: the end time stays unset. */
  function FleeWith(names: Names, s: State, id: string, leaver: string, both: bool, now: int, stored: bool)
    : (s': State)
    requires id in s.matches
  {
    if s.matches[id].status.Ended? then s
    else
      var marked := Marked(s, id, s.matches[id].endedAt);
      var m := marked.matches[id];
      if !stored then marked.(log := marked.log + [Fled(id, false)])
      else
        var final := Finalize(marked, id, now);
        WriteSeats(names, final, id, m, ByFlight(leaver, both), |m.ids|).(log := final.log + [Fled(id, true)])
  }

  // ----- the routes -----

  datatype Error =
    | NotFound | NotInMatch | WrongState | StoreFailed | NoSettlement | WrongMode | WrongServer | WrongPlayers
    | Incompatible | BlankHash | UnknownWinner | WindowExpired | RateLimited | NoEvents | TooManyEvents | BadRow

  datatype SettleReply = Settled(record: Record, duplicate: bool) | Refused(error: Error)

  /** SettleMatch, by a player. */
  function SettleMatch(names: Names, s: State, id: string, user: string, now: int, stored: bool)
    : (r: (SettleReply, State))
  {
    if id !in s.matches then (Refused(NotFound), s)
    else if user !in s.matches[id].players then (Refused(NotInMatch), s)
    else
      var duplicate := s.matches[id].status.Ended?;
      var after := if duplicate then s else SettleWith(names, s, id, ByScore, ClientSettle, now, stored);
      if !duplicate && !stored then (Refused(StoreFailed), after)
      else if (id, user) !in after.records then (Refused(NoSettlement), after)
      else (Settled(after.records[(id, user)], duplicate), after)
  }

  /** A result from the battle server, signed or called back; sound stands for its shape and version checks. */
  datatype Result = Result(id: string, mode: string, server: string, players: seq<string>, hash: string, sound: bool)

  datatype ResultReply = Accepted | Duplicate | Rejected(error: Error)

  function Trimmed(s: seq<string>): (r: seq<string>)
    ensures |r| == |s|
  {
    seq(|s|, i requires 0 <= i < |s| => TrimSpace(s[i]))
  }

  /** sameStringSet: the same trimmed strings, counted, none of them blank. */
  predicate SameStrings(left: seq<string>, right: seq<string>) {
    "" !in Trimmed(left) && "" !in Trimmed(right) && multiset(Trimmed(left)) == multiset(Trimmed(right))
  }

  function PlayerIDs(seats: seq<Seat>): (ids: seq<string>) {
    seq(|seats|, i requires 0 <= i < |seats| => seats[i].player)
  }

  function SignedError(m: Match, r: Result): (e: Option<Error>) {
    if r.mode != m.mode then Some(WrongMode)
    else if !r.sound then Some(Incompatible)
    else if r.server != m.server then Some(WrongServer)
    else if !SameStrings(r.players, PlayerIDs(m.seats)) then Some(WrongPlayers)
    else None
  }

  /** SubmitBattleResult. */
  function SubmitResult(names: Names, s: State, r: Result, now: int, stored: bool): (reply: (ResultReply, State)) {
    if r.id !in s.matches then (Rejected(NotFound), s)
    else
      var m := s.matches[r.id];
      var error := SignedError(m, r);
      if error.Some? then (Rejected(error.value), s)
      else if m.status.Ended? then (if m.hash != "" && m.hash == r.hash then Duplicate else Rejected(WrongState), s)
      else if !m.status.Running? then (Rejected(WrongState), s)
      else
        var sealed := s.(matches := s.matches[r.id := m.(hash := r.hash)]);
        var after := SettleWith(names, sealed, r.id, ByScore, SignedResult, now, stored);
        (if stored then Accepted else Rejected(StoreFailed), after)
  }

  datatype Entry = Entry(player: string, damage: int)

  /** The user behind a roster id; a later seat wins. */
  function UserOf(seats: seq<Seat>, player: string): (user: Option<string>) {
    if seats == [] then None
    else if seats[|seats| - 1].player == player then Some(seats[|seats| - 1].user)
    else UserOf(seats[..|seats| - 1], player)
  }

  /** The reported damage overwrites the simulated one when it is positive. */
  function Overwrite(players: map<string, Player>, seats: seq<Seat>, entries: seq<Entry>)
    : (players': map<string, Player>)
    ensures players'.Keys == players.Keys
  {
    if entries == [] then players
    else
      var before := Overwrite(players, seats, entries[..|entries| - 1]);
      var entry := entries[|entries| - 1];
      var user := UserOf(seats, TrimSpace(entry.player));
      if user.Some? && user.value in before && entry.damage > 0
      then before[user.value := before[user.value].(damage := entry.damage)] else before
  }

  function EntryPlayers(entries: seq<Entry>): (ids: seq<string>) {
    seq(|entries|, i requires 0 <= i < |entries| => entries[i].player)
  }

  /** A callback names a winner, blank for none, and the damage of each player. */
  datatype Callback = Callback(id: string, mode: string, hash: string, winner: string, entries: seq<Entry>, sound: bool)

  function CallbackError(m: Match, c: Callback): (e: Option<Error>) {
    var winner := TrimSpace(c.winner);
    if TrimSpace(c.mode) == "" || TrimSpace(c.mode) != m.mode then Some(WrongMode)
    else if !c.sound then Some(Incompatible)
    else if TrimSpace(c.hash) == "" then Some(BlankHash)
    else if !SameStrings(EntryPlayers(c.entries), PlayerIDs(m.seats)) then Some(WrongPlayers)
    else if winner != "" && winner !in PlayerIDs(m.seats) then Some(UnknownWinner)
    else None
  }

  /** ApplyBattleResultCallback. */
  function ApplyCallback(names: Names, s: State, c: Callback, now: int, stored: bool): (reply: (ResultReply, State)) {
    var id := TrimSpace(c.id);
    if id == "" || id !in s.matches then (Rejected(NotFound), s)
    else
      var m := s.matches[id];
      var error := CallbackError(m, c);
      if error.Some? then (Rejected(error.value), s)
      else if m.status.Ended? then (if m.hash == TrimSpace(c.hash) then Duplicate else Rejected(WrongState), s)
      else if !m.status.Running? then (Rejected(WrongState), s)
      else
        var winner := if TrimSpace(c.winner) == "" then "" else UserOf(m.seats, TrimSpace(c.winner)).GetOr("");
        var sealed := s.(matches := s.matches[id := m.(players := Overwrite(m.players, m.seats, c.entries),
                                                       hash := TrimSpace(c.hash))]);
        var after := SettleWith(names, sealed, id, ByWinner(winner), ResultCallback, now, stored);
        (if stored then Accepted else Rejected(StoreFailed), after)
  }

  function WithPlayer(s: State, id: string, user: string, p: Player): (s': State)
    requires id in s.matches
  {
    s.(matches := s.matches[id := s.matches[id].(players := s.matches[id].players[user := p])])
  }

  /** The guard of the player's own calls: a match they are in that has not ended. */
  function Guard(s: State, id: string, user: string): (e: Option<Error>)
    ensures e.None? ==> id in s.matches && user in s.matches[id].players && !s.matches[id].status.Ended?
  {
    if id !in s.matches then Some(NotFound)
    else if user !in s.matches[id].players then Some(NotInMatch)
    else if s.matches[id].status.Ended? then Some(WrongState)
    else None
  }

  /** AbandonMatch. */
  function Abandon(names: Names, s: State, id: string, user: string, now: int, stored: bool)
    : (r: (Option<Error>, State))
  {
    var error := Guard(s, id, user);
    if error.Some? then (error, s)
    else
      var p := s.matches[id].players[user].(connected := false, droppedAt := now, abandoned := true);
      (if stored then None else Some(StoreFailed),
       FleeWith(names, WithPlayer(s, id, user, p), id, user, false, now, stored))
  }

  function Disconnect(s: State, id: string, user: string, now: int): (r: (Option<Error>, State)) {
    var error := Guard(s, id, user);
    if error.Some? then (error, s)
    else (None, WithPlayer(s, id, user, s.matches[id].players[user].(connected := false, droppedAt := now)))
  }

  function Reconnect(s: State, id: string, user: string, now: int): (r: (Option<Error>, State)) {
    var error := Guard(s, id, user);
    if error.Some? then (error, s)
    else
      var p := s.matches[id].players[user];
      if p.droppedAt != 0 && now - p.droppedAt >= RECONNECT_WINDOW then (Some(WindowExpired), s)
      else (None, WithPlayer(s, id, user, p.(connected := true, droppedAt := 0)))
  }

  predicate AllReady(m: Match) { |set u | u in m.players && m.players[u].ready| == |m.ids| }

  /** ReadyMatch: the match runs once as many players are ready as it has seats. */
  function Ready(s: State, id: string, user: string): (r: (Option<Error>, State)) {
    var error := Guard(s, id, user);
    if error.Some? then (error, s)
    else
      var readied := WithPlayer(s, id, user, s.matches[id].players[user].(ready := true));
      var m := readied.matches[id];
      (None, if AllReady(m) then readied.(matches := readied.matches[id := m.(status := Running)]) else readied)
  }

  // ----- battle events -----

  /** hasUnresolvedDropLocked. */
  predicate UnresolvedDrop(m: Match) {
    exists i :: 0 <= i < |m.ids| && m.ids[i] in m.players
                && !m.players[m.ids[i]].connected && !m.players[m.ids[i]].abandoned
  }

  predicate MatchLevel(kind: string) { kind == "all_players_disconnected" }

  predicate KnownKind(kind: string) {
    kind in {"card_accepted", "card_effect_applied", "card_rejected", "boss_defeated", "all_players_disconnected",
             "hit", "graze"}
  }

  /** validateBattleEventRowLocked, for the given card catalog. */
  predicate RowOK(m: Match, cards: set<string>, row: Row) {
    && KnownKind(row.kind) && row.tick >= 0 && |row.reason| <= MAX_REASON
    && (!MatchLevel(row.kind) ==> row.tick <= m.tick + TICK_SLACK && row.user in m.players)
    && (row.kind == "boss_defeated" ==> TrimSpace(row.reason) != "")
    && (row.kind in {"hit", "graze", "card_accepted", "card_effect_applied", "card_rejected"} ==> row.value >= 0)
    && (row.kind in {"card_accepted", "card_effect_applied", "card_rejected"} ==>
          TrimSpace(row.card) != "" && TrimSpace(row.card) in cards)
  }

  predicate RowsOK(m: Match, cards: set<string>, rows: seq<Row>) {
    forall i :: 0 <= i < |rows| ==> RowOK(m, cards, rows[i])
  }

  predicate AllGone(rows: seq<Row>) { exists i :: 0 <= i < |rows| && MatchLevel(rows[i].kind) }

  /** SubmitBattleEvents: every row or none, then the mutual flight. The rate limiter's answer comes in as within. */
  function SubmitEvents(names: Names, s: State, id: string, server: string, cards: set<string>, rows: seq<Row>,
                        within: bool, now: int, stored: bool)
    : (r: (Option<Error>, State))
  {
    if id !in s.matches then (Some(NotFound), s)
    else
      var m := s.matches[id];
      if server != m.server then (Some(WrongServer), s)
      else if !m.status.Running? then (Some(WrongState), s)
      else if !within then (Some(RateLimited), s)
      else if rows == [] then (Some(NoEvents), s)
      else if |rows| > MAX_EVENTS then (Some(TooManyEvents), s)
      else if !RowsOK(m, cards, rows) then (Some(BadRow), s)
      else
        var appended := s.(matches := s.matches[id := m.(rows := m.rows + rows)]);
        if AllGone(rows) && UnresolvedDrop(m)
        then (if stored then None else Some(StoreFailed), FleeWith(names, appended, id, "", true, now, stored))
        else (None, appended)
  }

  // ----- inputs -----

  function AddScore(m: Match, user: string, score: nat, graze: nat): (m': Match)
    requires user in m.players
  {
    var p := m.players[user];
    m.(players := m.players[user := p.(score := p.score + score, graze := p.graze + graze)])
  }

  /** Damage counts whole while the boss stands, and its health stops at zero. */
  function Damage(m: Match, user: string, damage: int): (m': Match)
    requires user in m.players
  {
    if damage <= 0 || m.bossHP == 0 then m
    else
      m.(players := m.players[user := m.players[user].(damage := m.players[user].damage + damage)],
         bossHP := Max(0, m.bossHP - damage))
  }

  /** An input; card is the activation of a card request that was accepted. */
  datatype Packet = Packet(seqNo: int, tick: int, slow: bool, shoot: bool, bomb: bool, card: Option<(int, nat)>)

  function Steer(m: Match, user: string, packet: Packet): (m': Match)
    requires user in m.players
    ensures user in m'.players
  {
    var moved := m.(players := m.players[user := m.players[user].(lastSeq := packet.seqNo)],
                    tick := Max(m.tick, packet.tick));
    var slowed := if packet.slow then AddScore(moved, user, 3, 1) else moved;
    if packet.shoot then AddScore(slowed, user, 5, 0) else slowed
  }

  function Bomb(m: Match, user: string, bomb: bool): (m': Match)
    requires user in m.players
    ensures user in m'.players
  {
    if bomb then Damage(AddScore(m, user, 2, 0), user, 35) else m
  }

  function Card(m: Match, user: string, card: Option<(int, nat)>): (m': Match)
    requires user in m.players
    ensures user in m'.players
  {
    if card.Some? then Damage(AddScore(m, user, card.value.1, 0), user, card.value.0) else m
  }

  function Shoot(m: Match, user: string, shoot: bool): (m': Match)
    requires user in m.players
    ensures user in m'.players
  {
    var scored := AddScore(m, user, 1, 0);
    if shoot then Damage(scored, user, 4) else scored
  }

  /** applyInputLocked, in the order of its branches. */
  function ApplyInput(m: Match, user: string, packet: Packet): (m': Match)
    requires user in m.players
  {
    Shoot(Card(Bomb(Steer(m, user, packet), user, packet.bomb), user, packet.card), user, packet.shoot)
  }

  function SubmitInput(s: State, id: string, user: string, packet: Packet): (r: (Option<Error>, State)) {
    if id !in s.matches then (Some(NotFound), s)
    else if user !in s.matches[id].players then (Some(NotInMatch), s)
    else if !s.matches[id].status.Running? || !s.matches[id].players[user].connected then (Some(WrongState), s)
    else (None, s.(matches := s.matches[id := ApplyInput(s.matches[id], user, packet)]))
  }

  /** A bullet of the simulation touches a player: a hit costs score, a graze earns it. */
  function Contact(s: State, id: string, user: string, hit: bool): (s': State) {
    if Guard(s, id, user).Some? || !s.matches[id].status.Running? then s
    else
      var p := s.matches[id].players[user];
      WithPlayer(s, id, user,
                 if hit then p.(score := Max(0, p.score - 25)) else p.(score := p.score + 3, graze := p.graze + 1))
  }

  // ----- creation, allocation, expiry -----

  /** bossMaxHPForMode. */
  function ModeBossHP(mode: string): (hp: nat) {
    if mode == "world_boss" then 100000
    else if mode == "instance_boss" then 16000
    else if mode == "battle_royale" then 0
    else 2400
  }

  /** The health of the match's boss: the room's choice, else the catalog's, else the mode's. */
  function StartingHP(s: State, mode: string, catalogHP: Option<nat>, roomHP: nat): (hp: nat) {
    if roomHP > 0 then roomHP
    else if catalogHP.Some? then catalogHP.value
    else if mode == "world_boss" then Max(0, s.boss.currentHP)
    else ModeBossHP(mode)
  }

  function Known(users: map<string, Wallet>, participants: seq<string>): (ids: seq<string>)
    ensures forall u :: u in ids <==> u in participants && u in users
  {
    if participants == [] then []
    else (if participants[0] in users then [participants[0]] else []) + Known(users, participants[1..])
  }

  function SeatsFor(names: Names, id: string, ids: seq<string>): (seats: seq<Seat>) {
    seq(|ids|, i requires 0 <= i < |ids| => Seat(ids[i], names.player(id, ids[i])))
  }

  const NEWCOMER: Player := Player(0, 0, 0, 0, false, true, false, 0)

  /** createMatchFromParticipantsLocked; match ids come from a counter, so a used one never returns. */
  function Create(names: Names, s: State, id: string, mode: string, participants: seq<string>,
                  catalogHP: Option<nat>, roomHP: nat, server: string, now: int)
    : (s': State)
  {
    if id in s.matches then s
    else
      var ids := Known(s.wallets, participants);
      var hp := StartingHP(s, mode, catalogHP, roomHP);
      s.(matches := s.matches[id := Match(mode, ids, map u | u in ids :: NEWCOMER, SeatsFor(names, id, ids), Loading,
                                          0, 0, hp, hp, "", server, now, false, 0, [])])
  }

  /** BindBattleServerAllocation: a new server for the match, and a new allocation time. */
  function Bind(s: State, id: string, server: string, now: int): (s': State) {
    if id !in s.matches then s
    else
      var name := if TrimSpace(server) == "" then "battle-" + id else TrimSpace(server);
      s.(matches := s.matches[id := s.matches[id].(server := name, allocatedAt := now)])
  }

  predicate Stale(m: Match, now: int) {
    m.allocatedAt != 0 && now - m.allocatedAt >= ALLOCATION_TTL && m.endedAt == 0
  }

  function ExpireOne(names: Names, s: State, id: string, now: int, stored: bool): (s': State) {
    if id !in s.matches || !Stale(s.matches[id], now) then s
    else SettleWith(names, s, id, ByScore, Expiry, now, stored)
  }

  /** expireStaleAllocationsLocked, over the allocations in any order. */
  function Expire(names: Names, s: State, ids: seq<string>, now: int, stored: string -> bool): (s': State) {
    if ids == [] then s
    else
      var last := ids[|ids| - 1];
      ExpireOne(names, Expire(names, s, ids[..|ids| - 1], now, stored), last, now, stored(last))
  }
}
