/**
 * Rooms and the queue tickets of their seats: creating, joining, leaving and cancelling,
 * the host's edits of the room options, and the match a full room forms.
 */
module Rooms {
  import opened Text

  const ROOM_TTL: int := 30 * 60
  const MIN_MAX_TICKS: int := 600
  const MAX_MAX_TICKS: int := 7200
  const MAX_TICKS_STEP: int := 60
  const MIN_BOSS_HP: int := 1000
  const MAX_BOSS_HP: int := 100000

  // ----- mode parameters -----

  /** A decoded JSON value: text, an integer, a number kept as text, a fraction, null, or anything else. */
  datatype Value = Str(text: string) | Int(n: int) | Num(digits: string) | Frac(r: real) | Null | Other

  type Params = map<string, Value>

  function Trunc(r: real): (n: int) { if r >= 0.0 then r.Floor else -((-r).Floor) }

  /** coopPlayersFromModeParams; zero when absent or not a number. */
  function CoopOf(params: Params): (n: int) {
    if "coop_players" !in params then 0
    else
      match params["coop_players"]
      case Str(text) => Atoi(TrimSpace(text)).GetOr(0)
      case Int(n) => n
      case Num(digits) => Atoi(TrimSpace(digits)).GetOr(0)
      case Frac(r) => Trunc(r)
      case _ => 0
  }

  /** intFromAnyValue. */
  function IntAt(params: Params, key: string): (n: int) {
    if key !in params then 0
    else
      match params[key]
      case Int(n) => n
      case Num(digits) => Atoi(digits).GetOr(0)
      case Frac(r) => if Trunc(r) as real == r then Trunc(r) else 0
      case _ => 0
  }

  /** validateCoopPlayers, maxTicksFromModeParams and bossHPFromModeParams. */
  predicate CoopOK(mode: string, params: Params) {
    mode == "coop_boss" && "coop_players" in params ==> CoopOf(params) in {2, 4}
  }

  predicate MaxTicksOK(params: Params) {
    var n := IntAt(params, "max_ticks");
    n <= 0 || (MIN_MAX_TICKS <= n <= MAX_MAX_TICKS && n % MAX_TICKS_STEP == 0)
  }

  predicate BossHPOK(params: Params) {
    var n := IntAt(params, "boss_health");
    n <= 0 || MIN_BOSS_HP <= n <= MAX_BOSS_HP
  }

  // ----- modes -----

  /** The least and the most players of a mode. */
  function Players(mode: string): (r: Option<(nat, nat)>)
    ensures r.Some? ==> 2 <= r.value.0 <= r.value.1
  {
    if mode in {"certification", "pvp_duel", "mvp_boss_race"} then Some((2, 2))
    else if mode == "battle_royale" then Some((5, 10))
    else if mode in {"world_boss", "instance_boss"} then Some((4, 8))
    else if mode == "coop_boss" then Some((2, 4))
    else None
  }

  // ----- rooms and tickets -----

  datatype RoomStatus = Waiting | Matched | Closed | Expired

  datatype Room = Room(mode: string, host: string, tickets: seq<string>, status: RoomStatus, game: string,
                       boss: string, stage: string, params: Params, coop: int, expiresAt: int)

  datatype TicketStatus = Queued | Cancelled | Found

  datatype Ticket = Ticket(user: string, room: string, status: TicketStatus, game: string, boss: string, stage: string,
                           params: Params, coop: int)

  /** games holds the tickets each formed match was made of. */
  datatype State = State(rooms: map<string, Room>, tickets: map<string, Ticket>, games: map<string, seq<string>>)

  /** The ids the server knows, and whether the room store hands out its own parameter map. */
  datatype Config = Config(bosses: set<string>, stages: set<string>, shared: bool)

  datatype Error =
    | InvalidMode | InvalidRequest | UnknownBoss | UnknownStage | NotFound | NotHost | Unavailable | RoomFull
    | StageMismatch | AlreadyMatched | WrongState | TooManySeated

  /** requiredPlayersForRoomLocked. */
  function Required(r: Room): (n: nat) {
    if r.coop > 0 then r.coop
    else
      match Players(r.mode)
      case Some(p) => p.0
      case None => 0
  }

  /** loadLiveRoomRecordLocked. */
  predicate LiveRoom(s: State, code: string) {
    code in s.rooms && s.rooms[code].status in {Waiting, Matched}
  }

  predicate HoldsSeat(s: State, r: Room, user: string) {
    exists i :: 0 <= i < |r.tickets| && r.tickets[i] in s.tickets && s.tickets[r.tickets[i]].user == user
  }

  /** waitingRoomTicketForUserLocked: an open seat in some waiting room. */
  predicate OpenSeat(s: State, code: string, i: nat, user: string) {
    code in s.rooms && s.rooms[code].status.Waiting? && i < |s.rooms[code].tickets|
    && s.rooms[code].tickets[i] in s.tickets
    && var t := s.tickets[s.rooms[code].tickets[i]]; t.user == user && t.status.Queued? && t.game == ""
  }

  predicate Waits(s: State, user: string) {
    exists code, i :: code in s.rooms && 0 <= i < |s.rooms[code].tickets| && OpenSeat(s, code, i, user)
  }

  /** createMatchLocked on a room's first seats, and the room's own record of it. */
  function MarkFound(tickets: map<string, Ticket>, group: seq<string>, game: string): (r: map<string, Ticket>)
    ensures r.Keys == tickets.Keys
  {
    if group == [] then tickets
    else
      var before := MarkFound(tickets, group[..|group| - 1], game);
      var id := group[|group| - 1];
      if id in before then before[id := before[id].(status := Found, game := game)] else before
  }

  function FormMatch(s: State, code: string, game: string): (s': State)
    requires code in s.rooms && Required(s.rooms[code]) <= |s.rooms[code].tickets|
  {
    var group := s.rooms[code].tickets[..Required(s.rooms[code])];
    State(s.rooms[code := s.rooms[code].(status := Matched, game := game)], MarkFound(s.tickets, group, game),
          s.games[game := group])
  }

  /** formMatchIfRoomFullLocked. */
  function FormIfFull(s: State, code: string, game: string): (s': State)
    requires code in s.rooms
  {
    var r := s.rooms[code];
    if !r.status.Waiting? || Required(r) == 0 || |r.tickets| < Required(r) then s else FormMatch(s, code, game)
  }

  // ----- creating and joining -----

  /** A create request whose deck, loadout, ownership and entry checks passed; code and id are fresh. */
  datatype NewRoom = NewRoom(code: string, id: string, mode: string, boss: string, stage: string, params: Params)

  datatype Reply = Fine | Retry | Refused(error: Error)

  function Create(cfg: Config, s: State, user: string, q: NewRoom, now: int): (r: (Reply, State)) {
    var mode := if TrimSpace(q.mode) == "" then "certification" else TrimSpace(q.mode);
    var boss := TrimSpace(q.boss);
    if Players(mode).None? then (Refused(InvalidMode), s)
    else if boss != "" && boss !in cfg.bosses then (Refused(UnknownBoss), s)
    else if !CoopOK(mode, q.params) || !MaxTicksOK(q.params) || !BossHPOK(q.params) then (Refused(InvalidRequest), s)
    else if Waits(s, user) then (Retry, s)
    else
      var coop := if mode == "coop_boss" then CoopOf(q.params) else 0;
      var ticket := Ticket(user, q.code, Queued, "", boss, q.stage, q.params, coop);
      var room := Room(mode, user, [q.id], Waiting, "", boss, q.stage, q.params, coop, now + ROOM_TTL);
      (Fine, s.(rooms := s.rooms[q.code := room], tickets := s.tickets[q.id := ticket]))
  }

  /** A join request whose deck, loadout and entry checks passed; id and game are fresh. */
  datatype Arrival = Arrival(id: string, mode: string, stage: Option<string>, game: string)

  function Enter(s: State, user: string, code: string, q: Arrival): (r: (Reply, State)) {
    if !LiveRoom(s, code) then (Refused(NotFound), s)
    else
      var room := s.rooms[code];
      if Players(room.mode).None? then (Refused(InvalidMode), s)
      else if HoldsSeat(s, room, user) then (Retry, s)
      else if !room.status.Waiting? then (Refused(Unavailable), s)
      else if TrimSpace(q.mode) != "" && TrimSpace(q.mode) != room.mode then (Refused(InvalidMode), s)
      else if |room.tickets| >= Players(room.mode).value.1 then (Refused(RoomFull), s)
      else if q.stage.Some? && q.stage.value != room.stage then (Refused(StageMismatch), s)
      else
        var ticket := Ticket(user, code, Queued, "", room.boss, room.stage, room.params, room.coop);
        var seated := s.(rooms := s.rooms[code := room.(tickets := room.tickets + [q.id])],
                         tickets := s.tickets[q.id := ticket]);
        (Fine, FormIfFull(seated, code, q.game))
  }

  // ----- leaving -----

  /** removeString. */
  function Without(ids: seq<string>, id: string): (r: seq<string>) {
    if ids == [] then []
    else (if ids[0] == id then [] else [ids[0]]) + Without(ids[1..], id)
  }

  /** The host after a departure: the first remaining queued seat of somebody else, if the host left. */
  function NextHost(tickets: map<string, Ticket>, ids: seq<string>, host: string, leaver: string): (h: string) {
    if ids == [] || host != leaver then host
    else if ids[0] in tickets && tickets[ids[0]].status.Queued?
    then NextHost(tickets, ids[1..], tickets[ids[0]].user, leaver)
    else NextHost(tickets, ids[1..], host, leaver)
  }

  /** cancelRoomTicketLocked. */
  function CancelSeat(s: State, id: string, user: string): (s': State)
    requires id in s.tickets
  {
    var t := s.tickets[id];
    var cancelled := s.(tickets := s.tickets[id := t.(status := Cancelled)]);
    if !LiveRoom(s, t.room) then cancelled
    else
      var room := s.rooms[t.room];
      var rest := Without(room.tickets, id);
      cancelled.(rooms := s.rooms[t.room :=
        if rest == [] then room.(tickets := [], status := Closed)
        else room.(tickets := rest, host := NextHost(cancelled.tickets, rest, room.host, user))])
  }

  /** The first seat of the room the user holds. */
  function SeatOf(s: State, ids: seq<string>, user: string): (id: Option<string>)
    ensures id.Some? ==> id.value in ids && id.value in s.tickets && s.tickets[id.value].user == user
    ensures id.None? ==> forall i :: 0 <= i < |ids| && ids[i] in s.tickets ==> s.tickets[ids[i]].user != user
  {
    if ids == [] then None
    else if ids[0] in s.tickets && s.tickets[ids[0]].user == user then Some(ids[0])
    else SeatOf(s, ids[1..], user)
  }

  function Leave(s: State, user: string, code: string): (r: (Reply, State)) {
    if !LiveRoom(s, code) then (Refused(NotFound), s)
    else
      var seat := SeatOf(s, s.rooms[code].tickets, user);
      if seat.None? then (Refused(NotFound), s)
      else
        var t := s.tickets[seat.value];
        if t.game != "" || s.rooms[code].game != "" then (Refused(AlreadyMatched), s)
        else if t.status.Cancelled? then (Fine, s)
        else if !t.status.Queued? then (Refused(WrongState), s)
        else (Fine, CancelSeat(s, seat.value, user))
  }

  /** CancelTicket on a room ticket. */
  function Cancel(s: State, user: string, id: string): (r: (Reply, State)) {
    if id !in s.tickets || s.tickets[id].user != user then (Refused(NotFound), s)
    else if s.tickets[id].game != "" then (Refused(AlreadyMatched), s)
    else if s.tickets[id].status.Cancelled? then (Fine, s)
    else if !s.tickets[id].status.Queued? then (Refused(WrongState), s)
    else (Fine, CancelSeat(s, id, user))
  }

  // ----- the host's edits -----

  /** An edit; params lists the given keys in the order they are written. */
  datatype Options = Options(boss: Option<string>, stage: Option<string>, coop: Option<int>,
                             params: seq<(string, Value)>)

  function Merge(params: Params, edits: seq<(string, Value)>): (r: Params) {
    if edits == [] then params
    else
      var before := Merge(params, edits[..|edits| - 1]);
      var (key, value) := edits[|edits| - 1];
      if TrimSpace(key) == "" then before else before[TrimSpace(key) := value]
  }

  function EditBoss(cfg: Config, room: Room, o: Options): (r: (Option<Error>, Room)) {
    if o.boss.None? then (None, room)
    else if TrimSpace(o.boss.value) != "" && TrimSpace(o.boss.value) !in cfg.bosses then (Some(UnknownBoss), room)
    else (None, room.(boss := TrimSpace(o.boss.value)))
  }

  function EditStage(cfg: Config, room: Room, o: Options): (r: (Option<Error>, Room)) {
    if o.stage.None? then (None, room)
    else if TrimSpace(o.stage.value) != "" && TrimSpace(o.stage.value) !in cfg.stages then (Some(UnknownStage), room)
    else (None, room.(stage := TrimSpace(o.stage.value)))
  }

  function EditCoop(room: Room, o: Options): (r: (Option<Error>, Room)) {
    if o.coop.None? then (None, room)
    else if room.mode != "coop_boss" || o.coop.value !in {2, 4} then (Some(InvalidRequest), room)
    else if |room.tickets| > o.coop.value then (Some(TooManySeated), room)
    else (None, room.(coop := o.coop.value))
  }

  /** The parameters are merged before they are checked. */
  function EditParams(room: Room, o: Options): (r: (Option<Error>, Room)) {
    if o.params == [] then (None, room)
    else
      var merged := room.(params := Merge(room.params, o.params));
      if !CoopOK(room.mode, merged.params) || !MaxTicksOK(merged.params) || !BossHPOK(merged.params)
      then (Some(InvalidRequest), merged)
      else
        var seats := CoopOf(merged.params);
        if room.mode != "coop_boss" || seats <= 0 || seats == room.coop then (None, merged)
        else if |room.tickets| > seats then (Some(TooManySeated), merged)
        else (None, merged.(coop := seats))
  }

  /** The edited room, or the first error and the room as far as it was edited. */
  function Edit(cfg: Config, room: Room, o: Options): (r: (Option<Error>, Room)) {
    var (e1, r1) := EditBoss(cfg, room, o);
    if e1.Some? then (e1, room)
    else
      var (e2, r2) := EditStage(cfg, r1, o);
      if e2.Some? then (e2, room)
      else
        var (e3, r3) := EditCoop(r2, o);
        if e3.Some? then (e3, room)
        else
          var (e4, r4) := EditParams(r3, o);
          if e4.Some? then (e4, room.(params := r4.params)) else (None, r4)
  }

  predicate Changed(room: Room, edited: Room, o: Options) {
    edited != room || exists i :: 0 <= i < |o.params| && TrimSpace(o.params[i].0) != ""
  }

  function WriteThrough(tickets: map<string, Ticket>, ids: seq<string>, room: Room): (r: map<string, Ticket>)
    ensures r.Keys == tickets.Keys
  {
    if ids == [] then tickets
    else
      var before := WriteThrough(tickets, ids[..|ids| - 1], room);
      var id := ids[|ids| - 1];
      if id !in before then before
      else
        before[id := before[id].(boss := room.boss, coop := room.coop, params := room.params,
                                 stage := if room.stage != "" then room.stage else before[id].stage)]
  }

  /**
   * UpdateRoomOptions. A store that shares its parameter map keeps the merged
   * parameters even when the edit is refused.
   */
  function Update(cfg: Config, s: State, user: string, code: string, o: Options, game: string): (r: (Reply, State)) {
    if !LiveRoom(s, code) then (Refused(NotFound), s)
    else
      var room := s.rooms[code];
      if room.host != user then (Refused(NotHost), s)
      else if !room.status.Waiting? then (Refused(Unavailable), s)
      else
        var (error, edited) := Edit(cfg, room, o);
        if error.Some? then
          (Refused(error.value), if cfg.shared then s.(rooms := s.rooms[code := edited]) else s)
        else if !Changed(room, edited, o) then (Fine, s)
        else
          var written := s.(rooms := s.rooms[code := edited], tickets := WriteThrough(s.tickets, room.tickets, edited));
          (Fine, FormIfFull(written, code, game))
  }

  /** The sweep of one room that outlived its term. */
  function Sweep(s: State, code: string, now: int): (s': State) {
    if !LiveRoom(s, code) || s.rooms[code].expiresAt >= now then s
    else s.(rooms := s.rooms[code := s.rooms[code].(status := Expired)])
  }
}
