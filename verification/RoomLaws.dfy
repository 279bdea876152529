/**
 * What a room holds after a request, told from the request: the choices of its host, its seats, the
 * tickets that carry them, and which requests are accepted.
 */
module RoomLaws {
  import opened Text
  import opened Rooms
  import opened RoomRuns

  // ----- parameters -----

  /** The players a mode waits for, unless the room sets its own number. */
  lemma NeedOfMode(room: Room)
    requires OptionsOK(room)
    ensures Required(room) == (if room.coop > 0 then room.coop
                               else if room.mode == "battle_royale" then 5
                               else if room.mode in {"world_boss", "instance_boss"} then 4
                               else 2)
  {
  }

  lemma TruncsTowardZero(r: real)
    ensures r >= 0.0 ==> Trunc(r) as real <= r < (Trunc(r) + 1) as real
    ensures r < 0.0 ==> (Trunc(r) - 1) as real < r <= Trunc(r) as real
  {
  }

  /** Whole numbers in the parameters: two or four players, ten to 120 minutes in ticks, 1000 to 100000 health. */
  lemma NumberRules(mode: string, params: Params, n: int)
    ensures "coop_players" in params && params["coop_players"] == Int(n) ==>
              CoopOf(params) == n && (CoopOK(mode, params) <==> mode != "coop_boss" || n == 2 || n == 4)
    ensures "coop_players" !in params ==> CoopOf(params) == 0 && CoopOK(mode, params)
    ensures "max_ticks" in params && params["max_ticks"] == Int(n) ==>
              (MaxTicksOK(params) <==> n <= 0 || (600 <= n <= 7200 && n % 60 == 0))
    ensures "max_ticks" !in params ==> MaxTicksOK(params)
    ensures "boss_health" in params && params["boss_health"] == Int(n) ==>
              (BossHPOK(params) <==> n <= 0 || 1000 <= n <= 100000)
    ensures "boss_health" !in params ==> BossHPOK(params)
  {
  }

  /** The last edit of a key counts; keys are trimmed, and a blank key is ignored. */
  lemma {:induction false} LastEditCounts(params: Params, edits: seq<(string, Value)>, i: nat)
    requires i < |edits| && TrimSpace(edits[i].0) != ""
    requires forall j :: i < j < |edits| ==> TrimSpace(edits[j].0) != TrimSpace(edits[i].0)
    ensures TrimSpace(edits[i].0) in Merge(params, edits)
    ensures Merge(params, edits)[TrimSpace(edits[i].0)] == edits[i].1
    decreases |edits|
  {
    var front := edits[..|edits| - 1];
    if i < |front| {
      assert front[i] == edits[i] && forall j :: i < j < |front| ==> front[j] == edits[j];
      LastEditCounts(params, front, i);
    }
  }

  // ----- the host's edits -----

  /** When the parts of an edit are all right for the room. */
  predicate Editable(cfg: Config, room: Room, o: Options) {
    ColumnsOK(cfg, room, o) && (o.params != [] ==> !Unacceptable(room, Merge(room.params, o.params)))
  }

  /** The room with exactly what the host chose; a count in the parameters wins over the host's own. */
  function Chosen(room: Room, o: Options): (edited: Room) {
    var params := Merge(room.params, o.params);
    room.(boss := if o.boss.Some? then TrimSpace(o.boss.value) else room.boss,
          stage := if o.stage.Some? then TrimSpace(o.stage.value) else room.stage,
          params := params,
          coop := if room.mode == "coop_boss" && o.params != [] && CoopOf(params) > 0 then CoopOf(params)
                  else o.coop.GetOr(room.coop))
  }

  lemma EditStores(cfg: Config, room: Room, o: Options)
    requires OptionsOK(room) && |room.tickets| < Required(room)
    ensures Edit(cfg, room, o).0.None? <==> Editable(cfg, room, o)
    ensures Editable(cfg, room, o) ==> Edit(cfg, room, o).1 == Chosen(room, o)
  {
    var r1 := EditBoss(cfg, room, o).1;
    var r2 := EditStage(cfg, r1, o).1;
    var r3 := EditCoop(r2, o).1;
    ColumnsShape(cfg, room, o);
    if ColumnsOK(cfg, room, o) {
      ParamsShape(r3, o);
      assert Unacceptable(r3, Merge(r3.params, o.params)) <==> Unacceptable(room, Merge(room.params, o.params));
      assert r3.boss == if o.boss.Some? then TrimSpace(o.boss.value) else room.boss;
      assert r3.stage == if o.stage.Some? then TrimSpace(o.stage.value) else room.stage;
    }
  }

  /** Who may edit what: the host of a waiting room, with choices that are all right. */
  predicate MayEdit(cfg: Config, s: State, user: string, code: string, o: Options) {
    && code in s.rooms && s.rooms[code].status.Waiting? && s.rooms[code].host == user
    && Editable(cfg, s.rooms[code], o)
  }

  /** A seat's ticket after an edit: the room's boss and count, and its own stage where the room has none. */
  predicate Carries(t: Ticket, t': Ticket, room: Room) {
    && t'.boss == room.boss && t'.coop == room.coop && t'.user == t.user && t'.room == t.room
    && t'.stage == if room.stage != "" then room.stage else t.stage
  }

  /** The edit names a parameter. */
  predicate NamesKey(o: Options) { exists i :: 0 <= i < |o.params| && TrimSpace(o.params[i].0) != "" }

  /** A refused edit reaches no ticket, no match and nothing of the room but leaked parameters. */
  lemma EditRefused(cfg: Config, s: State, user: string, code: string, o: Options, game: string)
    requires Orderly(s, false) && !MayEdit(cfg, s, user, code, o)
    ensures var (reply, s') := Update(cfg, s, user, code, o, game);
            && reply.Refused? && s'.tickets == s.tickets && s'.games == s.games && s'.rooms.Keys == s.rooms.Keys
            && (!Leaks(cfg, s, user, code, o) ==> s' == s)
            && (forall c :: c in s.rooms && c != code ==> s'.rooms[c] == s.rooms[c])
            && (code in s.rooms ==> s'.rooms[code] == s.rooms[code].(params := s'.rooms[code].params))
  {
    if LiveRoom(s, code) && s.rooms[code].status.Waiting? && s.rooms[code].host == user {
      var room := s.rooms[code];
      assert RoomOK(s, code, false);
      EditStores(cfg, room, o);
      RefusedEdit(cfg, room, o);
      RefusalMovesParamsIff(cfg, room, o);
      assert s.rooms[code := room] == s.rooms;
    }
  }

  /**
   * An accepted edit stores exactly the host's choices, in the room and in the ticket of every seat. Only
   * parameters that leaked earlier can stay apart, until an edit names a parameter.
   */
  lemma EditReachesSeats(cfg: Config, s: State, user: string, code: string, o: Options, game: string, i: nat)
    requires Orderly(s, false) && MayEdit(cfg, s, user, code, o) && i < |s.rooms[code].tickets|
    ensures var (reply, s') := Update(cfg, s, user, code, o, game);
            var (room, room', id) := (s.rooms[code], s'.rooms[code], s.rooms[code].tickets[i]);
            && reply.Fine? && s'.rooms.Keys == s.rooms.Keys
            && room' == Chosen(room, o).(status := room'.status, game := room'.game)
            && id in s.tickets && id in s'.tickets && Carries(s.tickets[id], s'.tickets[id], room')
            && (NamesKey(o) || s.tickets[id].params == room.params ==> s'.tickets[id].params == room'.params)
  {
    var room := s.rooms[code];
    assert RoomOK(s, code, false) && SeatOK(s, code, room.tickets[i], false);
    EditStores(cfg, room, o);
    EditShape(cfg, room, o);
    if Changed(room, Chosen(room, o), o) {
      WriteThroughExact(s.tickets, room.tickets, Chosen(room, o));
      FormedKeeps(Written(s, code, Chosen(room, o)), code, game, room.tickets[i]);
    }
  }

  /** Forming the match leaves a ticket's options alone. */
  lemma FormedKeeps(s: State, code: string, game: string, id: string)
    requires code in s.rooms && id in s.tickets
    ensures var s' := FormIfFull(s, code, game);
            && s'.rooms.Keys == s.rooms.Keys && id in s'.tickets
            && s'.rooms[code] == s.rooms[code].(status := s'.rooms[code].status, game := s'.rooms[code].game)
            && s'.tickets[id] == s.tickets[id].(status := s'.tickets[id].status, game := s'.tickets[id].game)
  {
    var room := s.rooms[code];
    if room.status.Waiting? && Required(room) != 0 && |room.tickets| >= Required(room) {
      MarkFoundExact(s.tickets, room.tickets[..Required(room)], game);
    }
  }

  // ----- creating and joining -----

  /** A room is created exactly for a known mode and boss, good parameters, and a user who waits nowhere. */
  lemma RoomCreated(cfg: Config, s: State, user: string, q: NewRoom, now: int)
    ensures var (reply, s') := Create(cfg, s, user, q, now);
            var mode := if TrimSpace(q.mode) == "" then "certification" else TrimSpace(q.mode);
            && (reply.Fine? <==>
                  && Players(mode).Some? && (TrimSpace(q.boss) == "" || TrimSpace(q.boss) in cfg.bosses)
                  && CoopOK(mode, q.params) && MaxTicksOK(q.params) && BossHPOK(q.params) && !Waits(s, user))
            && (!reply.Fine? ==> s' == s)
            && (reply.Fine? ==>
                  && s'.games == s.games && s'.rooms == s.rooms[q.code := s'.rooms[q.code]]
                  && s'.tickets == s.tickets[q.id := s'.tickets[q.id]]
                  && var (room, t) := (s'.rooms[q.code], s'.tickets[q.id]);
                     && room.mode == mode && room.host == user && room.tickets == [q.id] && room.status.Waiting?
                     && room.game == "" && room.boss == TrimSpace(q.boss) && room.stage == q.stage
                     && room.params == q.params && room.expiresAt == now + 30 * 60
                     && room.coop == (if mode == "coop_boss" then CoopOf(q.params) else 0)
                     && t == Ticket(user, q.code, Queued, "", room.boss, room.stage, room.params, room.coop))
  {
  }

  /** Joining takes a waiting room, no seat of the user in it, and the room's own mode and stage, if any are named. */
  lemma SeatTaken(s: State, user: string, code: string, q: Arrival)
    requires Orderly(s, false) && q.id !in s.tickets
    ensures var (reply, s') := Enter(s, user, code, q);
            && (reply.Fine? <==>
                  && code in s.rooms && s.rooms[code].status.Waiting? && !HoldsSeat(s, s.rooms[code], user)
                  && TrimSpace(q.mode) in {"", s.rooms[code].mode}
                  && (q.stage.Some? ==> q.stage.value == s.rooms[code].stage))
            && (!reply.Fine? ==> s' == s)
            && (reply.Fine? ==>
                  var (room, room') := (s.rooms[code], s'.rooms[code]);
                  && room' == room.(tickets := room.tickets + [q.id], status := room'.status, game := room'.game)
                  && q.id in s'.tickets
                  && var t := s'.tickets[q.id];
                     t == Ticket(user, code, t.status, t.game, room.boss, room.stage, room.params, room.coop))
  {
    if code in s.rooms && s.rooms[code].status.Waiting? {
      assert RoomOK(s, code, false);
    }
    if Enter(s, user, code, q).0.Fine? {
      FormedKeeps(Seated(s, code, user, q.id), code, q.game, q.id);
    }
  }

  /** A user waits exactly as the holder of a queued ticket of a waiting room. */
  lemma WaitsIff(s: State, user: string)
    requires Orderly(s, false)
    ensures Waits(s, user) <==>
              exists id :: id in s.tickets && s.tickets[id].user == user && s.tickets[id].status.Queued?
                           && s.tickets[id].room in s.rooms && s.rooms[s.tickets[id].room].status.Waiting?
  {
    if Waits(s, user) {
      var code, i :| code in s.rooms && 0 <= i < |s.rooms[code].tickets| && OpenSeat(s, code, i, user);
      assert RoomOK(s, code, false);
      assert SeatOK(s, code, s.rooms[code].tickets[i], false);
    }
    if id :| id in s.tickets && s.tickets[id].user == user && s.tickets[id].status.Queued?
             && s.tickets[id].room in s.rooms && s.rooms[s.tickets[id].room].status.Waiting? {
      var code := s.tickets[id].room;
      assert TicketOK(s, id) && RoomOK(s, code, false);
      var i :| 0 <= i < |s.rooms[code].tickets| && s.rooms[code].tickets[i] == id;
      assert SeatOK(s, code, s.rooms[code].tickets[i], false);
      assert OpenSeat(s, code, i, user);
    }
  }

  // ----- leaving -----

  /** A departure cancels the seat's ticket and no other, keeps the other seats in order, and closes an empty room. */
  lemma SeatReleased(s: State, code: string, i: nat)
    requires Orderly(s, false) && code in s.rooms && s.rooms[code].status.Waiting? && i < |s.rooms[code].tickets|
    requires s.rooms[code].tickets[i] in s.tickets && s.tickets[s.rooms[code].tickets[i]].room == code
    ensures var (room, id) := (s.rooms[code], s.rooms[code].tickets[i]);
            var s' := CancelSeat(s, id, s.tickets[id].user);
            && s'.tickets == s.tickets[id := s.tickets[id].(status := Cancelled)] && s'.games == s.games
            && code in s'.rooms && s'.rooms == s.rooms[code := s'.rooms[code]]
            && var room' := s'.rooms[code];
               && room'.tickets == room.tickets[..i] + room.tickets[i + 1..]
               && room'.status == (if |room.tickets| == 1 then Closed else Waiting)
               && room' == room.(tickets := room'.tickets, status := room'.status, host := room'.host)
               && (room.host != s.tickets[id].user ==> room'.host == room.host)
  {
    var room := s.rooms[code];
    var id := room.tickets[i];
    WaitingSeatsDiffer(s, code);
    WithoutAt(room.tickets, i);
    if room.host != s.tickets[id].user {
      NextHostStays(s.tickets[id := s.tickets[id].(status := Cancelled)], Without(room.tickets, id), room.host,
                    s.tickets[id].user);
    }
  }

  lemma WaitingSeatsDiffer(s: State, code: string)
    requires Orderly(s, false) && code in s.rooms && s.rooms[code].status.Waiting?
    ensures NoRepeats(s.rooms[code].tickets)
  {
    assert RoomOK(s, code, false);
  }

  lemma {:induction false} WithoutAt(ids: seq<string>, i: nat)
    requires NoRepeats(ids) && i < |ids|
    ensures Without(ids, ids[i]) == ids[..i] + ids[i + 1..]
  {
    if i == 0 {
      WithoutNone(ids[1..], ids[0]);
      assert ids[..0] + ids[1..] == ids[1..];
    } else {
      WithoutAt(ids[1..], i - 1);
      assert ids[..i] + ids[i + 1..] == [ids[0]] + (ids[1..][..i - 1] + ids[1..][i..]);
    }
  }

  lemma {:induction false} WithoutNone(ids: seq<string>, id: string)
    requires id !in ids
    ensures Without(ids, id) == ids
  {
    if ids != [] {
      WithoutNone(ids[1..], id);
    }
  }

  lemma NextHostStays(tickets: map<string, Ticket>, ids: seq<string>, host: string, leaver: string)
    requires host != leaver
    ensures NextHost(tickets, ids, host, leaver) == host
  {
  }

  /** Leaving answers by the user's seat: released if queued, already gone if cancelled, refused once matched. */
  lemma LeaveAnswered(s: State, user: string, code: string)
    requires Orderly(s, false) && code in s.rooms && s.rooms[code].status.Waiting?
    ensures var (reply, s') := Leave(s, user, code);
            && (HoldsSeat(s, s.rooms[code], user) ==>
                  && reply.Fine?
                  && exists id :: id in s.rooms[code].tickets && id in s.tickets && s.tickets[id].user == user
                                  && s' == CancelSeat(s, id, user))
            && (!HoldsSeat(s, s.rooms[code], user) ==> reply == Refused(NotFound) && s' == s)
  {
    assert RoomOK(s, code, false);
    var room := s.rooms[code];
    var seat := SeatOf(s, room.tickets, user);
    if seat.Some? {
      var i :| 0 <= i < |room.tickets| && room.tickets[i] == seat.value;
      assert SeatOK(s, code, room.tickets[i], false);
    }
  }

  /** A seat of a match is not left: the room keeps it, and the answer says why. */
  lemma MatchedIsKept(s: State, user: string, code: string)
    requires code in s.rooms && s.rooms[code].status.Matched? && s.rooms[code].game != ""
    ensures Leave(s, user, code) ==
              (Refused(if HoldsSeat(s, s.rooms[code], user) then AlreadyMatched else NotFound), s)
  {
  }

  /** A ticket is cancelled if it is the user's own, not matched, and queued or cancelled before. */
  lemma CancelAnswered(s: State, user: string, id: string)
    ensures var (reply, s') := Cancel(s, user, id);
            && (reply.Fine? <==>
                  && id in s.tickets && s.tickets[id].user == user && s.tickets[id].game == ""
                  && (s.tickets[id].status.Queued? || s.tickets[id].status.Cancelled?))
            && (reply.Fine? && s.tickets[id].status.Queued? ==> s' == CancelSeat(s, id, user))
            && (!(reply.Fine? && s.tickets[id].status.Queued?) ==> s' == s)
  {
  }

  /** The sweep takes exactly the rooms that outlived their half hour. */
  lemma SweptIff(s: State, code: string, now: int)
    requires code in s.rooms && s.rooms[code].status in {Waiting, Matched}
    ensures Sweep(s, code, now) ==
              s.(rooms := s.rooms[code := s.rooms[code].(status := if s.rooms[code].expiresAt < now then Expired
                                                                   else s.rooms[code].status)])
  {
    assert s.rooms[code := s.rooms[code]] == s.rooms;
  }
}
