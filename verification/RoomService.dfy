/** Rooms and tickets as the lobby holds them, updated in place. */
module RoomService {
  import opened Text
  import opened Rooms

  class RoomDesk {
    const cfg: Config
    var rooms: map<string, Room>
    var tickets: map<string, Ticket>
    var games: map<string, seq<string>>

    constructor (cfg: Config)
      ensures View() == State(map[], map[], map[]) && this.cfg == cfg
    {
      this.cfg := cfg;
      rooms, tickets, games := map[], map[], map[];
    }

    ghost function View(): (s: State)
      reads this
    {
      State(rooms, tickets, games)
    }

    /** The user's seat among the given ones. */
    method FindSeat(ids: seq<string>, user: string) returns (seat: Option<string>)
      ensures seat == SeatOf(View(), ids, user)
    {
      for i := 0 to |ids|
        invariant SeatOf(View(), ids[i..], user) == SeatOf(View(), ids, user)
      {
        assert ids[i..][1..] == ids[i + 1..];
        if ids[i] in tickets && tickets[ids[i]].user == user {
          return Some(ids[i]);
        }
      }
      seat := None;
    }

    /** waitingRoomTicketForUserLocked: the waiting rooms in any order. */
    method HasOpenSeat(user: string) returns (waits: bool)
      ensures waits == Waits(View(), user)
    {
      var left := rooms.Keys;
      while left != {}
        invariant left <= rooms.Keys
        invariant forall code, i :: code in rooms && code !in left && 0 <= i < |rooms[code].tickets| ==>
                    !OpenSeat(View(), code, i, user)
        decreases |left|
      {
        var code :| code in left;
        for i := 0 to |rooms[code].tickets|
          invariant forall j :: 0 <= j < i ==> !OpenSeat(View(), code, j, user)
        {
          if rooms[code].status.Waiting? && rooms[code].tickets[i] in tickets {
            var t := tickets[rooms[code].tickets[i]];
            if t.user == user && t.status.Queued? && t.game == "" {
              assert OpenSeat(View(), code, i, user);
              return true;
            }
          }
        }
        left := left - {code};
      }
      waits := false;
    }

    /** CreateRoom. */
    method CreateRoom(user: string, q: NewRoom, now: int) returns (reply: Reply)
      modifies this
      ensures (reply, View()) == Create(cfg, old(View()), user, q, now)
    {
      var mode := TrimSpace(q.mode);
      if mode == "" {
        mode := "certification";
      }
      if Players(mode).None? {
        return Refused(InvalidMode);
      }
      var boss := TrimSpace(q.boss);
      if boss != "" && boss !in cfg.bosses {
        return Refused(UnknownBoss);
      }
      if !CoopOK(mode, q.params) || !MaxTicksOK(q.params) || !BossHPOK(q.params) {
        return Refused(InvalidRequest);
      }
      var coop := 0;
      if mode == "coop_boss" {
        coop := CoopOf(q.params);
      }
      var waits := HasOpenSeat(user);
      if waits {
        return Retry;
      }
      tickets := tickets[q.id := Ticket(user, q.code, Queued, "", boss, q.stage, q.params, coop)];
      rooms := rooms[q.code := Room(mode, user, [q.id], Waiting, "", boss, q.stage, q.params, coop, now + ROOM_TTL)];
      reply := Fine;
    }

    /** createMatchLocked and the room's record of it, if enough seats are taken. */
    method FormMatchIfRoomFull(code: string, game: string)
      requires code in rooms
      modifies this
      ensures View() == FormIfFull(old(View()), code, game)
    {
      var room := rooms[code];
      var required := Required(room);
      if !room.status.Waiting? || required == 0 || |room.tickets| < required {
        return;
      }
      var group := room.tickets[..required];
      for i := 0 to |group|
        invariant tickets == MarkFound(old(tickets), group[..i], game)
        invariant rooms == old(rooms) && games == old(games)
      {
        assert group[..i + 1][..i] == group[..i];
        var id := group[i];
        if id in tickets {
          tickets := tickets[id := tickets[id].(game := game)];
          tickets := tickets[id := tickets[id].(status := Found)];
        }
      }
      assert group[..|group|] == group;
      games := games[game := group];
      room := room.(game := game);
      room := room.(status := Matched);
      rooms := rooms[code := room];
    }

    /** JoinRoom. */
    method JoinRoom(user: string, code: string, q: Arrival) returns (reply: Reply)
      modifies this
      ensures (reply, View()) == Enter(old(View()), user, code, q)
    {
      if code !in rooms || rooms[code].status !in {Waiting, Matched} {
        return Refused(NotFound);
      }
      var room := rooms[code];
      if Players(room.mode).None? {
        return Refused(InvalidMode);
      }
      var seat := FindSeat(room.tickets, user);
      if seat.Some? {
        return Retry;
      }
      if !room.status.Waiting? {
        return Refused(Unavailable);
      }
      if TrimSpace(q.mode) != "" && TrimSpace(q.mode) != room.mode {
        return Refused(InvalidMode);
      }
      if |room.tickets| >= Players(room.mode).value.1 {
        return Refused(RoomFull);
      }
      if q.stage.Some? && q.stage.value != room.stage {
        return Refused(StageMismatch);
      }
      tickets := tickets[q.id := Ticket(user, code, Queued, "", room.boss, room.stage, room.params, room.coop)];
      room := room.(tickets := room.tickets + [q.id]);
      rooms := rooms[code := room];
      FormMatchIfRoomFull(code, q.game);
      reply := Fine;
    }

    /** removeString. */
    method RemoveID(ids: seq<string>, id: string) returns (rest: seq<string>)
      ensures rest == Without(ids, id)
    {
      rest := [];
      for i := 0 to |ids|
        invariant rest + Without(ids[i..], id) == Without(ids, id)
      {
        assert ids[i..][1..] == ids[i + 1..] && ids[i..][0] == ids[i];
        if ids[i] != id {
          assert rest + ([ids[i]] + Without(ids[i + 1..], id)) == rest + [ids[i]] + Without(ids[i + 1..], id);
          rest := rest + [ids[i]];
        }
      }
    }

    /** cancelRoomTicketLocked. */
    method CancelRoomTicket(id: string, user: string)
      requires id in tickets
      modifies this
      ensures View() == CancelSeat(old(View()), id, user)
    {
      var code := tickets[id].room;
      tickets := tickets[id := tickets[id].(status := Cancelled)];
      if code !in rooms || rooms[code].status !in {Waiting, Matched} {
        return;
      }
      var room := rooms[code];
      var rest := RemoveID(room.tickets, id);
      room := room.(tickets := rest);
      if rest == [] {
        room := room.(status := Closed);
      } else {
        for i := 0 to |rest|
          invariant NextHost(tickets, rest[i..], room.host, user) == NextHost(tickets, rest, rooms[code].host, user)
          invariant room == rooms[code].(tickets := rest, host := room.host)
        {
          assert rest[i..][1..] == rest[i + 1..];
          if rest[i] in tickets && tickets[rest[i]].status.Queued? {
            if room.host == user {
              room := room.(host := tickets[rest[i]].user);
            }
          }
        }
      }
      rooms := rooms[code := room];
    }

    /** LeaveRoom. */
    method LeaveRoom(user: string, code: string) returns (reply: Reply)
      modifies this
      ensures (reply, View()) == Leave(old(View()), user, code)
    {
      if code !in rooms || rooms[code].status !in {Waiting, Matched} {
        return Refused(NotFound);
      }
      var seat := FindSeat(rooms[code].tickets, user);
      if seat.None? {
        return Refused(NotFound);
      }
      var t := tickets[seat.value];
      if t.game != "" || rooms[code].game != "" {
        return Refused(AlreadyMatched);
      }
      if t.status.Cancelled? {
        return Fine;
      }
      if !t.status.Queued? {
        return Refused(WrongState);
      }
      CancelRoomTicket(seat.value, user);
      reply := Fine;
    }

    /** CancelTicket, for a ticket of a room. */
    method CancelTicket(user: string, id: string) returns (reply: Reply)
      modifies this
      ensures (reply, View()) == Cancel(old(View()), user, id)
    {
      if id !in tickets || tickets[id].user != user {
        return Refused(NotFound);
      }
      if tickets[id].game != "" {
        return Refused(AlreadyMatched);
      }
      if tickets[id].status.Cancelled? {
        return Fine;
      }
      if !tickets[id].status.Queued? {
        return Refused(WrongState);
      }
      CancelRoomTicket(id, user);
      reply := Fine;
    }

    /** The keys of an edit, written one by one. */
    method MergeParams(params: Params, edits: seq<(string, Value)>) returns (merged: Params)
      ensures merged == Merge(params, edits)
    {
      merged := params;
      for i := 0 to |edits|
        invariant merged == Merge(params, edits[..i])
      {
        assert edits[..i + 1][..i] == edits[..i];
        var (key, value) := edits[i];
        if TrimSpace(key) != "" {
          merged := merged[TrimSpace(key) := value];
        }
      }
      assert edits[..|edits|] == edits;
    }

    /** The options of a room, edited in order; params is what the merge left behind. */
    method EditRoom(room: Room, o: Options) returns (error: Option<Error>, edited: Room)
      ensures (error, edited) == Edit(cfg, room, o)
    {
      error, edited := None, room;
      if o.boss.Some? {
        if TrimSpace(o.boss.value) != "" && TrimSpace(o.boss.value) !in cfg.bosses {
          return Some(UnknownBoss), room;
        }
        edited := edited.(boss := TrimSpace(o.boss.value));
      }
      if o.stage.Some? {
        if TrimSpace(o.stage.value) != "" && TrimSpace(o.stage.value) !in cfg.stages {
          return Some(UnknownStage), room;
        }
        edited := edited.(stage := TrimSpace(o.stage.value));
      }
      if o.coop.Some? {
        if room.mode != "coop_boss" || o.coop.value !in {2, 4} {
          return Some(InvalidRequest), room;
        }
        if |room.tickets| > o.coop.value {
          return Some(TooManySeated), room;
        }
        edited := edited.(coop := o.coop.value);
      }
      var e, merged := EditParamsOf(edited, o);
      if e.Some? {
        return e, room.(params := merged.params);
      }
      edited := merged;
    }

    /** The parameters are merged first and checked afterwards. */
    method EditParamsOf(room: Room, o: Options) returns (error: Option<Error>, edited: Room)
      ensures (error, edited) == EditParams(room, o)
    {
      error, edited := None, room;
      if o.params != [] {
        var merged := MergeParams(room.params, o.params);
        edited := edited.(params := merged);
        if !CoopOK(room.mode, merged) || !MaxTicksOK(merged) || !BossHPOK(merged) {
          return Some(InvalidRequest), edited;
        }
        var seats := CoopOf(merged);
        if room.mode == "coop_boss" && seats > 0 && seats != edited.coop {
          if |room.tickets| > seats {
            return Some(TooManySeated), edited;
          }
          edited := edited.(coop := seats);
        }
      }
    }

    /** UpdateRoomOptions. */
    method UpdateRoomOptions(user: string, code: string, o: Options, game: string) returns (reply: Reply)
      modifies this
      ensures (reply, View()) == Update(cfg, old(View()), user, code, o, game)
    {
      if code !in rooms || rooms[code].status !in {Waiting, Matched} {
        return Refused(NotFound);
      }
      var room := rooms[code];
      if room.host != user {
        return Refused(NotHost);
      }
      if !room.status.Waiting? {
        return Refused(Unavailable);
      }
      var error, edited := EditRoom(room, o);
      if error.Some? {
        if cfg.shared {
          rooms := rooms[code := edited];
        }
        return Refused(error.value);
      }
      if !Changed(room, edited, o) {
        return Fine;
      }
      WriteToTickets(room.tickets, edited);
      rooms := rooms[code := edited];
      FormMatchIfRoomFull(code, game);
      reply := Fine;
    }

    /** The loop that writes the room's options through to the seats taken. */
    method WriteToTickets(ids: seq<string>, room: Room)
      modifies `tickets
      ensures tickets == WriteThrough(old(tickets), ids, room)
    {
      for i := 0 to |ids|
        invariant tickets == WriteThrough(old(tickets), ids[..i], room)
      {
        assert ids[..i + 1][..i] == ids[..i];
        if ids[i] in tickets {
          var t := tickets[ids[i]].(boss := room.boss, coop := room.coop, params := room.params);
          if room.stage != "" {
            t := t.(stage := room.stage);
          }
          tickets := tickets[ids[i] := t];
        }
      }
      assert ids[..|ids|] == ids;
    }

    /** The sweep of one room. */
    method SweepRoom(code: string, now: int)
      modifies `rooms
      ensures View() == Sweep(old(View()), code, now)
    {
      if code in rooms && rooms[code].status in {Waiting, Matched} && rooms[code].expiresAt < now {
        rooms := rooms[code := rooms[code].(status := Expired)];
      }
    }
  }
}
