/**
 * What every run keeps: a waiting room is short of players, its seats are queued tickets of
 * different users, its host is seated, and the tickets carry the room's options.
 */
module RoomRuns {
  import opened Text
  import opened Rooms

  /** A seat of a waiting room; strict adds the mode parameters. */
  predicate SeatOK(s: State, code: string, id: string, strict: bool)
    requires code in s.rooms
  {
    var room := s.rooms[code];
    && id in s.tickets
    && var t := s.tickets[id];
       && t.status.Queued? && t.game == "" && t.room == code
       && t.boss == room.boss && t.coop == room.coop && (room.stage != "" ==> t.stage == room.stage)
       && (strict ==> t.params == room.params)
  }

  predicate DistinctUsers(tickets: map<string, Ticket>, ids: seq<string>)
    requires forall i :: 0 <= i < |ids| ==> ids[i] in tickets
  {
    forall i, j :: 0 <= i < j < |ids| ==> tickets[ids[i]].user != tickets[ids[j]].user
  }

  predicate OptionsOK(room: Room) {
    && Players(room.mode).Some? && room.game == ""
    && room.coop in {0, 2, 4} && (room.coop != 0 ==> room.mode == "coop_boss")
  }

  /** The seats of a room, however many. */
  predicate SeatsOK(s: State, code: string, strict: bool)
    requires code in s.rooms
  {
    var room := s.rooms[code];
    && OptionsOK(room) && NoRepeats(room.tickets)
    && (forall i :: 0 <= i < |room.tickets| ==> SeatOK(s, code, room.tickets[i], strict))
    && DistinctUsers(s.tickets, room.tickets)
    && HoldsSeat(s, room, room.host)
  }

  /** A waiting room has a seat and is short of the players it needs. */
  predicate RoomOK(s: State, code: string, strict: bool)
    requires code in s.rooms
  {
    s.rooms[code].status.Waiting? ==>
      SeatsOK(s, code, strict) && 1 <= |s.rooms[code].tickets| < Required(s.rooms[code])
  }

  /** A queued ticket sits in its waiting room, or its room ran out of time. */
  predicate TicketOK(s: State, id: string)
    requires id in s.tickets
  {
    s.tickets[id].status.Queued? ==>
      s.tickets[id].room in s.rooms
      && (s.rooms[s.tickets[id].room].status.Expired?
          || (s.rooms[s.tickets[id].room].status.Waiting? && id in s.rooms[s.tickets[id].room].tickets))
  }

  ghost predicate Orderly(s: State, strict: bool) {
    && (forall code :: code in s.rooms ==> RoomOK(s, code, strict))
    && (forall id :: id in s.tickets ==> TicketOK(s, id))
  }

  /** A step that touches one room and its tickets. */
  ghost predicate Elsewhere(s: State, s': State, code: string) {
    && (forall c :: c != code ==> (c in s'.rooms <==> c in s.rooms))
    && (forall c :: c != code && c in s.rooms ==> s'.rooms[c] == s.rooms[c])
    && (forall id :: id in s.tickets ==> id in s'.tickets && s'.tickets[id].room == s.tickets[id].room)
    && (forall id :: id in s.tickets && s.tickets[id].room != code ==> s'.tickets[id] == s.tickets[id])
    && (forall id :: id in s'.tickets && id !in s.tickets ==> s'.tickets[id].room == code)
  }

  lemma OtherRoomOK(s: State, s': State, code: string, other: string, strict: bool)
    requires Elsewhere(s, s', code) && other != code && other in s.rooms && RoomOK(s, other, strict)
    ensures other in s'.rooms && RoomOK(s', other, strict)
  {
    var room := s.rooms[other];
    if room.status.Waiting? {
      assert forall i :: 0 <= i < |room.tickets| ==> SeatOK(s, other, room.tickets[i], strict);
      assert forall i :: 0 <= i < |room.tickets| ==> s'.tickets[room.tickets[i]] == s.tickets[room.tickets[i]];
      assert forall i :: 0 <= i < |room.tickets| ==> SeatOK(s', other, room.tickets[i], strict);
    }
  }

  lemma StaysOrderly(s: State, s': State, code: string, strict: bool)
    requires Orderly(s, strict) && Elsewhere(s, s', code)
    requires code in s'.rooms && RoomOK(s', code, strict)
    requires forall id :: id in s'.tickets && s'.tickets[id].room == code ==> TicketOK(s', id)
    ensures Orderly(s', strict)
  {
    forall other | other in s'.rooms
      ensures RoomOK(s', other, strict)
    {
      if other != code {
        OtherRoomOK(s, s', code, other, strict);
      }
    }
    forall id | id in s'.tickets
      ensures TicketOK(s', id)
    {
      if s'.tickets[id].room != code {
        assert TicketOK(s, id);
      }
    }
  }

  // ----- creating -----

  lemma CreateKeeps(cfg: Config, s: State, user: string, q: NewRoom, now: int, strict: bool)
    requires Orderly(s, strict) && q.code !in s.rooms && q.id !in s.tickets
    ensures Orderly(Create(cfg, s, user, q, now).1, strict)
  {
    var s' := Create(cfg, s, user, q, now).1;
    if Create(cfg, s, user, q, now).0.Fine? {
      forall id | id in s.tickets && s.tickets[id].room == q.code
        ensures !s.tickets[id].status.Queued?
      {
        assert TicketOK(s, id);
      }
      assert SeatOK(s', q.code, q.id, strict);
      assert HoldsSeat(s', s'.rooms[q.code], user) by {
        assert s'.rooms[q.code].tickets[0] in s'.tickets;
      }
      assert OptionsOK(s'.rooms[q.code]);
      StaysOrderly(s, s', q.code, strict);
    }
  }

  // ----- forming the match -----

  lemma {:induction false} MarkFoundExact(tickets: map<string, Ticket>, group: seq<string>, game: string)
    ensures var r := MarkFound(tickets, group, game);
            forall id :: id in tickets ==>
              r[id] == if id in group then tickets[id].(status := Found, game := game) else tickets[id]
  {
    if group != [] {
      MarkFoundExact(tickets, group[..|group| - 1], game);
      assert group == group[..|group| - 1] + [group[|group| - 1]];
    }
  }

  lemma MatchedElsewhere(s: State, s': State, code: string, game: string, strict: bool)
    requires Elsewhere(s, s', code) && code in s'.rooms && SeatsOK(s', code, strict)
    requires |s'.rooms[code].tickets| == Required(s'.rooms[code])
    ensures var f := FormMatch(s', code, game);
            && Elsewhere(s, f, code)
            && forall id :: id in s'.tickets ==>
                 f.tickets[id] == if id in s'.rooms[code].tickets then s'.tickets[id].(status := Found, game := game)
                                  else s'.tickets[id]
  {
    var room := s'.rooms[code];
    assert room.tickets[..Required(room)] == room.tickets;
    MarkFoundExact(s'.tickets, room.tickets, game);
    forall i | 0 <= i < |room.tickets|
      ensures s'.tickets[room.tickets[i]].room == code
    {
      assert SeatOK(s', code, room.tickets[i], strict);
    }
  }

  lemma MatchedKeeps(s: State, s': State, code: string, game: string, strict: bool)
    requires Orderly(s, strict) && Elsewhere(s, s', code) && code in s'.rooms
    requires SeatsOK(s', code, strict) && |s'.rooms[code].tickets| == Required(s'.rooms[code])
    requires forall id :: id in s'.tickets && s'.tickets[id].room == code ==> TicketOK(s', id)
    requires s'.rooms[code].status.Waiting?
    ensures Orderly(FormMatch(s', code, game), strict)
  {
    var f := FormMatch(s', code, game);
    MatchedElsewhere(s, s', code, game, strict);
    forall id | id in f.tickets && f.tickets[id].room == code
      ensures TicketOK(f, id)
    {
      assert TicketOK(s', id);
    }
    StaysOrderly(s, f, code, strict);
  }

  /** Seats up to the required number: a full room matches at once, any other keeps waiting. */
  lemma FormKeeps(s: State, s': State, code: string, game: string, strict: bool)
    requires Orderly(s, strict) && Elsewhere(s, s', code) && code in s'.rooms && s'.rooms[code].status.Waiting?
    requires SeatsOK(s', code, strict) && 1 <= |s'.rooms[code].tickets| <= Required(s'.rooms[code])
    requires forall id :: id in s'.tickets && s'.tickets[id].room == code ==> TicketOK(s', id)
    ensures Orderly(FormIfFull(s', code, game), strict)
  {
    if |s'.rooms[code].tickets| < Required(s'.rooms[code]) {
      StaysOrderly(s, s', code, strict);
    } else {
      MatchedKeeps(s, s', code, game, strict);
    }
  }

  // ----- joining -----

  /** The room with the arriving seat added. */
  function Seated(s: State, code: string, user: string, id: string): (s': State)
    requires code in s.rooms
  {
    var room := s.rooms[code];
    s.(rooms := s.rooms[code := room.(tickets := room.tickets + [id])],
       tickets := s.tickets[id := Ticket(user, code, Queued, "", room.boss, room.stage, room.params, room.coop)])
  }

  lemma SeatedOK(s: State, code: string, user: string, id: string, strict: bool)
    requires code in s.rooms && SeatsOK(s, code, strict) && id !in s.tickets && !HoldsSeat(s, s.rooms[code], user)
    ensures SeatsOK(Seated(s, code, user, id), code, strict)
  {
    var room := s.rooms[code];
    var s' := Seated(s, code, user, id);
    forall i | 0 <= i < |room.tickets|
      ensures room.tickets[i] != id && s'.tickets[room.tickets[i]] == s.tickets[room.tickets[i]]
      ensures s.tickets[room.tickets[i]].user != user && SeatOK(s', code, room.tickets[i], strict)
    {
      assert SeatOK(s, code, room.tickets[i], strict);
    }
    var k :| 0 <= k < |room.tickets| && room.tickets[k] in s.tickets && s.tickets[room.tickets[k]].user == room.host;
    assert s'.rooms[code].tickets[k] == room.tickets[k];
    assert SeatOK(s', code, id, strict);
    forall i | 0 <= i < |s'.rooms[code].tickets|
      ensures SeatOK(s', code, s'.rooms[code].tickets[i], strict)
    {
      if i < |room.tickets| {
        assert s'.rooms[code].tickets[i] == room.tickets[i];
      }
    }
  }

  lemma JoinKeeps(s: State, user: string, code: string, q: Arrival, strict: bool)
    requires Orderly(s, strict) && q.id !in s.tickets
    ensures Orderly(Enter(s, user, code, q).1, strict)
  {
    if Enter(s, user, code, q).0.Fine? {
      var s' := Seated(s, code, user, q.id);
      assert RoomOK(s, code, strict);
      SeatedOK(s, code, user, q.id, strict);
      forall id | id in s'.tickets && s'.tickets[id].room == code
        ensures TicketOK(s', id)
      {
        if id == q.id {
          assert s'.rooms[code].tickets[|s.rooms[code].tickets|] == q.id;
        } else {
          assert TicketOK(s, id);
          assert id in s.rooms[code].tickets ==> id in s'.rooms[code].tickets;
        }
      }
      FormKeeps(s, s', code, q.game, strict);
      assert Enter(s, user, code, q).1 == FormIfFull(s', code, q.game);
    }
  }

  /** The refusal of a full room is never met: a waiting room is always short of its mode's players. */
  lemma JoinNeverFull(s: State, user: string, code: string, q: Arrival, strict: bool)
    requires Orderly(s, strict)
    ensures Enter(s, user, code, q).0 != Refused(RoomFull)
  {
    if LiveRoom(s, code) && s.rooms[code].status.Waiting? {
      assert RoomOK(s, code, strict);
    }
  }

  // ----- leaving -----

  lemma {:induction false} WithoutExact(ids: seq<string>, id: string)
    requires NoRepeats(ids)
    ensures var r := Without(ids, id);
            && NoRepeats(r) && (forall x :: x in r <==> x in ids && x != id)
            && |r| == |ids| - if id in ids then 1 else 0
  {
    if ids != [] {
      WithoutExact(ids[1..], id);
      var r := Without(ids[1..], id);
      assert ids == [ids[0]] + ids[1..];
      assert ids[0] !in ids[1..];
      assert forall k :: 0 <= k < |r| ==> r[k] in ids[1..];
    }
  }

  /** The seats left in the room after a departure. */
  function Departed(s: State, id: string): (s': State)
    requires id in s.tickets && s.tickets[id].room in s.rooms
  {
    var t := s.tickets[id];
    var room := s.rooms[t.room];
    var tickets := s.tickets[id := t.(status := Cancelled)];
    var rest := Without(room.tickets, id);
    s.(tickets := tickets,
       rooms := s.rooms[t.room := room.(tickets := rest, host := NextHost(tickets, rest, room.host, t.user))])
  }

  lemma DepartedSeat(s: State, id: string, x: string, strict: bool)
    requires id in s.tickets && s.tickets[id].room in s.rooms && x != id
    requires SeatOK(s, s.tickets[id].room, x, strict)
    ensures SeatOK(Departed(s, id), s.tickets[id].room, x, strict)
    ensures Departed(s, id).tickets[x] == s.tickets[x]
  {
  }

  /** Handover: the seats that remain keep order, and one of them hosts. */
  lemma DepartedOK(s: State, id: string, strict: bool)
    requires id in s.tickets && s.tickets[id].room in s.rooms
    requires SeatsOK(s, s.tickets[id].room, strict) && id in s.rooms[s.tickets[id].room].tickets
    requires Without(s.rooms[s.tickets[id].room].tickets, id) != []
    ensures SeatsOK(Departed(s, id), s.tickets[id].room, strict)
  {
    var code := s.tickets[id].room;
    var room := s.rooms[code];
    var s' := Departed(s, id);
    var rest := Without(room.tickets, id);
    WithoutExact(room.tickets, id);
    forall i | 0 <= i < |rest|
      ensures SeatOK(s', code, rest[i], strict) && rest[i] in s.tickets && s'.tickets[rest[i]] == s.tickets[rest[i]]
    {
      assert rest[i] in room.tickets && rest[i] != id;
      assert SeatOK(s, code, rest[i], strict);
      DepartedSeat(s, id, rest[i], strict);
    }
    UsersStayDistinct(s.tickets, room.tickets, rest);
    HostSeated(s, id, strict);
  }

  lemma UsersStayDistinct(tickets: map<string, Ticket>, ids: seq<string>, rest: seq<string>)
    requires forall i :: 0 <= i < |ids| ==> ids[i] in tickets
    requires DistinctUsers(tickets, ids) && NoRepeats(rest) && forall x :: x in rest ==> x in ids
    ensures forall i :: 0 <= i < |rest| ==> rest[i] in tickets
    ensures DistinctUsers(tickets, rest)
  {
    assert forall x :: x in ids ==> x in tickets;
    assert forall i :: 0 <= i < |rest| ==> rest[i] in ids;
    forall i, j | 0 <= i < j < |rest|
      ensures tickets[rest[i]].user != tickets[rest[j]].user
    {
      var a :| 0 <= a < |ids| && ids[a] == rest[i];
      var b :| 0 <= b < |ids| && ids[b] == rest[j];
    }
  }

  /** Two seats of a room belong to different users. */
  lemma OtherUser(tickets: map<string, Ticket>, ids: seq<string>, a: string, b: string)
    requires forall i :: 0 <= i < |ids| ==> ids[i] in tickets
    requires DistinctUsers(tickets, ids) && a in ids && b in ids && a != b
    ensures a in tickets && b in tickets && tickets[a].user != tickets[b].user
  {
    var i :| 0 <= i < |ids| && ids[i] == a;
    var j :| 0 <= j < |ids| && ids[j] == b;
  }

  lemma NextHostFirst(tickets: map<string, Ticket>, ids: seq<string>, host: string, leaver: string)
    requires ids != [] && ids[0] in tickets && tickets[ids[0]].status.Queued? && tickets[ids[0]].user != leaver
    ensures NextHost(tickets, ids, host, leaver) == if host == leaver then tickets[ids[0]].user else host
  {
    assert NextHost(tickets, ids[1..], tickets[ids[0]].user, leaver) == tickets[ids[0]].user;
  }

  lemma HostSeated(s: State, id: string, strict: bool)
    requires id in s.tickets && s.tickets[id].room in s.rooms
    requires SeatsOK(s, s.tickets[id].room, strict) && id in s.rooms[s.tickets[id].room].tickets
    requires Without(s.rooms[s.tickets[id].room].tickets, id) != []
    ensures var s' := Departed(s, id);
            var room := s'.rooms[s.tickets[id].room];
            HoldsSeat(s', room, room.host)
  {
    var code := s.tickets[id].room;
    var room := s.rooms[code];
    var s' := Departed(s, id);
    var rest := Without(room.tickets, id);
    WithoutExact(room.tickets, id);
    if room.host == s.tickets[id].user {
      assert rest[0] in room.tickets && rest[0] != id;
      assert SeatOK(s, code, rest[0], strict);
      OtherUser(s.tickets, room.tickets, rest[0], id);
      NextHostFirst(s'.tickets, rest, room.host, s.tickets[id].user);
      assert s'.tickets[rest[0]].user == s'.rooms[code].host;
    } else {
      var k :| 0 <= k < |room.tickets| && room.tickets[k] in s.tickets && s.tickets[room.tickets[k]].user == room.host;
      assert room.tickets[k] in rest;
      var j :| 0 <= j < |rest| && rest[j] == room.tickets[k];
      assert s'.tickets[rest[j]].user == room.host;
    }
  }

  /** The cancelled seat of a room that ran out of time. */
  lemma LateCancelKeeps(s: State, id: string, strict: bool)
    requires Orderly(s, strict) && id in s.tickets && s.tickets[id].status.Queued?
    requires s.tickets[id].room in s.rooms && s.rooms[s.tickets[id].room].status.Expired?
    ensures Orderly(s.(tickets := s.tickets[id := s.tickets[id].(status := Cancelled)]), strict)
  {
    var code := s.tickets[id].room;
    var s' := s.(tickets := s.tickets[id := s.tickets[id].(status := Cancelled)]);
    forall x | x in s'.tickets && s'.tickets[x].room == code
      ensures TicketOK(s', x)
    {
      assert TicketOK(s, x);
    }
    StaysOrderly(s, s', code, strict);
  }

  lemma DepartKeeps(s: State, s': State, id: string, strict: bool)
    requires Orderly(s, strict) && id in s.tickets && s.tickets[id].status.Queued?
    requires s.tickets[id].room in s.rooms && s.rooms[s.tickets[id].room].status.Waiting?
    requires id in s.rooms[s.tickets[id].room].tickets && s' == CancelSeat(s, id, s.tickets[id].user)
    ensures Orderly(s', strict)
  {
    var code := s.tickets[id].room;
    var room := s.rooms[code];
    assert RoomOK(s, code, strict);
    WithoutExact(room.tickets, id);
    if Without(room.tickets, id) != [] {
      DepartedOK(s, id, strict);
      assert s' == Departed(s, id);
    }
    DepartedTickets(s, s', id, strict);
    StaysOrderly(s, s', code, strict);
  }

  lemma DepartedTickets(s: State, s': State, id: string, strict: bool)
    requires Orderly(s, strict) && id in s.tickets && s.tickets[id].status.Queued?
    requires s.tickets[id].room in s.rooms && s.rooms[s.tickets[id].room].status.Waiting?
    requires NoRepeats(s.rooms[s.tickets[id].room].tickets) && s' == CancelSeat(s, id, s.tickets[id].user)
    ensures forall x :: x in s'.tickets && s'.tickets[x].room == s.tickets[id].room ==> TicketOK(s', x)
  {
    WithoutExact(s.rooms[s.tickets[id].room].tickets, id);
    forall x | x in s'.tickets && s'.tickets[x].room == s.tickets[id].room
      ensures TicketOK(s', x)
    {
      assert TicketOK(s, x);
      if x != id && s'.tickets[x].status.Queued? {
        assert x in Without(s.rooms[s.tickets[id].room].tickets, id);
      }
    }
  }

  lemma CancelKeeps(s: State, id: string, strict: bool)
    requires Orderly(s, strict) && id in s.tickets && s.tickets[id].status.Queued?
    ensures Orderly(CancelSeat(s, id, s.tickets[id].user), strict)
  {
    assert TicketOK(s, id);
    if s.rooms[s.tickets[id].room].status.Waiting? {
      DepartKeeps(s, CancelSeat(s, id, s.tickets[id].user), id, strict);
    } else {
      LateCancelKeeps(s, id, strict);
    }
  }

  lemma LeaveKeeps(s: State, user: string, code: string, strict: bool)
    requires Orderly(s, strict)
    ensures Orderly(Leave(s, user, code).1, strict)
  {
    if LiveRoom(s, code) {
      var seat := SeatOf(s, s.rooms[code].tickets, user);
      if seat.Some? && s.tickets[seat.value].status.Queued? {
        CancelKeeps(s, seat.value, strict);
      }
    }
  }

  lemma CancelTicketKeeps(s: State, user: string, id: string, strict: bool)
    requires Orderly(s, strict)
    ensures Orderly(Cancel(s, user, id).1, strict)
  {
    if id in s.tickets && s.tickets[id].user == user && s.tickets[id].status.Queued? {
      CancelKeeps(s, id, strict);
    }
  }

  // ----- editing -----

  lemma {:induction false} WriteThroughExact(tickets: map<string, Ticket>, ids: seq<string>, room: Room)
    ensures var r := WriteThrough(tickets, ids, room);
            forall id :: id in tickets ==>
              r[id] == if id in ids
                       then tickets[id].(boss := room.boss, coop := room.coop, params := room.params,
                                         stage := if room.stage != "" then room.stage else tickets[id].stage)
                       else tickets[id]
  {
    if ids != [] {
      WriteThroughExact(tickets, ids[..|ids| - 1], room);
      assert ids == ids[..|ids| - 1] + [ids[|ids| - 1]];
    }
  }

  /** An accepted edit touches the options only, and leaves room for the seats taken. */
  lemma EditShape(cfg: Config, room: Room, o: Options)
    requires Edit(cfg, room, o).0.None? && OptionsOK(room) && |room.tickets| < Required(room)
    ensures var r := Edit(cfg, room, o).1;
            && r == room.(boss := r.boss, stage := r.stage, params := r.params, coop := r.coop)
            && OptionsOK(r) && |r.tickets| <= Required(r)
  {
    var r1 := EditBoss(cfg, room, o).1;
    var r2 := EditStage(cfg, r1, o).1;
    var r3 := EditCoop(r2, o).1;
    assert r3 == room.(boss := r3.boss, stage := r3.stage, coop := r3.coop);
    assert OptionsOK(r3) && |r3.tickets| <= Required(r3);
    var r4 := EditParams(r3, o).1;
    if r4.coop != r3.coop {
      assert CoopOK(r3.mode, r4.params) && "coop_players" in r4.params;
    }
  }

  /** The room and its tickets after an edit was written through. */
  function Written(s: State, code: string, edited: Room): (s': State)
    requires code in s.rooms
  {
    s.(rooms := s.rooms[code := edited], tickets := WriteThrough(s.tickets, s.rooms[code].tickets, edited))
  }

  /** Whatever the tickets carried before, they carry the edited options afterwards. */
  lemma WrittenOK(s: State, code: string, edited: Room, strict: bool)
    requires code in s.rooms && SeatsOK(s, code, strict) && OptionsOK(edited)
    requires var r := s.rooms[code];
             edited == r.(boss := edited.boss, stage := edited.stage, params := edited.params, coop := edited.coop)
    ensures SeatsOK(Written(s, code, edited), code, true)
  {
    var room := s.rooms[code];
    var s' := Written(s, code, edited);
    WriteThroughExact(s.tickets, room.tickets, edited);
    forall i | 0 <= i < |room.tickets|
      ensures SeatOK(s', code, room.tickets[i], true)
      ensures s'.tickets[room.tickets[i]].user == s.tickets[room.tickets[i]].user
    {
      assert SeatOK(s, code, room.tickets[i], strict);
    }
    var k :| 0 <= k < |room.tickets| && room.tickets[k] in s.tickets && s.tickets[room.tickets[k]].user == room.host;
    assert s'.tickets[edited.tickets[k]].user == edited.host;
  }

  lemma WrittenElsewhere(s: State, code: string, edited: Room, strict: bool)
    requires Orderly(s, strict) && code in s.rooms && SeatsOK(s, code, strict)
    requires edited.tickets == s.rooms[code].tickets && edited.status.Waiting? && s.rooms[code].status.Waiting?
    ensures Elsewhere(s, Written(s, code, edited), code)
    ensures var s' := Written(s, code, edited);
            forall id :: id in s'.tickets && s'.tickets[id].room == code ==> TicketOK(s', id)
  {
    var room := s.rooms[code];
    var s' := Written(s, code, edited);
    WriteThroughExact(s.tickets, room.tickets, edited);
    forall i | 0 <= i < |room.tickets|
      ensures s.tickets[room.tickets[i]].room == code
    {
      assert SeatOK(s, code, room.tickets[i], strict);
    }
    forall id | id in s'.tickets && s'.tickets[id].room == code
      ensures TicketOK(s', id)
    {
      assert TicketOK(s, id);
    }
  }

  /** An accepted edit keeps order, whether it changes nothing, rewrites the tickets or fills the room. */
  lemma AcceptedKeeps(cfg: Config, s: State, user: string, code: string, o: Options, game: string, strict: bool)
    requires Orderly(s, strict) && Update(cfg, s, user, code, o, game).0.Fine?
    ensures Orderly(Update(cfg, s, user, code, o, game).1, strict)
  {
    var room := s.rooms[code];
    var edited := Edit(cfg, room, o).1;
    assert RoomOK(s, code, strict);
    if Changed(room, edited, o) {
      EditShape(cfg, room, o);
      WrittenOK(s, code, edited, strict);
      WrittenElsewhere(s, code, edited, strict);
      var s' := Written(s, code, edited);
      WeakerSeats(s', code, strict);
      FormKeeps(s, s', code, game, strict);
      assert Update(cfg, s, user, code, o, game).1 == FormIfFull(s', code, game);
    }
  }

  lemma WeakerSeats(s: State, code: string, strict: bool)
    requires code in s.rooms && SeatsOK(s, code, true)
    ensures SeatsOK(s, code, strict)
  {
    forall i | 0 <= i < |s.rooms[code].tickets|
      ensures SeatOK(s, code, s.rooms[code].tickets[i], strict)
    {
      assert SeatOK(s, code, s.rooms[code].tickets[i], true);
    }
  }

  /** The parts of an edit that are looked at before its parameters. */
  predicate ColumnsOK(cfg: Config, room: Room, o: Options) {
    && (o.boss.Some? ==> TrimSpace(o.boss.value) == "" || TrimSpace(o.boss.value) in cfg.bosses)
    && (o.stage.Some? ==> TrimSpace(o.stage.value) == "" || TrimSpace(o.stage.value) in cfg.stages)
    && (o.coop.Some? ==> room.mode == "coop_boss" && o.coop.value in {2, 4} && |room.tickets| <= o.coop.value)
  }

  /** Parameters no edit of the room may end with. */
  predicate Unacceptable(room: Room, params: Params) {
    || !CoopOK(room.mode, params) || !MaxTicksOK(params) || !BossHPOK(params)
    || (room.mode == "coop_boss" && 0 < CoopOf(params) < |room.tickets|)
  }

  /** The host of a waiting room asks for parameters that are refused once merged, in a store that shares its map. */
  predicate Leaks(cfg: Config, s: State, user: string, code: string, o: Options) {
    && cfg.shared && LiveRoom(s, code) && s.rooms[code].host == user && s.rooms[code].status.Waiting?
    && ColumnsOK(cfg, s.rooms[code], o)
    && Merge(s.rooms[code].params, o.params) != s.rooms[code].params
    && Unacceptable(s.rooms[code], Merge(s.rooms[code].params, o.params))
  }

  lemma ColumnsShape(cfg: Config, room: Room, o: Options)
    ensures var r1 := EditBoss(cfg, room, o).1;
            var r2 := EditStage(cfg, r1, o).1;
            var r3 := EditCoop(r2, o).1;
            && (ColumnsOK(cfg, room, o) <==>
                  EditBoss(cfg, room, o).0.None? && EditStage(cfg, r1, o).0.None? && EditCoop(r2, o).0.None?)
            && (ColumnsOK(cfg, room, o) ==>
                  r3 == room.(boss := r3.boss, stage := r3.stage, coop := o.coop.GetOr(room.coop)))
  {
  }

  lemma ParamsShape(room: Room, o: Options)
    requires room.coop > 0 && room.mode == "coop_boss" ==> |room.tickets| <= room.coop
    ensures var merged := Merge(room.params, o.params);
            && (o.params == [] ==> EditParams(room, o) == (None, room) && merged == room.params)
            && (o.params != [] ==> EditParams(room, o).1.params == merged
                                   && (EditParams(room, o).0.Some? <==> Unacceptable(room, merged)))
  {
  }

  /** A refused edit leaves other parameters behind exactly if the request says so. */
  lemma RefusalMovesParamsIff(cfg: Config, room: Room, o: Options)
    requires OptionsOK(room) && |room.tickets| < Required(room)
    ensures Edit(cfg, room, o).0.Some? && Edit(cfg, room, o).1.params != room.params
       <==> && ColumnsOK(cfg, room, o) && Merge(room.params, o.params) != room.params
            && Unacceptable(room, Merge(room.params, o.params))
  {
    var r1 := EditBoss(cfg, room, o).1;
    var r2 := EditStage(cfg, r1, o).1;
    var r3 := EditCoop(r2, o).1;
    ColumnsShape(cfg, room, o);
    if ColumnsOK(cfg, room, o) {
      ParamsShape(r3, o);
      assert Unacceptable(r3, Merge(r3.params, o.params)) <==> Unacceptable(room, Merge(room.params, o.params));
    }
  }

  /** A refused edit leaves the room as it was, but for leaked parameters. */
  lemma RefusedEdit(cfg: Config, room: Room, o: Options)
    requires Edit(cfg, room, o).0.Some?
    ensures Edit(cfg, room, o).1 == room.(params := Edit(cfg, room, o).1.params)
  {
  }

  lemma RefusedKeeps(cfg: Config, s: State, user: string, code: string, o: Options, game: string, strict: bool)
    requires Orderly(s, strict) && !Update(cfg, s, user, code, o, game).0.Fine?
    requires strict ==> !Leaks(cfg, s, user, code, o)
    ensures Orderly(Update(cfg, s, user, code, o, game).1, strict)
  {
    var s' := Update(cfg, s, user, code, o, game).1;
    if s' != s {
      var room := s.rooms[code];
      RefusedEdit(cfg, room, o);
      assert RoomOK(s, code, strict);
      RefusalMovesParamsIff(cfg, room, o);
      forall i | 0 <= i < |room.tickets|
        ensures SeatOK(s', code, room.tickets[i], strict)
      {
        assert SeatOK(s, code, room.tickets[i], strict);
      }
      assert HoldsSeat(s', s'.rooms[code], room.host);
      forall id | id in s'.tickets && s'.tickets[id].room == code
        ensures TicketOK(s', id)
      {
        assert TicketOK(s, id);
      }
      StaysOrderly(s, s', code, strict);
    }
  }

  lemma SweepKeeps(s: State, code: string, now: int, strict: bool)
    requires Orderly(s, strict)
    ensures Orderly(Sweep(s, code, now), strict)
  {
    var s' := Sweep(s, code, now);
    if s' != s {
      forall id | id in s'.tickets && s'.tickets[id].room == code
        ensures TicketOK(s', id)
      {
        assert TicketOK(s, id);
      }
      StaysOrderly(s, s', code, strict);
    }
  }

  // ----- every run -----

  datatype Step =
    | DoCreate(user: string, room: NewRoom, now: int)
    | DoEnter(user: string, code: string, arrival: Arrival)
    | DoLeave(user: string, code: string)
    | DoCancel(user: string, id: string)
    | DoUpdate(user: string, code: string, options: Options, game: string)
    | DoSweep(code: string, now: int)

  function Apply(cfg: Config, s: State, step: Step): (s': State) {
    match step
    case DoCreate(user, room, now) => Create(cfg, s, user, room, now).1
    case DoEnter(user, code, arrival) => Enter(s, user, code, arrival).1
    case DoLeave(user, code) => Leave(s, user, code).1
    case DoCancel(user, id) => Cancel(s, user, id).1
    case DoUpdate(user, code, options, game) => Update(cfg, s, user, code, options, game).1
    case DoSweep(code, now) => Sweep(s, code, now)
  }

  /** Room codes and ticket ids are handed out once. */
  predicate NewIDs(s: State, step: Step) {
    match step
    case DoCreate(_, room, _) => room.code !in s.rooms && room.id !in s.tickets
    case DoEnter(_, _, arrival) => arrival.id !in s.tickets
    case _ => true
  }

  lemma UpdateKeeps(cfg: Config, s: State, user: string, code: string, o: Options, game: string, strict: bool)
    requires Orderly(s, strict) && (strict ==> !Leaks(cfg, s, user, code, o))
    ensures Orderly(Update(cfg, s, user, code, o, game).1, strict)
  {
    if Update(cfg, s, user, code, o, game).0.Fine? {
      AcceptedKeeps(cfg, s, user, code, o, game, strict);
    } else {
      RefusedKeeps(cfg, s, user, code, o, game, strict);
    }
  }

  lemma StepKeeps(cfg: Config, s: State, step: Step, strict: bool)
    requires Orderly(s, strict) && NewIDs(s, step)
    requires strict && step.DoUpdate? ==> !Leaks(cfg, s, step.user, step.code, step.options)
    ensures Orderly(Apply(cfg, s, step), strict)
  {
    match step
    case DoCreate(user, room, now) => CreateKeeps(cfg, s, user, room, now, strict);
    case DoEnter(user, code, arrival) => JoinKeeps(s, user, code, arrival, strict);
    case DoLeave(user, code) => LeaveKeeps(s, user, code, strict);
    case DoCancel(user, id) => CancelTicketKeeps(s, user, id, strict);
    case DoUpdate(user, code, options, game) => UpdateKeeps(cfg, s, user, code, options, game, strict);
    case DoSweep(code, now) => SweepKeeps(s, code, now, strict);
  }

  function Run(cfg: Config, s: State, steps: seq<Step>): (s': State) {
    if steps == [] then s else Apply(cfg, Run(cfg, s, steps[..|steps| - 1]), steps[|steps| - 1])
  }

  predicate Proper(cfg: Config, s: State, steps: seq<Step>) {
    steps == []
    || (Proper(cfg, s, steps[..|steps| - 1]) && NewIDs(Run(cfg, s, steps[..|steps| - 1]), steps[|steps| - 1]))
  }

  /**
   * With either store: in every reachable state a waiting room is short of players, seats
   * different users with queued unmatched tickets, seats its host, and agrees with its tickets
   * on boss and player count. With a store that keeps its own parameter map, on the mode parameters too.
   */
  lemma {:induction false} RunIsOrderly(cfg: Config, s: State, steps: seq<Step>)
    requires s.rooms == map[] && s.tickets == map[] && Proper(cfg, s, steps)
    ensures Orderly(Run(cfg, s, steps), !cfg.shared)
  {
    if steps != [] {
      RunIsOrderly(cfg, s, steps[..|steps| - 1]);
      StepKeeps(cfg, Run(cfg, s, steps[..|steps| - 1]), steps[|steps| - 1], !cfg.shared);
    }
  }

  /** With a shared parameter map, the parameters stay in agreement exactly through the edits that leak none. */
  lemma ParamsAgreeIff(cfg: Config, s: State, step: Step)
    requires Orderly(s, true) && NewIDs(s, step)
    ensures Orderly(Apply(cfg, s, step), true) <==>
              !(step.DoUpdate? && Leaks(cfg, s, step.user, step.code, step.options))
  {
    if step.DoUpdate? && Leaks(cfg, s, step.user, step.code, step.options) {
      LeakBreaks(cfg, s, step.user, step.code, step.options, step.game);
    } else {
      StepKeeps(cfg, s, step, true);
    }
  }

  lemma LeakBreaks(cfg: Config, s: State, user: string, code: string, o: Options, game: string)
    requires Orderly(s, true) && Leaks(cfg, s, user, code, o)
    ensures !Orderly(Update(cfg, s, user, code, o, game).1, true)
  {
    var s' := Update(cfg, s, user, code, o, game).1;
    var room := s.rooms[code];
    assert RoomOK(s, code, true);
    RefusalMovesParamsIff(cfg, room, o);
    RefusedEdit(cfg, room, o);
    assert SeatOK(s, code, room.tickets[0], true);
    assert s'.tickets[room.tickets[0]].params == room.params != s'.rooms[code].params;
    assert !SeatOK(s', code, room.tickets[0], true);
    assert !RoomOK(s', code, true);
  }

  // ----- the match a room forms -----

  /** The match takes every seat of the room, and its tickets carry the room's options. */
  lemma FormedCarriesOptions(s: State, code: string, game: string, strict: bool)
    requires code in s.rooms && SeatsOK(s, code, strict) && |s.rooms[code].tickets| == Required(s.rooms[code])
    ensures var f := FormMatch(s, code, game);
            var room := s.rooms[code];
            && f.games[game] == room.tickets && f.rooms[code].status.Matched? && f.rooms[code].game == game
            && forall i :: 0 <= i < |room.tickets| ==>
                 var t := f.tickets[room.tickets[i]];
                 t.status.Found? && t.game == game && t.boss == room.boss && t.coop == room.coop
                 && (room.stage != "" ==> t.stage == room.stage) && (strict ==> t.params == room.params)
  {
    var room := s.rooms[code];
    assert room.tickets[..Required(room)] == room.tickets;
    MarkFoundExact(s.tickets, room.tickets, game);
    assert forall i :: 0 <= i < |room.tickets| ==> SeatOK(s, code, room.tickets[i], strict);
  }

  /** A join forms the match exactly when it takes the last seat the room needs. */
  lemma EnterFormsIff(s: State, user: string, code: string, q: Arrival, strict: bool)
    requires Orderly(s, strict) && Enter(s, user, code, q).0.Fine?
    ensures Enter(s, user, code, q).1.rooms[code].status.Matched? <==>
              |s.rooms[code].tickets| + 1 == Required(s.rooms[code])
  {
    assert RoomOK(s, code, strict);
  }

  /** An edit forms the match exactly when it lowers the need to the seats taken: a full room never waits. */
  lemma UpdateFormsIff(cfg: Config, s: State, user: string, code: string, o: Options, game: string, strict: bool)
    requires Orderly(s, strict) && Update(cfg, s, user, code, o, game).0.Fine?
    ensures Update(cfg, s, user, code, o, game).1.rooms[code].status.Matched? <==>
              |s.rooms[code].tickets| == Required(Edit(cfg, s.rooms[code], o).1)
  {
    assert RoomOK(s, code, strict);
    EditShape(cfg, s.rooms[code], o);
  }

  /** When the host leaves, the first remaining seat hosts. */
  lemma HandoverToFirst(s: State, user: string, code: string, strict: bool)
    requires Orderly(s, strict) && LiveRoom(s, code) && s.rooms[code].status.Waiting?
    requires s.rooms[code].host == user && SeatOf(s, s.rooms[code].tickets, user).Some?
    requires |s.rooms[code].tickets| >= 2
    ensures var room := s.rooms[code];
            var rest := Without(room.tickets, SeatOf(s, room.tickets, user).value);
            && Leave(s, user, code).0.Fine? && rest != [] && rest[0] in s.tickets
            && Leave(s, user, code).1.rooms[code] == room.(tickets := rest, host := s.tickets[rest[0]].user)
  {
    var room := s.rooms[code];
    var id := SeatOf(s, room.tickets, user).value;
    assert RoomOK(s, code, strict) && SeatOK(s, code, id, strict);
    WithoutExact(room.tickets, id);
    var rest := Without(room.tickets, id);
    assert rest[0] in room.tickets && rest[0] != id;
    assert SeatOK(s, code, rest[0], strict);
    OtherUser(s.tickets, room.tickets, rest[0], id);
    NextHostFirst(s.tickets[id := s.tickets[id].(status := Cancelled)], rest, room.host, user);
  }

  // ----- a stale player count -----

  lemma {:induction false} MergeKeeps(params: Params, edits: seq<(string, Value)>, key: string)
    requires forall i :: 0 <= i < |edits| ==> TrimSpace(edits[i].0) != key
    ensures key in Merge(params, edits) <==> key in params
    ensures key in params ==> Merge(params, edits)[key] == params[key]
  {
    if edits != [] {
      MergeKeeps(params, edits[..|edits| - 1], key);
    }
  }

  /**
   * The player count kept in the mode parameters is not rewritten by an explicit count, so an edit
   * of other parameters brings it back: exactly when it differs from the room's.
   */
  lemma StaleCountReturnsIff(cfg: Config, room: Room, edits: seq<(string, Value)>)
    requires OptionsOK(room) && room.mode == "coop_boss" && edits != []
    requires forall i :: 0 <= i < |edits| ==> TrimSpace(edits[i].0) != "coop_players"
    requires Edit(cfg, room, Options(None, None, None, edits)).0.None?
    ensures Edit(cfg, room, Options(None, None, None, edits)).1.coop ==
              if CoopOf(room.params) > 0 then CoopOf(room.params) else room.coop
  {
    MergeKeeps(room.params, edits, "coop_players");
  }

  // ----- both happen -----

  const NOTHING: State := State(map[], map[], map[])

  /** A room of one host, created with the given mode and parameters. */
  function OneRoom(cfg: Config, mode: string, params: Params): (s: State) {
    Create(cfg, NOTHING, "host", NewRoom("R", "ticket", mode, "", "", params), 0).1
  }

  lemma OneRoomShape(cfg: Config, mode: string, params: Params)
    requires TrimSpace(mode) == mode && Players(mode).Some?
    requires CoopOK(mode, params) && MaxTicksOK(params) && BossHPOK(params)
    ensures var coop := if mode == "coop_boss" then CoopOf(params) else 0;
            OneRoom(cfg, mode, params) ==
              State(map["R" := Room(mode, "host", ["ticket"], Waiting, "", "", "", params, coop, ROOM_TTL)],
                    map["ticket" := Ticket("host", "R", Queued, "", "", "", params, coop)], map[])
  {
  }

  /** A refused match length changes the room in a shared store and not its ticket. */
  lemma LeakHappens(cfg: Config, game: string)
    requires cfg.shared
    ensures var s := OneRoom(cfg, "pvp_duel", map[]);
            var o := Options(None, None, None, [("max_ticks", Int(7))]);
            var (reply, s') := Update(cfg, s, "host", "R", o, game);
            Orderly(s, true) && reply == Refused(InvalidRequest) && !Orderly(s', true)
  {
    var edits := [("max_ticks", Int(7))];
    var o := Options(None, None, None, edits);
    TrimSpaceFixed("pvp_duel");
    TrimSpaceFixed("max_ticks");
    OneRoomShape(cfg, "pvp_duel", map[]);
    var s := OneRoom(cfg, "pvp_duel", map[]);
    CreateKeeps(cfg, NOTHING, "host", NewRoom("R", "ticket", "pvp_duel", "", "", map[]), 0, true);
    assert edits[..0] == [];
    assert Merge(map[], edits) == map["max_ticks" := Int(7)];
    LeakBreaks(cfg, s, "host", "R", o, game);
  }

  /** A coop room of one host, whose parameters ask for two players. */
  function CoopRoom(coop: int, params: Params): (s: State) {
    State(map["R" := Room("coop_boss", "host", ["ticket"], Waiting, "", "", "", params, coop, ROOM_TTL)],
          map["ticket" := Ticket("host", "R", Queued, "", "", "", params, coop)], map[])
  }

  const TWO: Params := map["coop_players" := Int(2)]

  lemma FourByHand(cfg: Config, game: string)
    ensures Update(cfg, CoopRoom(2, TWO), "host", "R", Options(None, None, Some(4), []), game) ==
              (Fine, CoopRoom(4, TWO))
  {
    var s := CoopRoom(2, TWO);
    var room := s.rooms["R"];
    var o := Options(None, None, Some(4), []);
    assert Edit(cfg, room, o) == (None, room.(coop := 4));
    assert ["ticket"][..0] == [];
    assert WriteThrough(s.tickets, ["ticket"], room.(coop := 4)) == CoopRoom(4, TWO).tickets;
    assert s.rooms["R" := room.(coop := 4)] == CoopRoom(4, TWO).rooms;
  }

  lemma TwoAgain(cfg: Config, game: string)
    ensures Update(cfg, CoopRoom(4, TWO), "host", "R", Options(None, None, None, [("music", Other)]), game) ==
              (Fine, CoopRoom(2, TWO["music" := Other]))
  {
    var s := CoopRoom(4, TWO);
    var room := s.rooms["R"];
    var edits := [("music", Other)];
    var o := Options(None, None, None, edits);
    var merged := TWO["music" := Other];
    TrimSpaceFixed("music");
    assert edits[..0] == [];
    assert Merge(TWO, edits) == merged;
    var edited := room.(params := merged, coop := 2);
    assert Edit(cfg, room, o) == (None, edited);
    assert ["ticket"][..0] == [];
    assert WriteThrough(s.tickets, ["ticket"], edited) == CoopRoom(2, merged).tickets;
    assert s.rooms["R" := edited] == CoopRoom(2, merged).rooms;
  }

  /** Two players asked for in the parameters, four set by hand, and two again after an unrelated edit. */
  lemma StaleCountReturns(cfg: Config, game: string)
    ensures var s := OneRoom(cfg, "coop_boss", TWO);
            var four := Update(cfg, s, "host", "R", Options(None, None, Some(4), []), game);
            var edited := Update(cfg, four.1, "host", "R", Options(None, None, None, [("music", Other)]), game);
            && four == (Fine, CoopRoom(4, TWO)) && edited == (Fine, CoopRoom(2, TWO["music" := Other]))
  {
    TrimSpaceFixed("coop_boss");
    OneRoomShape(cfg, "coop_boss", TWO);
    assert OneRoom(cfg, "coop_boss", TWO) == CoopRoom(2, TWO);
    FourByHand(cfg, game);
    TwoAgain(cfg, game);
  }
}
