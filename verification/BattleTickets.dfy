/**
 * Battle tickets and the allocation they point at: issue once per seat while a ticket
 * lives, retire every ticket when the endpoint moves, consume each ticket once.
 */
module BattleTickets {
  import opened Text

  /** BattleTicketTTLSeconds; clock readings are nanoseconds. */
  const TICKET_TTL: int := 60 * 1_000_000_000

  datatype Status = Issued | Consumed | Expired | Revoked

  /** One durable row. The id numbers the rows in issue order; the printed ids follow the same order. */
  datatype Ticket = Ticket(id: nat, game: string, user: string, player: string, server: string, endpoint: string,
                           config: string, nonce: string, status: Status, issuedAt: int, expiresAt: int,
                           consumedAt: int)

  datatype Allocation = Allocation(server: string, endpoint: string, config: string, reported: bool)

  /** The end of a ticket; tickets end in the order they are listed. */
  datatype End = End(id: nat, how: Status)

  /** games maps a match to its players; rows are in issue order; now is the last clock reading. */
  datatype State = State(games: map<string, set<string>>, allocations: map<string, Allocation>, rows: seq<Ticket>,
                         nextID: nat, now: int, ends: seq<End>)

  datatype Error =
    | MissingField | NotFound | NotInMatch | WrongServer | WrongMatch | WrongConfig | WrongNonce | WrongUser
    | BadDeck | WrongPlayer | WrongVersion | TicketExpired | NotIssued

  // ----- issuing -----

  predicate Live(t: Ticket, game: string, user: string, now: int) {
    t.game == game && t.user == user && t.status.Issued? && t.expiresAt > now
  }

  /** liveBattleTicketForPlayerLocked: the first live row of the seat. */
  function FirstLive(rows: seq<Ticket>, game: string, user: string, now: int): (t: Option<Ticket>)
    ensures t.Some? ==> t.value in rows && Live(t.value, game, user, now)
    ensures t.None? ==> forall i :: 0 <= i < |rows| ==> !Live(rows[i], game, user, now)
  {
    if rows == [] then None
    else if Live(rows[0], game, user, now) then Some(rows[0])
    else FirstLive(rows[1..], game, user, now)
  }

  /** ensureBattleAllocationLocked: an allocation of the match, from the registry if it has none. */
  function Ensure(s: State, game: string, registry: Allocation): (s': State) {
    if game in s.allocations then s else s.(allocations := s.allocations[game := registry])
  }

  datatype IssueReply = Handed(ticket: Ticket) | IssueRefused(error: Error)

  /** signedBattleTicketLocked; deckOK stands for the cards the player's deck yields. */
  function Issue(s: State, game: string, user: string, player: string, nonce: string, registry: Allocation,
                 deckOK: bool, now: int)
    : (r: (IssueReply, State))
  {
    if game !in s.games then (IssueRefused(NotFound), s)
    else if user !in s.games[game] then (IssueRefused(NotInMatch), s)
    else
      var e := Ensure(s, game, registry).(now := now);
      var live := FirstLive(e.rows, game, user, now);
      if live.Some? then (Handed(live.value), e)
      else if !deckOK then (IssueRefused(BadDeck), e)
      else
        var a := e.allocations[game];
        var t := Ticket(e.nextID, game, user, player, a.server, a.endpoint, a.config, nonce, Issued, now,
                        now + TICKET_TTL, 0);
        (Handed(t), e.(rows := e.rows + [t], nextID := e.nextID + 1))
  }

  // ----- retiring -----

  function RetireRow(t: Ticket, game: string): (t': Ticket) {
    if t.game == game && t.status.Issued? then t.(status := Revoked) else t
  }

  function RetireRows(rows: seq<Ticket>, game: string): (r: seq<Ticket>)
    ensures |r| == |rows|
    ensures forall i :: 0 <= i < |rows| ==> r[i] == RetireRow(rows[i], game)
  {
    if rows == [] then [] else RetireRows(rows[..|rows| - 1], game) + [RetireRow(rows[|rows| - 1], game)]
  }

  function RetireEnds(rows: seq<Ticket>, game: string): (ends: seq<End>) {
    if rows == [] then []
    else
      var t := rows[|rows| - 1];
      RetireEnds(rows[..|rows| - 1], game) + if t.game == game && t.status.Issued? then [End(t.id, Revoked)] else []
  }

  /** invalidateBattleTicketsLocked. */
  function Invalidate(s: State, game: string): (s': State) {
    s.(rows := RetireRows(s.rows, game), ends := s.ends + RetireEnds(s.rows, game))
  }

  /** BindBattleServerAllocation. */
  function Bind(s: State, game: string, server: string, endpoint: string, registry: Allocation, now: int)
    : (r: (Option<Error>, State))
  {
    var id, place := TrimSpace(game), TrimSpace(endpoint);
    if id == "" || place == "" then (Some(MissingField), s)
    else if id !in s.games then (Some(NotFound), s)
    else
      var name := if TrimSpace(server) == "" then "battle-" + id else TrimSpace(server);
      var e := Ensure(s, id, registry).(now := now);
      var moved := e.(allocations := e.allocations[id := e.allocations[id].(server := name, endpoint := place)]);
      (None, Invalidate(moved, id))
  }

  /** ReportBattleAgentEndpoint: a new endpoint retires the tickets, the same one only confirms. */
  function Report(s: State, game: string, server: string, endpoint: string, now: int): (r: (Option<Error>, State)) {
    var id, name, place := TrimSpace(game), TrimSpace(server), TrimSpace(endpoint);
    if id == "" || place == "" then (Some(MissingField), s)
    else if id !in s.allocations then (Some(NotFound), s)
    else if name != "" && name != s.allocations[id].server then (Some(WrongServer), s)
    else
      var a := s.allocations[id];
      var moved := s.(allocations := s.allocations[id := a.(endpoint := place, reported := true)], now := now);
      (None, if a.endpoint != place then Invalidate(moved, id) else moved)
  }

  // ----- consuming -----

  /** A consume request; compatible stands for its version stamp. */
  datatype Request = Request(ticket: Option<nat>, game: string, server: string, config: string, nonce: string,
                             user: string, player: string, compatible: bool)

  datatype ConsumeReply = Used(ticket: Ticket, duplicate: bool) | ConsumeRefused(error: Error)

  function IndexOf(rows: seq<Ticket>, id: nat): (i: int)
    ensures -1 <= i < |rows|
    ensures i >= 0 ==> rows[i].id == id
    ensures i < 0 ==> forall k :: 0 <= k < |rows| ==> rows[k].id != id
  {
    if rows == [] then -1
    else if rows[|rows| - 1].id == id then |rows| - 1
    else IndexOf(rows[..|rows| - 1], id)
  }

  /** The tests of ConsumeBattleTicket against the ticket itself, in order. */
  function Mismatch(t: Ticket, r: Request): (e: Option<Error>) {
    if !r.compatible then Some(WrongVersion)
    else if t.game != TrimSpace(r.game) then Some(WrongMatch)
    else if t.server != TrimSpace(r.server) then Some(WrongServer)
    else if TrimSpace(r.config) != t.config then Some(WrongConfig)
    else if t.nonce != TrimSpace(r.nonce) then Some(WrongNonce)
    else if r.user != "" && TrimSpace(r.user) != t.user then Some(WrongUser)
    else if r.player != "" && TrimSpace(r.player) != t.player then Some(WrongPlayer)
    else None
  }

  predicate Complete(r: Request) {
    r.ticket.Some? && TrimSpace(r.game) != "" && TrimSpace(r.server) != "" && TrimSpace(r.nonce) != ""
  }

  /** ConsumeBattleTicket; the store's own guard refuses every row that is not issued. */
  function Consume(s: State, r: Request, now: int): (reply: (ConsumeReply, State)) {
    if !Complete(r) then (ConsumeRefused(MissingField), s)
    else
      var i := IndexOf(s.rows, r.ticket.value);
      if i < 0 then (ConsumeRefused(NotFound), s)
      else
        var t := s.rows[i];
        var bad := Mismatch(t, r);
        if bad.Some? then (ConsumeRefused(bad.value), s)
        else if t.status.Consumed? then (Used(t, true), s.(now := now))
        else if now > t.expiresAt then (ConsumeRefused(TicketExpired), s.(now := now))
        else if !t.status.Issued? then (ConsumeRefused(NotIssued), s.(now := now))
        else
          var used := t.(status := Consumed, consumedAt := now);
          (Used(used, false), s.(rows := s.rows[i := used], now := now, ends := s.ends + [End(t.id, Consumed)]))
  }

  /** The sweep of one expired row. */
  function ExpireRow(s: State, i: nat, before: int): (s': State) {
    if i >= |s.rows| || !s.rows[i].status.Issued? || s.rows[i].expiresAt >= before then s
    else s.(rows := s.rows[i := s.rows[i].(status := Expired)], ends := s.ends + [End(s.rows[i].id, Expired)])
  }

  /** A new match with its players. */
  function Open(s: State, game: string, players: set<string>): (s': State) {
    if game in s.games then s else s.(games := s.games[game := players])
  }

  // ----- what every step keeps -----

  /** Rows carry the ids 0, 1, 2, ... in issue order, and live for the ticket's term. */
  predicate Numbered(s: State) {
    && s.nextID == |s.rows|
    && (forall i :: 0 <= i < |s.rows| ==> s.rows[i].id == i && s.rows[i].expiresAt == s.rows[i].issuedAt + TICKET_TTL)
    && (forall i :: 0 <= i < |s.rows| ==> s.rows[i].issuedAt <= s.now)
  }

  /** Every issued ticket points at the current allocation of its match. */
  ghost predicate Pointed(s: State) {
    forall i :: 0 <= i < |s.rows| && s.rows[i].status.Issued? ==>
      && s.rows[i].game in s.allocations
      && s.rows[i].server == s.allocations[s.rows[i].game].server
      && s.rows[i].endpoint == s.allocations[s.rows[i].game].endpoint
      && s.rows[i].config == s.allocations[s.rows[i].game].config
  }

  predicate SameSeat(a: Ticket, b: Ticket) { a.game == b.game && a.user == b.user }

  /** An issued ticket was only followed by another of its seat once it had run out. */
  ghost predicate OneLive(s: State) {
    forall i, j :: 0 <= i < j < |s.rows| && SameSeat(s.rows[i], s.rows[j]) && s.rows[i].status.Issued? ==>
      s.rows[i].expiresAt <= s.rows[j].issuedAt
  }

  predicate Ended(ends: seq<End>, id: nat) { exists k :: 0 <= k < |ends| && ends[k].id == id }

  predicate EndedAs(ends: seq<End>, id: nat, how: Status) { exists k :: 0 <= k < |ends| && ends[k] == End(id, how) }

  /** Every ticket ends at most once, and its row says how. */
  ghost predicate EndsOnce(s: State) {
    && (forall k, l :: 0 <= k < l < |s.ends| ==> s.ends[k].id != s.ends[l].id)
    && (forall k :: 0 <= k < |s.ends| ==> s.ends[k].id < |s.rows| && !s.ends[k].how.Issued?)
    && (forall i :: 0 <= i < |s.rows| ==>
          if s.rows[i].status.Issued? then !Ended(s.ends, i) else EndedAs(s.ends, i, s.rows[i].status))
  }

  ghost predicate Coherent(s: State) { Numbered(s) && Pointed(s) && OneLive(s) && EndsOnce(s) }

  // -- issuing

  /** A first allocation and a later clock disturb nothing. */
  lemma EnsureKeeps(s: State, game: string, registry: Allocation, now: int)
    requires Coherent(s) && s.now <= now
    ensures Coherent(Ensure(s, game, registry).(now := now))
  {
    var s' := Ensure(s, game, registry).(now := now);
    assert s'.rows == s.rows && s'.ends == s.ends;
    assert forall id :: id in s.allocations ==> id in s'.allocations && s'.allocations[id] == s.allocations[id];
  }

  /** A new row at the end, pointing at the allocation, when the seat has no live one. */
  lemma AppendKeeps(s: State, t: Ticket)
    requires Coherent(s) && t.id == s.nextID && t.status.Issued?
    requires t.issuedAt == s.now && t.expiresAt == s.now + TICKET_TTL
    requires t.game in s.allocations
    requires var a := s.allocations[t.game]; t.server == a.server && t.endpoint == a.endpoint && t.config == a.config
    requires forall i :: 0 <= i < |s.rows| ==> !Live(s.rows[i], t.game, t.user, s.now)
    ensures Coherent(s.(rows := s.rows + [t], nextID := s.nextID + 1))
  {
    var s' := s.(rows := s.rows + [t], nextID := s.nextID + 1);
    assert forall i :: 0 <= i < |s.rows| ==> s'.rows[i] == s.rows[i];
    assert s'.rows[|s.rows|] == t;
    assert Numbered(s') && Pointed(s') && OneLive(s');
    assert forall k :: 0 <= k < |s.ends| ==> s.ends[k].id != |s.rows|;
  }

  lemma IssueKeeps(s: State, game: string, user: string, player: string, nonce: string, registry: Allocation,
                   deckOK: bool, now: int)
    requires Coherent(s) && s.now <= now
    ensures Coherent(Issue(s, game, user, player, nonce, registry, deckOK, now).1)
  {
    if game in s.games && user in s.games[game] {
      var e := Ensure(s, game, registry).(now := now);
      EnsureKeeps(s, game, registry, now);
      if FirstLive(e.rows, game, user, now).None? && deckOK {
        var a := e.allocations[game];
        AppendKeeps(e, Ticket(e.nextID, game, user, player, a.server, a.endpoint, a.config, nonce, Issued, now,
                              now + TICKET_TTL, 0));
      }
    }
  }

  // -- retiring

  lemma {:induction false} RetireEndsExact(rows: seq<Ticket>, game: string)
    requires forall i :: 0 <= i < |rows| ==> rows[i].id == i
    ensures var ends := RetireEnds(rows, game);
            && (forall k, l :: 0 <= k < l < |ends| ==> ends[k].id < ends[l].id)
            && (forall k :: 0 <= k < |ends| ==>
                  ends[k].id < |rows| && ends[k].how == Revoked
                  && rows[ends[k].id].game == game && rows[ends[k].id].status.Issued?)
            && (forall i :: 0 <= i < |rows| && rows[i].game == game && rows[i].status.Issued? ==>
                  EndedAs(ends, i, Revoked))
  {
    if rows != [] {
      var front, t := rows[..|rows| - 1], rows[|rows| - 1];
      RetireEndsExact(front, game);
      var before, ends := RetireEnds(front, game), RetireEnds(rows, game);
      assert before <= ends;
      forall i | 0 <= i < |rows| && rows[i].game == game && rows[i].status.Issued?
        ensures EndedAs(ends, i, Revoked)
      {
        if i < |front| {
          assert EndedAs(before, i, Revoked);
          var k :| 0 <= k < |before| && before[k] == End(i, Revoked);
          assert ends[k] == before[k];
        } else {
          assert ends[|before|] == End(i, Revoked);
        }
      }
    }
  }

  lemma EndedAppend(a: seq<End>, b: seq<End>, id: nat, how: Status)
    ensures Ended(a + b, id) <==> Ended(a, id) || Ended(b, id)
    ensures EndedAs(a + b, id, how) <==> EndedAs(a, id, how) || EndedAs(b, id, how)
  {
    assert forall k :: 0 <= k < |a| ==> (a + b)[k] == a[k];
    assert forall k :: 0 <= k < |b| ==> (a + b)[|a| + k] == b[k];
  }

  /** One row of the retired list ends exactly if it was an issued row of the match. */
  lemma RowRetires(rows: seq<Ticket>, game: string, i: nat)
    requires i < |rows| && forall k :: 0 <= k < |rows| ==> rows[k].id == k
    ensures var more := RetireEnds(rows, game);
            if rows[i].game == game && rows[i].status.Issued? then EndedAs(more, i, Revoked) else !Ended(more, i)
  {
    RetireEndsExact(rows, game);
    var more := RetireEnds(rows, game);
    if Ended(more, i) {
      var k :| 0 <= k < |more| && more[k].id == i;
      assert rows[more[k].id] == rows[i];
    }
  }

  lemma RetiredIsNew(s: State, game: string, k: nat)
    requires Numbered(s) && EndsOnce(s) && k < |RetireEnds(s.rows, game)|
    ensures var id := RetireEnds(s.rows, game)[k].id; id < |s.rows| && !Ended(s.ends, id)
  {
    RetireEndsExact(s.rows, game);
    var id := RetireEnds(s.rows, game)[k].id;
    assert id < |s.rows|;
    assert s.rows[id].status.Issued?;
  }

  /** Retiring ends each retired ticket once and no other, even if the allocation has just moved. */
  lemma InvalidateKeepsEnds(s: State, game: string)
    requires Numbered(s) && EndsOnce(s)
    ensures EndsOnce(Invalidate(s, game))
  {
    var s' := Invalidate(s, game);
    var more := RetireEnds(s.rows, game);
    forall i | 0 <= i < |s'.rows|
      ensures if s'.rows[i].status.Issued? then !Ended(s'.ends, i) else EndedAs(s'.ends, i, s'.rows[i].status)
    {
      EndedAppend(s.ends, more, i, s'.rows[i].status);
      assert s'.rows[i] == RetireRow(s.rows[i], game);
      RowRetires(s.rows, game, i);
    }
    RetireEndsExact(s.rows, game);
    forall k | 0 <= k < |more|
      ensures more[k].id < |s.rows| && !Ended(s.ends, more[k].id)
    {
      RetiredIsNew(s, game, k);
    }
    assert forall k :: 0 <= k < |s.ends| ==> Ended(s.ends, s.ends[k].id);
  }

  /** After retiring, the match has no issued ticket left. */
  lemma NoneIssued(s: State, game: string, i: nat)
    requires i < |s.rows| && Invalidate(s, game).rows[i].status.Issued?
    ensures Invalidate(s, game).rows[i] == s.rows[i] && s.rows[i].game != game
  {
    assert Invalidate(s, game).rows[i] == RetireRow(s.rows[i], game);
  }

  lemma RetireKeepsShape(s: State, game: string)
    requires Numbered(s) && OneLive(s)
    ensures Numbered(Invalidate(s, game)) && OneLive(Invalidate(s, game))
  {
    assert forall i :: 0 <= i < |s.rows| ==> Invalidate(s, game).rows[i] == RetireRow(s.rows[i], game);
  }

  /** So the allocation of that match may point anywhere. */
  lemma InvalidateKeeps(s: State, s': State, game: string)
    requires Coherent(s)
    requires s' == s.(allocations := s'.allocations) && s'.allocations.Keys >= s.allocations.Keys
    requires forall id :: id in s.allocations && id != game ==> s'.allocations[id] == s.allocations[id]
    ensures Coherent(Invalidate(s', game))
  {
    InvalidateKeepsEnds(s', game);
    RetireKeepsShape(s', game);
    var r := Invalidate(s', game);
    forall i | 0 <= i < |r.rows| && r.rows[i].status.Issued?
      ensures r.rows[i] == s.rows[i] && s.rows[i].game != game
    {
      NoneIssued(s', game, i);
    }
    assert Pointed(r);
  }

  lemma BindKeeps(s: State, game: string, server: string, endpoint: string, registry: Allocation, now: int)
    requires Coherent(s) && s.now <= now
    ensures Coherent(Bind(s, game, server, endpoint, registry, now).1)
  {
    var id, place := TrimSpace(game), TrimSpace(endpoint);
    if Bind(s, game, server, endpoint, registry, now).0.None? {
      var name := if TrimSpace(server) == "" then "battle-" + id else TrimSpace(server);
      var e := Ensure(s, id, registry).(now := now);
      EnsureKeeps(s, id, registry, now);
      var moved := e.allocations[id].(server := name, endpoint := place);
      InvalidateKeeps(e, e.(allocations := e.allocations[id := moved]), id);
    }
  }

  lemma ReportKeeps(s: State, game: string, server: string, endpoint: string, now: int)
    requires Coherent(s) && s.now <= now
    ensures Coherent(Report(s, game, server, endpoint, now).1)
  {
    var id, place := TrimSpace(game), TrimSpace(endpoint);
    if Report(s, game, server, endpoint, now).0.None? {
      var a := s.allocations[id];
      var later := s.(now := now);
      EnsureKeeps(s, id, a, now);
      var moved := later.(allocations := s.allocations[id := a.(endpoint := place, reported := true)]);
      if a.endpoint != place {
        InvalidateKeeps(later, moved, id);
      } else {
        assert Pointed(moved);
      }
    }
  }

  // -- ending one row

  lemma EndKeeps(s: State, i: nat, t: Ticket)
    requires Coherent(s) && i < |s.rows| && s.rows[i].status.Issued? && !t.status.Issued?
    requires t == s.rows[i].(status := t.status, consumedAt := t.consumedAt)
    ensures Coherent(s.(rows := s.rows[i := t], ends := s.ends + [End(t.id, t.status)]))
  {
    var s' := s.(rows := s.rows[i := t], ends := s.ends + [End(t.id, t.status)]);
    assert Numbered(s') && Pointed(s') && OneLive(s');
    assert !Ended(s.ends, i);
    forall k | 0 <= k < |s'.rows|
      ensures if s'.rows[k].status.Issued? then !Ended(s'.ends, k) else EndedAs(s'.ends, k, s'.rows[k].status)
    {
      EndedAppend(s.ends, [End(t.id, t.status)], k, s'.rows[k].status);
      assert [End(t.id, t.status)][0] == End(t.id, t.status);
    }
    assert forall k :: 0 <= k < |s.ends| ==> Ended(s.ends, s.ends[k].id);
  }

  lemma LaterKeeps(s: State, now: int)
    requires Coherent(s) && s.now <= now
    ensures Coherent(s.(now := now))
  {
  }

  lemma ConsumeKeeps(s: State, r: Request, now: int)
    requires Coherent(s) && s.now <= now
    ensures Coherent(Consume(s, r, now).1)
  {
    LaterKeeps(s, now);
    if Complete(r) && IndexOf(s.rows, r.ticket.value) >= 0 {
      var i := IndexOf(s.rows, r.ticket.value);
      if s.rows[i].status.Issued? {
        EndKeeps(s.(now := now), i, s.rows[i].(status := Consumed, consumedAt := now));
      }
    }
  }

  lemma ExpireKeeps(s: State, i: nat, before: int)
    requires Coherent(s)
    ensures Coherent(ExpireRow(s, i, before))
  {
    if i < |s.rows| && s.rows[i].status.Issued? {
      EndKeeps(s, i, s.rows[i].(status := Expired));
    }
  }

  // ----- every run -----

  datatype Step =
    | DoOpen(game: string, players: set<string>)
    | DoIssue(game: string, user: string, player: string, nonce: string, registry: Allocation, deckOK: bool, now: int)
    | DoBind(game: string, server: string, endpoint: string, registry: Allocation, now: int)
    | DoReport(game: string, server: string, endpoint: string, now: int)
    | DoConsume(request: Request, now: int)
    | DoExpire(row: nat, before: int)

  function Apply(s: State, step: Step): (s': State) {
    match step
    case DoOpen(game, players) => Open(s, game, players)
    case DoIssue(game, user, player, nonce, registry, deckOK, now) =>
      Issue(s, game, user, player, nonce, registry, deckOK, now).1
    case DoBind(game, server, endpoint, registry, now) => Bind(s, game, server, endpoint, registry, now).1
    case DoReport(game, server, endpoint, now) => Report(s, game, server, endpoint, now).1
    case DoConsume(request, now) => Consume(s, request, now).1
    case DoExpire(row, before) => ExpireRow(s, row, before)
  }

  function ClockOf(s: State, step: Step): (now: int) {
    match step
    case DoOpen(_, _) => s.now
    case DoIssue(_, _, _, _, _, _, now) => now
    case DoBind(_, _, _, _, now) => now
    case DoReport(_, _, _, now) => now
    case DoConsume(_, now) => now
    case DoExpire(_, _) => s.now
  }

  lemma StepKeeps(s: State, step: Step)
    requires Coherent(s) && s.now <= ClockOf(s, step)
    ensures Coherent(Apply(s, step))
  {
    match step
    case DoOpen(game, players) =>
    case DoIssue(game, user, player, nonce, registry, deckOK, now) =>
      IssueKeeps(s, game, user, player, nonce, registry, deckOK, now);
    case DoBind(game, server, endpoint, registry, now) => BindKeeps(s, game, server, endpoint, registry, now);
    case DoReport(game, server, endpoint, now) => ReportKeeps(s, game, server, endpoint, now);
    case DoConsume(request, now) => ConsumeKeeps(s, request, now);
    case DoExpire(row, before) => ExpireKeeps(s, row, before);
  }

  function Run(s: State, steps: seq<Step>): (s': State) {
    if steps == [] then s else Apply(Run(s, steps[..|steps| - 1]), steps[|steps| - 1])
  }

  /** No step reads an earlier clock than the one before it. */
  predicate Timely(s: State, steps: seq<Step>) {
    steps == []
    || (Timely(s, steps[..|steps| - 1])
        && var before := Run(s, steps[..|steps| - 1]); before.now <= ClockOf(before, steps[|steps| - 1]))
  }

  predicate Opening(s: State) { s.rows == [] && s.ends == [] && s.nextID == 0 }

  lemma {:induction false} CoherentRun(s: State, steps: seq<Step>)
    requires Coherent(s) && Timely(s, steps)
    ensures Coherent(Run(s, steps))
  {
    if steps != [] {
      CoherentRun(s, steps[..|steps| - 1]);
      StepKeeps(Run(s, steps[..|steps| - 1]), steps[|steps| - 1]);
    }
  }

  /** In every reachable state: current endpoints, one live ticket a seat, one end a ticket. */
  lemma RunIsCoherent(s: State, steps: seq<Step>)
    requires Opening(s) && Timely(s, steps)
    ensures Coherent(Run(s, steps))
  {
    assert Coherent(s);
    CoherentRun(s, steps);
  }

  // ----- what that means -----

  /** At no moment does a seat hold two issued tickets that have not run out. */
  lemma OneLiveTicketPerSeat(s: State, steps: seq<Step>, i: nat, j: nat)
    requires Opening(s) && Timely(s, steps)
    requires var rows := Run(s, steps).rows; i < |rows| && j < |rows| && SameSeat(rows[i], rows[j])
    requires var e := Run(s, steps); Live(e.rows[i], e.rows[i].game, e.rows[i].user, e.now)
                                     && Live(e.rows[j], e.rows[j].game, e.rows[j].user, e.now)
    ensures i == j
  {
    RunIsCoherent(s, steps);
  }

  /** A player of the match is handed a live ticket of the own seat, at the current endpoint, for at most one term:
      always but when the seat has none and the deck is refused. */
  lemma IssueHandsLive(s: State, game: string, user: string, player: string, nonce: string, registry: Allocation,
                       deckOK: bool, now: int)
    requires Coherent(s) && s.now <= now && game in s.games && user in s.games[game]
    ensures var (reply, s') := Issue(s, game, user, player, nonce, registry, deckOK, now);
            && (reply.Handed? <==> deckOK || FirstLive(s.rows, game, user, now).Some?)
            && (reply.Handed? ==>
                  && reply.ticket in s'.rows && Live(reply.ticket, game, user, now)
                  && reply.ticket.expiresAt <= now + TICKET_TTL
                  && game in s'.allocations && reply.ticket.endpoint == s'.allocations[game].endpoint
                  && reply.ticket.server == s'.allocations[game].server)
  {
    var e := Ensure(s, game, registry).(now := now);
    EnsureKeeps(s, game, registry, now);
    var s' := Issue(s, game, user, player, nonce, registry, deckOK, now).1;
    if FirstLive(e.rows, game, user, now).None? {
      assert deckOK ==> s'.rows[|e.rows|] in s'.rows;
    } else {
      var t := FirstLive(e.rows, game, user, now).value;
      var i :| 0 <= i < |e.rows| && e.rows[i] == t;
    }
  }

  /** What a consumption needs of the ticket itself. */
  predicate Usable(t: Ticket, now: int) { t.status.Issued? && now <= t.expiresAt }

  /**
   * The consume test and the issue test disagree at one instant: an older ticket of a seat is still
   * usable beside a newer one exactly at the instant it runs out, which is when the newer was issued.
   */
  lemma TwoUsableIff(s: State, i: nat, j: nat, now: int)
    requires Coherent(s) && s.now <= now && i < j < |s.rows| && SameSeat(s.rows[i], s.rows[j])
    requires s.rows[i].status.Issued? && s.rows[j].status.Issued?
    ensures Usable(s.rows[i], now) && Usable(s.rows[j], now) <==> now == s.rows[i].expiresAt == s.rows[j].issuedAt
  {
  }

  /** That instant exists: reissuing exactly when the first ticket runs out leaves two usable tickets. */
  lemma TwoUsableHappens(game: string, user: string, registry: Allocation)
    ensures var s := State(map[game := {user}], map[], [], 0, 0, []);
            var once := Issue(s, game, user, "p", "a", registry, true, 0).1;
            var twice := Issue(once, game, user, "p", "b", registry, true, TICKET_TTL).1;
            |twice.rows| == 2 && Usable(twice.rows[0], TICKET_TTL) && Usable(twice.rows[1], TICKET_TTL)
  {
    var s := State(map[game := {user}], map[], [], 0, 0, []);
    var once := Issue(s, game, user, "p", "a", registry, true, 0).1;
    assert once.rows == [once.rows[0]];
    assert FirstLive(once.rows, game, user, TICKET_TTL).None?;
  }

  /** The fields a request shares with its ticket. */
  predicate Names(r: Request, t: Ticket) {
    && r.compatible && TrimSpace(r.game) == t.game && TrimSpace(r.server) == t.server && TrimSpace(r.config) == t.config
    && TrimSpace(r.nonce) == t.nonce && (r.user != "" ==> TrimSpace(r.user) == t.user)
    && (r.player != "" ==> TrimSpace(r.player) == t.player)
  }

  /** A request is answered with a ticket exactly when it names it and the ticket is usable, or was used before. */
  lemma UsedIff(s: State, r: Request, now: int)
    requires Numbered(s)
    ensures Consume(s, r, now).0.Used? <==>
              Complete(r) && r.ticket.value < |s.rows| && Names(r, s.rows[r.ticket.value])
              && (Usable(s.rows[r.ticket.value], now) || s.rows[r.ticket.value].status.Consumed?)
    ensures Consume(s, r, now).0.Used? ==>
              Consume(s, r, now).0.duplicate == s.rows[r.ticket.value].status.Consumed?
  {
    if Complete(r) && r.ticket.value < |s.rows| {
      UniqueRow(s, r.ticket.value);
    }
  }

  /** A first use: the ticket was issued, in time, and pointed at where its match runs now. */
  lemma FirstUseIsCurrent(s: State, r: Request, now: int)
    requires Coherent(s) && Consume(s, r, now).0.Used? && !Consume(s, r, now).0.duplicate
    ensures var t := Consume(s, r, now).0.ticket;
            && t.game in s.allocations && t.server == s.allocations[t.game].server
            && t.endpoint == s.allocations[t.game].endpoint && now <= t.expiresAt
            && !Ended(s.ends, t.id) && EndedAs(Consume(s, r, now).1.ends, t.id, Consumed)
  {
    var t := Consume(s, r, now).0.ticket;
    EndedAppend(s.ends, [End(t.id, Consumed)], t.id, Consumed);
    assert [End(t.id, Consumed)][0] == End(t.id, Consumed);
  }

  /** Rows keep their place, and a row that ended keeps its end. */
  ghost predicate RowStays(s: State, s': State, i: nat) {
    && i < |s.rows| && i < |s'.rows| && s'.rows[i].id == s.rows[i].id
    && (!s.rows[i].status.Issued? ==> s'.rows[i] == s.rows[i])
  }

  lemma IssueRowStays(s: State, step: Step, i: nat)
    requires i < |s.rows| && (step.DoIssue? || step.DoOpen?)
    ensures RowStays(s, Apply(s, step), i)
  {
  }

  lemma RetireRowStays(s: State, step: Step, i: nat)
    requires i < |s.rows| && (step.DoBind? || step.DoReport?)
    ensures RowStays(s, Apply(s, step), i)
  {
  }

  lemma UseRowStays(s: State, step: Step, i: nat)
    requires i < |s.rows| && (step.DoConsume? || step.DoExpire?)
    ensures RowStays(s, Apply(s, step), i)
  {
  }

  lemma StepRowStays(s: State, step: Step, i: nat)
    requires i < |s.rows|
    ensures RowStays(s, Apply(s, step), i)
  {
    match step
    case DoOpen(_, _) => IssueRowStays(s, step, i);
    case DoIssue(_, _, _, _, _, _, _) => IssueRowStays(s, step, i);
    case DoBind(_, _, _, _, _) => RetireRowStays(s, step, i);
    case DoReport(_, _, _, _) => RetireRowStays(s, step, i);
    case DoConsume(_, _) => UseRowStays(s, step, i);
    case DoExpire(_, _) => UseRowStays(s, step, i);
  }

  lemma {:induction false} RunRowStays(s: State, steps: seq<Step>, i: nat)
    requires i < |s.rows|
    ensures RowStays(s, Run(s, steps), i)
  {
    if steps != [] {
      RunRowStays(s, steps[..|steps| - 1], i);
      StepRowStays(Run(s, steps[..|steps| - 1]), steps[|steps| - 1], i);
    }
  }

  lemma UniqueRow(s: State, i: nat)
    requires Numbered(s) && i < |s.rows|
    ensures IndexOf(s.rows, i) == i
  {
    assert s.rows[i].id == i;
  }

  /**
   * A ticket that ended stays ended: whatever happens in between, a consumed one is only ever
   * answered as a duplicate or refused, a revoked or expired one only refused, and nothing changes.
   */
  lemma EndedStaysEnded(s: State, steps: seq<Step>, i: nat, r: Request, now: int)
    requires Coherent(s) && Timely(s, steps)
    requires i < |s.rows| && !s.rows[i].status.Issued? && r.ticket == Some(i)
    ensures var after := Run(s, steps);
            var (reply, next) := Consume(after, r, now);
            && next.(now := after.now) == after
            && (reply.Used? ==> s.rows[i].status.Consumed? && reply.duplicate && reply.ticket == s.rows[i])
  {
    CoherentRun(s, steps);
    RunRowStays(s, steps, i);
    UniqueRow(Run(s, steps), i);
    ClosedRow(Run(s, steps), i, r, now);
  }

  lemma ClosedRow(s: State, i: nat, r: Request, now: int)
    requires i < |s.rows| && IndexOf(s.rows, i) == i && r.ticket == Some(i) && !s.rows[i].status.Issued?
    ensures var (reply, next) := Consume(s, r, now);
            && next.(now := s.now) == s
            && (reply.Used? ==> s.rows[i].status.Consumed? && reply.duplicate && reply.ticket == s.rows[i])
  {
  }

  // ----- where an allocation points -----

  /** Everything but one match's allocation is as it was; tickets of the match were at most revoked. */
  ghost predicate OnlyMoves(s: State, s': State, game: string) {
    && s'.games == s.games && s'.nextID == s.nextID && |s'.rows| == |s.rows|
    && game in s'.allocations && s'.allocations.Keys == s.allocations.Keys + {game}
    && (forall id :: id in s.allocations && id != game ==> s'.allocations[id] == s.allocations[id])
    && (forall i :: 0 <= i < |s.rows| ==> s'.rows[i] == s.rows[i].(status := s'.rows[i].status))
    && (forall i :: 0 <= i < |s.rows| && s.rows[i].game != game ==> s'.rows[i] == s.rows[i])
  }

  /** A bind is granted exactly for a known match and a named endpoint, and a refused one changes nothing. */
  lemma BoundIff(s: State, game: string, server: string, endpoint: string, registry: Allocation, now: int)
    ensures var (error, s') := Bind(s, game, server, endpoint, registry, now);
            && (error.None? <==> TrimSpace(game) != "" && TrimSpace(endpoint) != "" && TrimSpace(game) in s.games)
            && (error.Some? ==> s' == s)
  {
  }

  /** The match then runs at the named endpoint, on the named server or one named after the match. */
  lemma BindMoves(s: State, game: string, server: string, endpoint: string, registry: Allocation, now: int)
    requires Bind(s, game, server, endpoint, registry, now).0.None?
    ensures var id := TrimSpace(game);
            var s' := Bind(s, game, server, endpoint, registry, now).1;
            && OnlyMoves(s, s', id) && s'.now == now
            && s'.allocations[id].endpoint == TrimSpace(endpoint)
            && s'.allocations[id].server == (if TrimSpace(server) != "" then TrimSpace(server) else "battle-" + id)
            && s'.allocations[id].config == (if id in s.allocations then s.allocations[id].config else registry.config)
            && (forall i :: 0 <= i < |s'.rows| ==> !(s'.rows[i].game == id && s'.rows[i].status.Issued?))
  {
    var id := TrimSpace(game);
    var s' := Bind(s, game, server, endpoint, registry, now).1;
    assert forall i :: 0 <= i < |s.rows| ==> s'.rows[i] == RetireRow(s.rows[i], id);
  }

  /** So the next ticket of every player of the match is a new one that sends the player there. */
  lemma BindThenIssue(s: State, game: string, server: string, endpoint: string, registry: Allocation, now: int,
                      user: string, player: string, nonce: string, later: int)
    requires Bind(s, game, server, endpoint, registry, now).0.None? && user in s.games[TrimSpace(game)]
    ensures var id := TrimSpace(game);
            var bound := Bind(s, game, server, endpoint, registry, now).1;
            var (reply, after) := Issue(bound, id, user, player, nonce, registry, true, later);
            && reply.Handed? && after.rows == bound.rows + [reply.ticket]
            && reply.ticket.endpoint == TrimSpace(endpoint)
            && reply.ticket.server == (if TrimSpace(server) != "" then TrimSpace(server) else "battle-" + id)
  {
    BindMoves(s, game, server, endpoint, registry, now);
  }

  /** An agent's report moves the endpoint alone, marks it reported, and retires exactly if it moved. */
  lemma ReportMoves(s: State, game: string, server: string, endpoint: string, now: int)
    ensures var id := TrimSpace(game);
            var (error, s') := Report(s, game, server, endpoint, now);
            && (error.None? <==>
                  && id != "" && TrimSpace(endpoint) != "" && id in s.allocations
                  && (TrimSpace(server) == "" || TrimSpace(server) == s.allocations[id].server))
            && (error.Some? ==> s' == s)
            && (error.None? ==>
                  && OnlyMoves(s, s', id) && s'.now == now
                  && s'.allocations[id].endpoint == TrimSpace(endpoint) && s'.allocations[id].reported
                  && s'.allocations[id].server == s.allocations[id].server
                  && s'.allocations[id].config == s.allocations[id].config
                  && forall i :: 0 <= i < |s.rows| && s.rows[i].game == id && s.rows[i].status.Issued? ==>
                       (s'.rows[i].status.Issued? <==> s.allocations[id].endpoint == TrimSpace(endpoint)))
  {
    var id := TrimSpace(game);
    var s' := Report(s, game, server, endpoint, now).1;
    if Report(s, game, server, endpoint, now).0.None? && s.allocations[id].endpoint != TrimSpace(endpoint) {
      assert forall i :: 0 <= i < |s.rows| ==> s'.rows[i] == RetireRow(s.rows[i], id);
    }
  }

  /** A player is handed the live ticket, or a new row with the own names and the nonce, issued now for one term. */
  lemma IssuedTicket(s: State, game: string, user: string, player: string, nonce: string, registry: Allocation,
                     deckOK: bool, now: int)
    requires Coherent(s) && s.now <= now
    ensures var (reply, s') := Issue(s, game, user, player, nonce, registry, deckOK, now);
            && (reply.IssueRefused? && (game !in s.games || user !in s.games[game]) ==> s' == s)
            && (reply.Handed? ==>
                  && game in s.games && user in s.games[game]
                  && s'.allocations == if game in s.allocations then s.allocations else s.allocations[game := registry])
            && (s'.rows == s.rows
                || (reply.Handed? && s'.rows == s.rows + [reply.ticket]
                    && (forall i :: 0 <= i < |s.rows| ==> !Live(s.rows[i], game, user, now))
                    && game in s'.allocations
                    && reply.ticket == Ticket(|s.rows|, game, user, player, s'.allocations[game].server,
                                              s'.allocations[game].endpoint, s'.allocations[game].config, nonce,
                                              Issued, now, now + TICKET_TTL, 0)))
  {
  }

  /** A first use writes its own row and no other: consumed, at the clock of the request. */
  lemma FirstUseWrites(s: State, r: Request, now: int)
    requires Numbered(s)
    ensures var (reply, s') := Consume(s, r, now);
            if reply.Used? && !reply.duplicate then
              r.ticket.Some? && r.ticket.value < |s.rows|
              && s'.rows == s.rows[r.ticket.value := reply.ticket]
              && reply.ticket == s.rows[r.ticket.value].(status := Consumed, consumedAt := now)
            else s'.rows == s.rows && s'.ends == s.ends
  {
    if Complete(r) && r.ticket.value < |s.rows| {
      UniqueRow(s, r.ticket.value);
    }
  }

  /** The sweep expires an issued row exactly if it ran out before the given time. */
  lemma SweptIff(s: State, i: nat, before: int)
    requires i < |s.rows| && s.rows[i].status.Issued?
    ensures ExpireRow(s, i, before).rows ==
              s.rows[i := s.rows[i].(status := if s.rows[i].expiresAt < before then Expired else Issued)]
  {
  }

  // ----- the desk, updated in place -----

  class TicketDesk {
    var games: map<string, set<string>>
    var allocations: map<string, Allocation>
    var rows: seq<Ticket>
    var nextID: nat
    ghost var now: int
    ghost var ends: seq<End>

    constructor ()
      ensures View() == State(map[], map[], [], 0, 0, [])
    {
      games, allocations, rows, nextID, now, ends := map[], map[], [], 0, 0, [];
    }

    ghost function View(): (s: State)
      reads this
    {
      State(games, allocations, rows, nextID, now, ends)
    }

    /** listBattleTicketsForMatchLocked and the test of each row: the seat's live ticket. */
    method LiveTicket(game: string, user: string, at: int) returns (t: Option<Ticket>)
      ensures t == FirstLive(rows, game, user, at)
    {
      for i := 0 to |rows|
        invariant FirstLive(rows[i..], game, user, at) == FirstLive(rows, game, user, at)
      {
        assert rows[i..][1..] == rows[i + 1..];
        if rows[i].game == game && rows[i].user == user && rows[i].status.Issued? && rows[i].expiresAt > at {
          return Some(rows[i]);
        }
      }
      t := None;
    }

    /** signedBattleTicketLocked. */
    method IssueTicket(game: string, user: string, player: string, nonce: string, registry: Allocation, deckOK: bool,
                       at: int)
      returns (reply: IssueReply)
      modifies this
      ensures (reply, View()) == Issue(old(View()), game, user, player, nonce, registry, deckOK, at)
    {
      if game !in games {
        return IssueRefused(NotFound);
      }
      if user !in games[game] {
        return IssueRefused(NotInMatch);
      }
      if game !in allocations {
        allocations := allocations[game := registry];
      }
      now := at;
      var live := LiveTicket(game, user, at);
      if live.Some? {
        return Handed(live.value);
      }
      if !deckOK {
        return IssueRefused(BadDeck);
      }
      var a := allocations[game];
      var t := Ticket(nextID, game, user, player, a.server, a.endpoint, a.config, nonce,
                      Issued, at, at + TICKET_TTL, 0);
      nextID := nextID + 1;
      rows := rows + [t];
      reply := Handed(t);
    }

    /** invalidateBattleTicketsLocked: the loop over the rows of the match. */
    method InvalidateTickets(game: string)
      modifies `rows, `ends
      ensures View() == Invalidate(old(View()), game)
    {
      for i := 0 to |rows|
        invariant |rows| == |old(rows)|
        invariant forall k :: 0 <= k < i ==> rows[k] == RetireRow(old(rows)[k], game)
        invariant forall k :: i <= k < |rows| ==> rows[k] == old(rows)[k]
        invariant ends == old(ends) + RetireEnds(old(rows)[..i], game)
      {
        assert old(rows)[..i + 1][..i] == old(rows)[..i];
        if rows[i].game == game && rows[i].status.Issued? {
          ends := ends + [End(rows[i].id, Revoked)];
          rows := rows[i := rows[i].(status := Revoked)];
        }
      }
      assert old(rows)[..|old(rows)|] == old(rows);
      assert rows == RetireRows(old(rows), game);
    }

    /** BindBattleServerAllocation. */
    method BindBattleServer(game: string, server: string, endpoint: string, registry: Allocation, at: int)
      returns (error: Option<Error>)
      modifies this
      ensures (error, View()) == Bind(old(View()), game, server, endpoint, registry, at)
    {
      var id, place := TrimSpace(game), TrimSpace(endpoint);
      var name := TrimSpace(server);
      if id == "" || place == "" {
        return Some(MissingField);
      }
      if id !in games {
        return Some(NotFound);
      }
      if name == "" {
        name := "battle-" + id;
      }
      if id !in allocations {
        allocations := allocations[id := registry];
      }
      now := at;
      var a := allocations[id];
      a := a.(server := name);
      a := a.(endpoint := place);
      allocations := allocations[id := a];
      InvalidateTickets(id);
      error := None;
    }

    /** ReportBattleAgentEndpoint. */
    method ReportAgentEndpoint(game: string, server: string, endpoint: string, at: int) returns (error: Option<Error>)
      modifies this
      ensures (error, View()) == Report(old(View()), game, server, endpoint, at)
    {
      var id, name, place := TrimSpace(game), TrimSpace(server), TrimSpace(endpoint);
      if id == "" || place == "" {
        return Some(MissingField);
      }
      if id !in allocations {
        return Some(NotFound);
      }
      var a := allocations[id];
      if name != "" && name != a.server {
        return Some(WrongServer);
      }
      now := at;
      var updated := a.endpoint != place;
      a := a.(reported := true);
      if updated {
        a := a.(endpoint := place);
      }
      allocations := allocations[id := a];
      if updated {
        InvalidateTickets(id);
      }
      error := None;
    }

    /** ConsumeBattleTicket. */
    method ConsumeTicket(r: Request, at: int) returns (reply: ConsumeReply)
      modifies this
      ensures (reply, View()) == Consume(old(View()), r, at)
    {
      if !Complete(r) {
        return ConsumeRefused(MissingField);
      }
      var i := IndexOf(rows, r.ticket.value);
      if i < 0 {
        return ConsumeRefused(NotFound);
      }
      var t := rows[i];
      var bad := Mismatch(t, r);
      if bad.Some? {
        return ConsumeRefused(bad.value);
      }
      now := at;
      if t.status.Consumed? {
        return Used(t, true);
      }
      if at > t.expiresAt {
        return ConsumeRefused(TicketExpired);
      }
      if !t.status.Issued? {
        return ConsumeRefused(NotIssued);
      }
      t := t.(status := Consumed);
      t := t.(consumedAt := at);
      rows := rows[i := t];
      ends := ends + [End(t.id, Consumed)];
      reply := Used(t, false);
    }
  }
}
