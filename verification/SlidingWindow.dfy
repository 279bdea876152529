/**
 * The three sliding-window limiters: verification e-mails per hour, battle-event
 * batches per second and rooms created per minute. Each keeps only the recent
 * admissions, pruned in place; the reference keeps all of them.
 */
module SlidingWindow {
  import opened Text

  // ----- the reference -----

  /** The times less than one window old. */
  function Recent(times: seq<int>, now: int, window: int): (r: seq<int>) {
    if times == [] then []
    else (if now - times[0] < window then [times[0]] else []) + Recent(times[1..], now, window)
  }

  /** A request: its clock reading, and whether a later test of the caller turns it down. */
  datatype Request = Request(now: int, vetoed: bool)

  datatype Outcome = Admitted | LimitReached | Vetoed

  function Decide(kept: seq<int>, limit: nat, window: int, r: Request): (result: (Outcome, seq<int>)) {
    var recent := Recent(kept, r.now, window);
    if |recent| >= limit then (LimitReached, recent)
    else if r.vetoed then (Vetoed, recent)
    else (Admitted, recent + [r.now])
  }

  /** What is kept after a run, and everything that was admitted. */
  datatype State = State(kept: seq<int>, log: seq<int>)

  function Run(limit: nat, window: int, requests: seq<Request>): (s: State) {
    if requests == [] then State([], [])
    else
      var before := Run(limit, window, requests[..|requests| - 1]);
      var r := requests[|requests| - 1];
      var (outcome, kept) := Decide(before.kept, limit, window, r);
      State(kept, if outcome.Admitted? then before.log + [r.now] else before.log)
  }

  predicate ClockOrdered(requests: seq<Request>) {
    forall i, j :: 0 <= i < j < |requests| ==> requests[i].now <= requests[j].now
  }

  lemma {:induction false} RecentConcat(a: seq<int>, b: seq<int>, now: int, window: int)
    ensures Recent(a + b, now, window) == Recent(a, now, window) + Recent(b, now, window)
  {
    if a == [] {
      assert a + b == b;
    } else {
      assert (a + b)[1..] == a[1..] + b;
      RecentConcat(a[1..], b, now, window);
    }
  }

  /** Pruning at an earlier time loses nothing that is still recent now. */
  lemma {:induction false} RecentOfRecent(times: seq<int>, earlier: int, now: int, window: int)
    requires earlier <= now
    ensures Recent(Recent(times, earlier, window), now, window) == Recent(times, now, window)
  {
    if times != [] {
      RecentOfRecent(times[1..], earlier, now, window);
      var head := if earlier - times[0] < window then [times[0]] else [];
      RecentConcat(head, Recent(times[1..], earlier, window), now, window);
      if head != [] {
        assert head[1..] == [];
      }
    }
  }

  /** What counts as recent: every time less than a window old, as often as it occurs, and nothing else. */
  lemma {:induction false} RecentExact(times: seq<int>, now: int, window: int, t: int)
    ensures multiset(Recent(times, now, window))[t] == if now - t < window then multiset(times)[t] else 0
  {
    if times != [] {
      RecentExact(times[1..], now, window, t);
      assert times == [times[0]] + times[1..];
    }
  }

  predicate NoneAfter(times: seq<int>, now: int) {
    forall i :: 0 <= i < |times| ==> times[i] <= now
  }

  lemma {:induction false} LogNotAfter(limit: nat, window: int, requests: seq<Request>, now: int)
    requires forall i :: 0 <= i < |requests| ==> requests[i].now <= now
    ensures NoneAfter(Run(limit, window, requests).log, now)
  {
    if requests != [] {
      LogNotAfter(limit, window, requests[..|requests| - 1], now);
    }
  }

  /** The kept list is exactly the recent part of everything admitted. */
  lemma {:induction false} KeptIsRecentLog(limit: nat, window: int, requests: seq<Request>, now: int)
    requires window > 0 && ClockOrdered(requests)
    requires requests != [] ==> requests[|requests| - 1].now <= now
    ensures var s := Run(limit, window, requests);
            Recent(s.kept, now, window) == Recent(s.log, now, window)
  {
    if requests != [] {
      var front, r := requests[..|requests| - 1], requests[|requests| - 1];
      var before := Run(limit, window, front);
      KeptIsRecentLog(limit, window, front, r.now);
      var recent := Recent(before.kept, r.now, window);
      RecentOfRecent(before.kept, r.now, now, window);
      RecentOfRecent(before.log, r.now, now, window);
      RecentConcat(recent, [r.now], now, window);
      RecentConcat(before.log, [r.now], now, window);
    }
  }

  /** A request is refused by the window exactly when the limit is truly reached inside it. */
  lemma LimitIsExact(limit: nat, window: int, requests: seq<Request>, r: Request)
    requires window > 0 && ClockOrdered(requests + [r])
    ensures var s := Run(limit, window, requests);
            Decide(s.kept, limit, window, r).0.LimitReached? <==> |Recent(s.log, r.now, window)| >= limit
  {
    var all := requests + [r];
    forall i, j | 0 <= i < j < |requests|
      ensures requests[i].now <= requests[j].now
    {
      assert all[i].now <= all[j].now;
    }
    if requests != [] {
      assert all[|requests| - 1].now <= all[|requests|].now;
    }
    KeptIsRecentLog(limit, window, requests, r.now);
  }

  /** How many of the given times lie in the half-open window that ends at t. */
  function InWindow(times: seq<int>, t: int, window: int): (n: nat) {
    if times == [] then 0
    else InWindow(times[..|times| - 1], t, window)
         + if t - window < times[|times| - 1] <= t then 1 else 0
  }

  lemma {:induction false} InWindowAtMostRecent(times: seq<int>, t: int, last: int, window: int)
    requires NoneAfter(times, last) && last <= t
    ensures InWindow(times, t, window) <= |Recent(times, last, window)|
  {
    if times != [] {
      var front, x := times[..|times| - 1], times[|times| - 1];
      InWindowAtMostRecent(front, t, last, window);
      assert times == front + [x];
      RecentConcat(front, [x], last, window);
      assert [x][1..] == [];
    }
  }

  /** No window, wherever it ends, ever holds more admissions than the limit. */
  lemma {:induction false} NoWindowExceedsLimit(limit: nat, window: int, requests: seq<Request>, t: int)
    requires window > 0 && ClockOrdered(requests)
    ensures InWindow(Run(limit, window, requests).log, t, window) <= limit
  {
    if requests != [] {
      var front, r := requests[..|requests| - 1], requests[|requests| - 1];
      var before := Run(limit, window, front);
      NoWindowExceedsLimit(limit, window, front, t);
      var (outcome, kept) := Decide(before.kept, limit, window, r);
      if outcome.Admitted? && t - window < r.now <= t {
        KeptIsRecentLog(limit, window, front, r.now);
        LogNotAfter(limit, window, front, r.now);
        InWindowAtMostRecent(before.log, t, r.now, window);
        assert (before.log + [r.now])[..|before.log|] == before.log;
      } else if outcome.Admitted? {
        assert (before.log + [r.now])[..|before.log|] == before.log;
      }
    }
  }

  // ----- pruning in place -----

  lemma RecentGrows(times: seq<int>, i: nat, now: int, window: int)
    requires i < |times|
    ensures Recent(times[..i + 1], now, window) ==
              Recent(times[..i], now, window) + if now - times[i] < window then [times[i]] else []
  {
    RecentConcat(times[..i], [times[i]], now, window);
    assert times[..i + 1] == times[..i] + [times[i]];
  }

  /** kept := history[:0] with appends: the survivors are moved down inside the same storage. */
  method PruneInPlace(history: array<int>, now: int, window: int) returns (kept: nat)
    modifies history
    ensures kept <= history.Length
    ensures history[..kept] == Recent(old(history[..]), now, window)
  {
    ghost var was := history[..];
    kept := 0;
    for i := 0 to history.Length
      invariant kept <= i
      invariant history[..kept] == Recent(was[..i], now, window)
      invariant history[i..] == was[i..]
    {
      RecentGrows(was, i, now, window);
      assert history[i] == was[i..][0];
      if now - history[i] < window {
        ghost var moved := history[..kept];
        history[kept] := history[i];
        kept := kept + 1;
        assert history[..kept] == moved + [was[i]];
      }
      assert history[i + 1..] == was[i + 1..];
    }
    assert was[..history.Length] == was;
  }

  method Prune(history: seq<int>, now: int, window: int) returns (kept: seq<int>)
    ensures kept == Recent(history, now, window)
  {
    var storage := new int[|history|](i requires 0 <= i < |history| => history[i]);
    assert storage[..] == history;
    var n := PruneInPlace(storage, now, window);
    kept := storage[..n];
  }

  function Kept(table: map<string, seq<int>>, key: string): (r: seq<int>) {
    if key in table then table[key] else []
  }

  // ----- one window for each key -----

  datatype Arrival = Arrival(key: string, request: Request)

  /** The table of windows after a run of arrivals for any keys. */
  function Table(limit: nat, window: int, arrivals: seq<Arrival>): (table: map<string, seq<int>>) {
    if arrivals == [] then map[]
    else
      var before := Table(limit, window, arrivals[..|arrivals| - 1]);
      var last := arrivals[|arrivals| - 1];
      before[last.key := Decide(Kept(before, last.key), limit, window, last.request).1]
  }

  /** When the table admitted requests of the key. */
  function Admissions(limit: nat, window: int, arrivals: seq<Arrival>, key: string): (times: seq<int>) {
    if arrivals == [] then []
    else
      var front, last := arrivals[..|arrivals| - 1], arrivals[|arrivals| - 1];
      var earlier := Admissions(limit, window, front, key);
      if last.key == key && Decide(Kept(Table(limit, window, front), key), limit, window, last.request).0.Admitted?
      then earlier + [last.request.now] else earlier
  }

  /** The requests of one key, in order. */
  function RequestsOf(arrivals: seq<Arrival>, key: string): (requests: seq<Request>) {
    if arrivals == [] then []
    else
      var last := arrivals[|arrivals| - 1];
      var earlier := RequestsOf(arrivals[..|arrivals| - 1], key);
      if last.key == key then earlier + [last.request] else earlier
  }

  lemma RunOneMore(limit: nat, window: int, requests: seq<Request>, r: Request)
    ensures var before := Run(limit, window, requests);
            var (outcome, kept) := Decide(before.kept, limit, window, r);
            Run(limit, window, requests + [r]) ==
              State(kept, if outcome.Admitted? then before.log + [r.now] else before.log)
  {
    assert (requests + [r])[..|requests|] == requests;
  }

  /** One more arrival, seen by the table and by one key. */
  lemma ArrivalOneMore(limit: nat, window: int, front: seq<Arrival>, last: Arrival, key: string)
    ensures var before := Table(limit, window, front);
            var (outcome, kept) := Decide(Kept(before, last.key), limit, window, last.request);
            && Table(limit, window, front + [last]) == before[last.key := kept]
            && Admissions(limit, window, front + [last], key) ==
                 (if last.key == key && outcome.Admitted?
                  then Admissions(limit, window, front, key) + [last.request.now]
                  else Admissions(limit, window, front, key))
    ensures RequestsOf(front + [last], key) ==
              if last.key == key then RequestsOf(front, key) + [last.request] else RequestsOf(front, key)
  {
    assert (front + [last])[..|front|] == front;
  }

  /** Keys do not disturb each other: each key's window and admissions are those of its own requests. */
  lemma {:induction false} TableProjects(limit: nat, window: int, arrivals: seq<Arrival>, key: string)
    ensures var alone := Run(limit, window, RequestsOf(arrivals, key));
            && Kept(Table(limit, window, arrivals), key) == alone.kept
            && Admissions(limit, window, arrivals, key) == alone.log
  {
    if arrivals != [] {
      var front, last := arrivals[..|arrivals| - 1], arrivals[|arrivals| - 1];
      TableProjects(limit, window, front, key);
      ArrivalOneMore(limit, window, front, last, key);
      RunOneMore(limit, window, RequestsOf(front, key), last.request);
      assert arrivals == front + [last];
    }
  }

  predicate ArrivalsOrdered(arrivals: seq<Arrival>) {
    forall i, j :: 0 <= i < j < |arrivals| ==> arrivals[i].request.now <= arrivals[j].request.now
  }

  lemma {:induction false} RequestsOrdered(arrivals: seq<Arrival>, key: string)
    requires ArrivalsOrdered(arrivals)
    ensures ClockOrdered(RequestsOf(arrivals, key))
    ensures forall i :: 0 <= i < |RequestsOf(arrivals, key)| ==>
              arrivals != [] && RequestsOf(arrivals, key)[i].now <= arrivals[|arrivals| - 1].request.now
  {
    if arrivals != [] {
      var front, last := arrivals[..|arrivals| - 1], arrivals[|arrivals| - 1];
      RequestsOrdered(front, key);
      assert front != [] ==> front[|front| - 1] == arrivals[|arrivals| - 2];
      assert forall i :: 0 <= i < |RequestsOf(front, key)| ==> RequestsOf(front, key)[i].now <= last.request.now;
    }
  }

  /** Over any run of the table no key is ever admitted more often than the limit inside one window. */
  lemma NoKeyExceedsLimit(limit: nat, window: int, arrivals: seq<Arrival>, key: string, t: int)
    requires window > 0 && ArrivalsOrdered(arrivals)
    ensures InWindow(Admissions(limit, window, arrivals, key), t, window) <= limit
  {
    TableProjects(limit, window, arrivals, key);
    RequestsOrdered(arrivals, key);
    NoWindowExceedsLimit(limit, window, RequestsOf(arrivals, key), t);
  }

  // ----- two of the limiters; the third sits in the verification codes -----

  const SECOND: int := 1_000_000_000
  const EVENT_WINDOW: int := SECOND
  const MAX_EVENT_SUBMITS: nat := 30
  const DEFAULT_ROOM_LIMIT: nat := 5

  /** allowBattleEventSubmitLocked: thirty batches a second for each battle server. */
  class BattleEventLimiter {
    var submits: map<string, seq<int>>
    ghost var arrivals: seq<Arrival>

    constructor ()
      ensures submits == map[] && arrivals == []
    {
      submits, arrivals := map[], [];
    }

    /** The windows are those of everything that arrived. */
    ghost predicate Valid()
      reads this
    {
      submits == Table(MAX_EVENT_SUBMITS, EVENT_WINDOW, arrivals)
    }

    method AllowSubmit(battleServerID: string, now: int) returns (ok: bool)
      requires Valid()
      modifies this
      ensures Valid() && arrivals == old(arrivals) + [Arrival(battleServerID, Request(now, false))]
      ensures var (outcome, kept) :=
                Decide(Kept(old(submits), battleServerID), MAX_EVENT_SUBMITS, EVENT_WINDOW, Request(now, false));
              ok == outcome.Admitted? && submits == old(submits)[battleServerID := kept]
    {
      arrivals := arrivals + [Arrival(battleServerID, Request(now, false))];
      assert arrivals[..|arrivals| - 1] == old(arrivals);
      var kept := Prune(Kept(submits, battleServerID), now, EVENT_WINDOW);
      if |kept| >= MAX_EVENT_SUBMITS {
        submits := submits[battleServerID := kept];
        return false;
      }
      submits := submits[battleServerID := kept + [now]];
      ok := true;
    }
  }

  /** memoryRoomCreationLimiter; a window that is not positive switches it off. */
  class RoomCreationLimiter {
    const limit: nat
    const window: int
    var hits: map<string, seq<int>>
    ghost var arrivals: seq<Arrival>

    constructor (limit: int, window: int)
      ensures this.limit == (if limit <= 0 then DEFAULT_ROOM_LIMIT else limit)
      ensures this.window == window && hits == map[] && arrivals == []
    {
      this.limit := if limit <= 0 then DEFAULT_ROOM_LIMIT else limit;
      this.window := window;
      hits, arrivals := map[], [];
    }

    /** The windows are those of everything that was counted. */
    ghost predicate Valid()
      reads this
    {
      hits == Table(limit, window, arrivals)
    }

    method AllowRoomCreation(userID: string, now: int) returns (ok: bool)
      requires Valid()
      modifies this
      ensures Valid()
      ensures arrivals == old(arrivals) + (if TrimSpace(userID) == "" || window <= 0 then []
                                           else [Arrival(TrimSpace(userID), Request(now, false))])
      ensures TrimSpace(userID) == "" || window <= 0 ==> ok && hits == old(hits)
      ensures TrimSpace(userID) != "" && window > 0 ==>
                var (outcome, kept) := Decide(Kept(old(hits), TrimSpace(userID)), limit, window, Request(now, false));
                ok == outcome.Admitted? && hits == old(hits)[TrimSpace(userID) := kept]
    {
      var trimmed := TrimSpace(userID);
      if trimmed == "" || window <= 0 {
        return true;
      }
      arrivals := arrivals + [Arrival(trimmed, Request(now, false))];
      assert arrivals[..|arrivals| - 1] == old(arrivals);
      var recent := Prune(Kept(hits, trimmed), now, window);
      if |recent| >= limit {
        hits := hits[trimmed := recent];
        return false;
      }
      hits := hits[trimmed := recent + [now]];
      ok := true;
    }
  }
}
