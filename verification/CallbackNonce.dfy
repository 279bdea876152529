/**
 * Freshness and replay protection of battle-server callbacks. Clock readings are
 * nanoseconds since the epoch; the timestamp header is whole seconds.
 */
module CallbackNonce {
  import opened Text

  const SECOND: int := 1_000_000_000
  const WINDOW: int := 300
  const RETENTION: int := 2 * WINDOW * SECOND
  const CAPACITY: nat := 4096
  const MAX_NONCE_LEN: nat := 64

  // ----- the reference: what was accepted, and when -----

  datatype Entry = Entry(nonce: string, at: int)

  predicate Sorted(es: seq<Entry>) {
    forall i, j :: 0 <= i < j < |es| ==> es[i].at <= es[j].at
  }

  predicate NoneAfter(es: seq<Entry>, now: int) {
    forall i :: 0 <= i < |es| ==> es[i].at <= now
  }

  predicate Distinct(es: seq<Entry>) {
    forall i, j :: 0 <= i < j < |es| ==> es[i].nonce != es[j].nonce
  }

  predicate Holds(es: seq<Entry>, nonce: string) {
    exists i :: 0 <= i < |es| && es[i].nonce == nonce
  }

  /** The entries younger than the retention, by age alone. */
  function Young(es: seq<Entry>, now: int): (r: seq<Entry>) {
    if es == [] then []
    else (if es[0].at > now - RETENTION then [es[0]] else []) + Young(es[1..], now)
  }

  /** The newest n entries. */
  function Newest(es: seq<Entry>, n: nat): (r: seq<Entry>) {
    if |es| <= n then es else es[|es| - n..]
  }

  /** One decision: refuse a young known nonce, otherwise remember it as the newest of at most CAPACITY. */
  function Decide(es: seq<Entry>, nonce: string, now: int): (r: (bool, seq<Entry>)) {
    var young := Young(es, now);
    if Holds(young, nonce) then (false, young)
    else (true, Newest(young, CAPACITY - 1) + [Entry(nonce, now)])
  }

  // ----- the window itself -----

  /** battleCallbackNonceWindow: the lookup map and the eviction queue. */
  datatype Window = Window(seen: map<string, int>, order: seq<string>) {
    ghost predicate Coherent() {
      && (forall n :: n in seen <==> n in order)
      && (forall i, j :: 0 <= i < j < |order| ==> order[i] != order[j])
    }

    ghost function Entries(): (es: seq<Entry>)
      requires Coherent()
      ensures |es| == |order|
      ensures forall i :: 0 <= i < |es| ==> es[i] == Entry(order[i], seen[order[i]])
    {
      seq(|order|, i requires 0 <= i < |order| => Entry(order[i], seen[order[i]]))
    }

    /** Keys and queue agree, no nonce is queued twice, ages are sorted, the cap holds. */
    ghost predicate Valid(now: int) {
      && Coherent()
      && Sorted(Entries())
      && NoneAfter(Entries(), now)
      && |order| <= CAPACITY
    }
  }

  /** In a sorted queue the expired entries are exactly a prefix. */
  lemma {:induction false} YoungIsSuffix(es: seq<Entry>, now: int, k: nat)
    requires Sorted(es) && k <= |es|
    requires forall i :: 0 <= i < k ==> es[i].at <= now - RETENTION
    requires k < |es| ==> es[k].at > now - RETENTION
    ensures Young(es, now) == es[k..]
  {
    if es != [] {
      if k > 0 {
        YoungIsSuffix(es[1..], now, k - 1);
        assert es[1..][k - 1..] == es[k..];
      } else {
        YoungIsSuffix(es[1..], now, 0);
        assert es[0..] == [es[0]] + es[1..];
      }
    }
  }

  /** Dropping the head of the queue keeps keys and queue in agreement. */
  lemma DropHead(w: Window)
    requires w.Coherent() && w.order != []
    ensures var w' := Window(w.seen - {w.order[0]}, w.order[1..]);
            w'.Coherent() && w'.Entries() == w.Entries()[1..]
  {
    var w' := Window(w.seen - {w.order[0]}, w.order[1..]);
    assert w.order == [w.order[0]] + w.order[1..];
    assert forall n :: n in w.order <==> n == w.order[0] || n in w.order[1..];
    assert w'.Coherent();
    assert w'.Entries() == w.Entries()[1..];
  }

  /** The pruning loop: it stops at the first young entry and still removes every old one. */
  method DropExpired(w: Window, now: int) returns (w': Window)
    requires w.Coherent() && Sorted(w.Entries())
    ensures w'.Coherent() && |w'.order| <= |w.order|
    ensures w'.Entries() == Young(w.Entries(), now)
  {
    w' := w;
    ghost var es, drop := w.Entries(), 0;
    while w'.order != [] && w'.seen[w'.order[0]] <= now - RETENTION
      invariant w'.Coherent() && drop <= |es|
      invariant w'.Entries() == es[drop..]
      invariant forall i :: 0 <= i < drop ==> es[i].at <= now - RETENTION
      decreases |w'.order|
    {
      DropHead(w');
      assert es[drop] == w'.Entries()[0];
      w' := Window(w'.seen - {w'.order[0]}, w'.order[1..]);
      drop := drop + 1;
    }
    assert drop < |es| ==> es[drop] == w'.Entries()[0];
    YoungIsSuffix(es, now, drop);
  }

  /** The eviction loop: oldest first, down to one free place. */
  method EvictOldest(w: Window) returns (w': Window)
    requires w.Coherent()
    ensures w'.Coherent() && |w'.order| < CAPACITY
    ensures w'.Entries() == Newest(w.Entries(), CAPACITY - 1)
    ensures forall n :: n in w'.seen ==> n in w.seen
  {
    w' := w;
    ghost var es, drop := w.Entries(), 0;
    while |w'.order| >= CAPACITY
      invariant w'.Coherent() && drop <= |es| && (drop == 0 || |es| - drop >= CAPACITY - 1)
      invariant w'.Entries() == es[drop..]
      invariant w'.seen.Keys <= w.seen.Keys
      decreases |w'.order|
    {
      DropHead(w');
      SuffixStep(es, drop);
      w' := Window(w'.seen - {w'.order[0]}, w'.order[1..]);
      drop := drop + 1;
    }
    NewestAfter(es, drop, CAPACITY - 1);
  }

  lemma NewestAfter(es: seq<Entry>, drop: nat, n: nat)
    requires drop <= |es| && |es| - drop <= n && (drop == 0 || |es| - drop == n)
    ensures es[drop..] == Newest(es, n)
  {
    assert drop == 0 ==> es[drop..] == es;
  }

  lemma SuffixStep(es: seq<Entry>, k: nat)
    requires k < |es|
    ensures es[k..][1..] == es[k + 1..]
  {
  }

  /** allowBattleCallbackNonceLocked on one server's window. */
  method AllowNonce(w: Window, nonce: string, now: int) returns (isNew: bool, w': Window)
    requires w.Valid(now)
    ensures w'.Valid(now)
    ensures (isNew, w'.Entries()) == Decide(w.Entries(), nonce, now)
  {
    w' := DropExpired(w, now);
    HoldsIffKey(w', nonce);
    isNew := nonce !in w'.seen;
    if isNew {
      w' := EvictOldest(w');
      AppendEntry(w', nonce, now);
      w' := Window(w'.seen[nonce := now], w'.order + [nonce]);
    }
    DecideKeepsOrder(w.Entries(), nonce, now);
  }

  /** A decision keeps the ages sorted and not in the future. */
  lemma DecideKeepsOrder(es: seq<Entry>, nonce: string, now: int)
    requires Sorted(es) && NoneAfter(es, now)
    ensures var kept := Decide(es, nonce, now).1; Sorted(kept) && NoneAfter(kept, now)
  {
    var k := Expired(es, now);
    YoungIsSuffix(es, now, k);
    SuffixKeepsOrder(es, now, k);
    AppendKeepsOrder(es[k..], nonce, now);
  }

  lemma AppendKeepsOrder(es: seq<Entry>, nonce: string, now: int)
    requires Sorted(es) && NoneAfter(es, now)
    ensures var kept := Newest(es, CAPACITY - 1) + [Entry(nonce, now)]; Sorted(kept) && NoneAfter(kept, now)
  {
    SuffixKeepsOrder(es, now, |es| - |Newest(es, CAPACITY - 1)|);
  }

  lemma SuffixKeepsOrder(es: seq<Entry>, now: int, k: nat)
    requires Sorted(es) && NoneAfter(es, now) && k <= |es|
    ensures Sorted(es[k..]) && NoneAfter(es[k..], now)
  {
  }

  lemma HoldsIffKey(w: Window, nonce: string)
    requires w.Coherent()
    ensures Holds(w.Entries(), nonce) <==> nonce in w.seen
  {
    if nonce in w.seen {
      var i :| 0 <= i < |w.order| && w.order[i] == nonce;
      assert w.Entries()[i].nonce == nonce;
    }
  }

  lemma AppendEntry(w: Window, nonce: string, now: int)
    requires w.Coherent() && nonce !in w.seen
    ensures var w' := Window(w.seen[nonce := now], w.order + [nonce]);
            w'.Coherent() && w'.Entries() == w.Entries() + [Entry(nonce, now)]
  {
    var w' := Window(w.seen[nonce := now], w.order + [nonce]);
    assert forall i :: 0 <= i < |w.order| ==> w.order[i] in w.order;
    assert w'.Coherent();
    assert w'.Entries() == w.Entries() + [Entry(nonce, now)];
  }

  // ----- every run of attempts -----

  datatype Attempt = Attempt(nonce: string, now: int)

  /** What is kept, and everything that was ever accepted, in order. */
  datatype State = State(kept: seq<Entry>, log: seq<Entry>)

  predicate ClockOrdered(attempts: seq<Attempt>) {
    forall i, j :: 0 <= i < j < |attempts| ==> attempts[i].now <= attempts[j].now
  }

  function Run(attempts: seq<Attempt>): (s: State) {
    if attempts == [] then State([], [])
    else
      var before := Run(attempts[..|attempts| - 1]);
      var a := attempts[|attempts| - 1];
      var (isNew, kept) := Decide(before.kept, a.nonce, a.now);
      State(kept, if isNew then before.log + [Entry(a.nonce, a.now)] else before.log)
  }

  /** Whether attempt i was let through. */
  predicate Accepted(attempts: seq<Attempt>, i: nat)
    requires i < |attempts|
  {
    Decide(Run(attempts[..i]).kept, attempts[i].nonce, attempts[i].now).0
  }

  /** The full log refuses a nonce found among its last CAPACITY entries at an age below the retention. */
  ghost predicate Remembers(log: seq<Entry>, nonce: string, now: int) {
    exists i :: 0 <= i < |log| && |log| - i <= CAPACITY && log[i].nonce == nonce && log[i].at > now - RETENTION
  }

  /** The kept entries are the newest part of the log; what is missing is too old or too far back. */
  ghost predicate Refines(s: State, now: int) {
    && |s.kept| <= |s.log| && |s.kept| <= CAPACITY
    && s.kept == s.log[|s.log| - |s.kept|..]
    && Sorted(s.log) && NoneAfter(s.log, now) && Distinct(s.kept)
    && forall i :: 0 <= i < |s.log| - |s.kept| ==> |s.log| - i > CAPACITY || s.log[i].at <= now - RETENTION
  }

  /** The number of leading expired entries. */
  function Expired(es: seq<Entry>, now: int): (k: nat)
    ensures k <= |es|
    ensures forall i :: 0 <= i < k ==> es[i].at <= now - RETENTION
    ensures k < |es| ==> es[k].at > now - RETENTION
  {
    if es == [] || es[0].at > now - RETENTION then 0 else 1 + Expired(es[1..], now)
  }

  lemma YoungEntries(es: seq<Entry>, now: int)
    requires Sorted(es)
    ensures forall i :: 0 <= i < |Young(es, now)| ==> Young(es, now)[i].at > now - RETENTION
  {
    var k := Expired(es, now);
    YoungIsSuffix(es, now, k);
    assert forall i :: 0 <= i < |es| - k ==> es[k..][i] == es[k + i];
  }

  lemma YoungRefines(s: State, earlier: int, now: int)
    requires Refines(s, earlier) && earlier <= now
    ensures Refines(State(Young(s.kept, now), s.log), now)
  {
    var k := Expired(s.kept, now);
    YoungIsSuffix(s.kept, now, k);
    SuffixRefines(s, earlier, now, k);
  }

  lemma SuffixRefines(s: State, earlier: int, now: int, k: nat)
    requires Refines(s, earlier) && earlier <= now && k <= |s.kept|
    requires forall i :: 0 <= i < k ==> s.kept[i].at <= now - RETENTION
    ensures Refines(State(s.kept[k..], s.log), now)
  {
    var d := |s.log| - |s.kept|;
    SuffixOfSuffix(s.log, d, k);
    assert forall i :: 0 <= i < |s.kept| - k ==> s.kept[k..][i] == s.kept[k + i];
    forall i | 0 <= i < d + k
      ensures |s.log| - i > CAPACITY || s.log[i].at <= now - RETENTION
    {
      if i >= d {
        assert s.log[i] == s.kept[i - d];
      }
    }
  }

  lemma SuffixOfSuffix(log: seq<Entry>, d: nat, k: nat)
    requires d + k <= |log|
    ensures log[d..][k..] == log[d + k..]
  {
  }

  lemma HoldsIffRemembers(s: State, nonce: string, now: int)
    requires Refines(s, now) && forall i :: 0 <= i < |s.kept| ==> s.kept[i].at > now - RETENTION
    ensures Holds(s.kept, nonce) <==> Remembers(s.log, nonce, now)
  {
    var d := |s.log| - |s.kept|;
    if i :| 0 <= i < |s.kept| && s.kept[i].nonce == nonce {
      assert s.log[d + i] == s.kept[i];
    }
    if i :| 0 <= i < |s.log| && |s.log| - i <= CAPACITY && s.log[i].nonce == nonce && s.log[i].at > now - RETENTION {
      assert i >= d && s.kept[i - d] == s.log[i];
    }
  }

  lemma AcceptRefines(s: State, nonce: string, now: int)
    requires Refines(s, now) && !Holds(s.kept, nonce)
    ensures Refines(State(Newest(s.kept, CAPACITY - 1) + [Entry(nonce, now)], s.log + [Entry(nonce, now)]), now)
  {
    var kept := Newest(s.kept, CAPACITY - 1);
    var log := s.log + [Entry(nonce, now)];
    NewestOfSuffix(s.log, |s.kept|, CAPACITY - 1, Entry(nonce, now));
    NewestDistinct(s.kept, CAPACITY - 1, Entry(nonce, now));
    LogStaysOrdered(s.log, Entry(nonce, now));
    forall i | 0 <= i < |log| - |kept| - 1
      ensures |log| - i > CAPACITY || log[i].at <= now - RETENTION
    {
      assert log[i] == s.log[i];
    }
  }

  lemma LogStaysOrdered(log: seq<Entry>, e: Entry)
    requires Sorted(log) && NoneAfter(log, e.at)
    ensures Sorted(log + [e]) && NoneAfter(log + [e], e.at)
  {
  }

  lemma NewestOfSuffix(log: seq<Entry>, k: nat, n: nat, e: Entry)
    requires k <= |log|
    ensures var kept := Newest(log[|log| - k..], n) + [e]; kept == (log + [e])[|log| + 1 - |kept|..]
  {
  }

  lemma NewestDistinct(es: seq<Entry>, n: nat, e: Entry)
    requires Distinct(es) && !Holds(es, e.nonce)
    ensures Distinct(Newest(es, n) + [e])
  {
    assert forall i :: 0 <= i < |es| ==> es[i].nonce != e.nonce;
  }

  /** The window refuses exactly what the log remembers. */
  lemma StepDecides(s: State, earlier: int, nonce: string, now: int)
    requires Refines(s, earlier) && earlier <= now
    ensures Holds(Young(s.kept, now), nonce) <==> Remembers(s.log, nonce, now)
  {
    YoungRefines(s, earlier, now);
    YoungEntries(s.kept, now);
    HoldsIffRemembers(State(Young(s.kept, now), s.log), nonce, now);
  }

  /** One step of the window is one step of the log. */
  lemma StepRefines(s: State, earlier: int, nonce: string, now: int)
    requires Refines(s, earlier) && earlier <= now
    ensures var (isNew, kept) := Decide(s.kept, nonce, now);
            Refines(State(kept, if isNew then s.log + [Entry(nonce, now)] else s.log), now)
  {
    var young := State(Young(s.kept, now), s.log);
    YoungRefines(s, earlier, now);
    if !Holds(young.kept, nonce) {
      AcceptRefines(young, nonce, now);
    }
  }

  lemma {:induction false} RunRefines(attempts: seq<Attempt>, now: int)
    requires ClockOrdered(attempts)
    requires attempts != [] ==> attempts[|attempts| - 1].now <= now
    ensures Refines(Run(attempts), now)
  {
    if attempts != [] {
      var front := attempts[..|attempts| - 1];
      var a := attempts[|attempts| - 1];
      RunRefines(front, a.now);
      StepRefines(Run(front), a.now, a.nonce, a.now);
      RefinesLater(Run(attempts), a.now, now);
    }
  }

  lemma RefinesLater(s: State, earlier: int, now: int)
    requires Refines(s, earlier) && earlier <= now
    ensures Refines(s, now)
  {
  }

  /**
   * Over every run with a nondecreasing clock the bounded window decides exactly
   * as the unbounded log of acceptances would.
   */
  lemma AcceptedIffNotRemembered(attempts: seq<Attempt>, i: nat)
    requires ClockOrdered(attempts) && i < |attempts|
    ensures Accepted(attempts, i) <==> !Remembers(Run(attempts[..i]).log, attempts[i].nonce, attempts[i].now)
  {
    var a, front := attempts[i], attempts[..i];
    assert Refines(Run(front), a.now) by {
      ClockOrderedPrefix(attempts, i);
      RunRefines(front, a.now);
    }
    StepDecides(Run(front), a.now, a.nonce, a.now);
  }

  lemma ClockOrderedPrefix(attempts: seq<Attempt>, i: nat)
    requires ClockOrdered(attempts) && i < |attempts|
    ensures ClockOrdered(attempts[..i])
    ensures i > 0 ==> attempts[..i][i - 1].now <= attempts[i].now
  {
  }

  lemma {:induction false} LogGrows(attempts: seq<Attempt>, i: nat)
    requires i <= |attempts|
    ensures Run(attempts[..i]).log <= Run(attempts).log
    decreases |attempts| - i
  {
    if i == |attempts| {
      assert attempts[..i] == attempts;
    } else {
      assert attempts[..i + 1][..i] == attempts[..i];
      LogGrows(attempts, i + 1);
    }
  }

  /**
   * A nonce accepted at time t is refused at every later time strictly before
   * t + 600 s, unless 4096 other nonces were accepted after it.
   */
  lemma AcceptedNonceIsRefused(attempts: seq<Attempt>, i: nat, j: nat)
    requires ClockOrdered(attempts) && i < j < |attempts|
    requires Accepted(attempts, i) && attempts[j].nonce == attempts[i].nonce
    requires attempts[j].now < attempts[i].now + RETENTION
    requires |Run(attempts[..j]).log| - |Run(attempts[..i + 1]).log| < CAPACITY
    ensures !Accepted(attempts, j)
  {
    var log := Run(attempts[..j]).log;
    assert attempts[..i + 1][..i] == attempts[..i];
    assert attempts[..j][..i + 1] == attempts[..i + 1];
    LogGrows(attempts[..j], i + 1);
    var k := |Run(attempts[..i]).log|;
    assert log[k] == Entry(attempts[i].nonce, attempts[i].now);
    AcceptedIffNotRemembered(attempts, j);
  }

  // ----- the timestamp header -----

  /** No clock reading gets this far: 2^62 seconds are 146 billion years. */
  const MAX_UNIX: int := 0x4000_0000_0000_0000

  /** Two's-complement wrap-around of 64-bit integers. */
  function Wrap64(n: int): (r: int)
    ensures INT64_MIN <= r <= INT64_MAX
  {
    (n - INT64_MIN) % 0x1_0000_0000_0000_0000 + INT64_MIN
  }

  lemma WrapOnce(n: int)
    requires INT64_MIN <= n <= INT64_MAX + 0x1_0000_0000_0000_0000
    ensures Wrap64(n) == if n <= INT64_MAX then n else n - 0x1_0000_0000_0000_0000
  {
  }

  predicate FreshSeconds(secs: int, unix: int) {
    var delta := Wrap64(unix - secs);
    (if delta < 0 then Wrap64(-delta) else delta) <= WINDOW
  }

  /** battleCallbackTimestampFresh. */
  predicate TimestampFresh(timestamp: string, now: int) {
    match Atoi(timestamp)
    case None => false
    case Some(secs) => FreshSeconds(secs, now / SECOND)
  }

  /**
   * The 64-bit test is the intended distance test with two exceptions: a
   * timestamp exactly 2^63 seconds back negates to itself and passes, and so does
   * one nearly 2^64 seconds back, which only a clock at the end of time can meet.
   */
  lemma FreshIff(secs: int, unix: int)
    requires INT64_MIN <= secs <= INT64_MAX && 0 <= unix <= INT64_MAX
    ensures FreshSeconds(secs, unix)
       <==> || -WINDOW <= unix - secs <= WINDOW
            || unix - secs == -INT64_MIN
            || unix - secs >= 0x1_0000_0000_0000_0000 - WINDOW
  {
    var delta := unix - secs;
    WrapOnce(delta);
    WrapOnce(-Wrap64(delta));
  }

  /** The exception is real: there is a clock reading and a timestamp that show it. */
  lemma FarPastTimestampIsFresh()
    ensures FreshSeconds(INT64_MIN + 1, 1)
  {
    FreshIff(INT64_MIN + 1, 1);
  }

  /**
   * A timestamp fresh at one clock reading is fresh again a full retention later
   * exactly when it ran 300 seconds ahead of the first reading and the second
   * reading falls into the 600th second after it.
   */
  lemma FreshAfterRetention(secs: int, first: int, second: int)
    requires INT64_MIN <= secs <= INT64_MAX
    requires 0 <= first && second - first >= RETENTION && second / SECOND < MAX_UNIX
    requires FreshSeconds(secs, first / SECOND)
    ensures FreshSeconds(secs, second / SECOND)
       <==> secs == first / SECOND + WINDOW && second / SECOND == first / SECOND + 2 * WINDOW
  {
    var a, b := first / SECOND, second / SECOND;
    assert b - a >= 2 * WINDOW;
    FreshIff(secs, a);
    FreshIff(secs, b);
  }

  /**
   * When an accepted callback can be accepted again: after the retention, which outlasts
   * every timestamp but one exactly 300 seconds ahead of the accepting clock, or once
   * 4096 later nonces have evicted it, for as long as its timestamp stays fresh.
   */
  lemma ReplayIff(log: seq<Entry>, i: nat, secs: int, now: int)
    requires INT64_MIN <= secs <= INT64_MAX && now / SECOND < MAX_UNIX
    requires i < |log| && 0 <= log[i].at <= now
    requires forall k :: i < k < |log| ==> log[k].nonce != log[i].nonce
    requires forall k :: 0 <= k < i && log[k].nonce == log[i].nonce ==> log[k].at <= log[i].at
    requires FreshSeconds(secs, log[i].at / SECOND)
    ensures FreshSeconds(secs, now / SECOND) && !Remembers(log, log[i].nonce, now)
       <==> || (now - log[i].at >= RETENTION
                && secs == log[i].at / SECOND + WINDOW && now / SECOND == log[i].at / SECOND + 2 * WINDOW)
            || (|log| - i > CAPACITY && FreshSeconds(secs, now / SECOND))
  {
    if now - log[i].at >= RETENTION {
      FreshAfterRetention(secs, log[i].at, now);
    }
  }

  /** Both ways happen. The first: timestamp 300, accepted at 0 seconds and again at 600. */
  lemma ReplayAtRetention(nonce: string)
    ensures var attempts := [Attempt(nonce, 0), Attempt(nonce, RETENTION)];
            && Accepted(attempts, 0) && Accepted(attempts, 1)
            && TimestampFresh("300", 0) && TimestampFresh("300", RETENTION)
  {
    var attempts := [Attempt(nonce, 0), Attempt(nonce, RETENTION)];
    AcceptedIffNotRemembered(attempts, 0);
    AcceptedIffNotRemembered(attempts, 1);
    assert attempts[..1] == [attempts[0]] && attempts[..0] == [];
    assert Run([attempts[0]]).log == [Entry(nonce, 0)] by {
      assert [attempts[0]][..0] == [];
    }
    DigitsOfThreeHundred();
    FreshIff(300, 0);
    FreshIff(300, 600);
  }

  lemma DigitsOfThreeHundred()
    ensures Atoi("300") == Some(300)
  {
    assert "300"[..2] == "30" && "30"[..1] == "3" && "3"[..0] == "";
    assert DigitsValue("3") == 3;
    assert DigitsValue("30") == 30;
    assert DigitsValue("300") == 300;
  }

  /** As many different nonces at one instant. */
  function Flood(k: nat): (attempts: seq<Attempt>)
    ensures |attempts| == k && forall i :: 0 <= i < k ==> attempts[i] == Attempt(Itoa(i), 0)
  {
    seq(k, i requires 0 <= i < k => Attempt(Itoa(i), 0))
  }

  lemma ItoaInjective(a: nat, b: nat)
    requires Itoa(a) == Itoa(b)
    ensures a == b
  {
    DigitsValueItoa(a);
    DigitsValueItoa(b);
  }

  lemma {:induction false} FloodIsAccepted(k: nat)
    ensures var log := Run(Flood(k)).log;
            |log| == k && Numbers(log)
  {
    if k > 0 {
      var before := Run(Flood(k - 1)).log;
      FloodIsAccepted(k - 1);
      assert Flood(k)[..k - 1] == Flood(k - 1);
      assert Accepted(Flood(k), k - 1) by {
        NumbersDiffer(before, k - 1);
        AcceptedIffNotRemembered(Flood(k), k - 1);
      }
      AcceptedIsLogged(Flood(k));
      NumbersOneMore(before, Run(Flood(k)).log);
    }
  }

  predicate Numbers(log: seq<Entry>) { forall i :: 0 <= i < |log| ==> log[i] == Entry(Itoa(i), 0) }

  lemma NumbersOneMore(before: seq<Entry>, log: seq<Entry>)
    requires Numbers(before) && log == before + [Entry(Itoa(|before|), 0)]
    ensures Numbers(log)
  {
    forall i | 0 <= i < |log|
      ensures log[i] == Entry(Itoa(i), 0)
    {
      assert i < |before| ==> log[i] == before[i];
    }
  }

  lemma AcceptedIsLogged(attempts: seq<Attempt>)
    requires attempts != [] && Accepted(attempts, |attempts| - 1)
    ensures var last := attempts[|attempts| - 1];
            Run(attempts).log == Run(attempts[..|attempts| - 1]).log + [Entry(last.nonce, last.now)]
  {
  }

  lemma NumbersDiffer(log: seq<Entry>, k: nat)
    requires |log| == k && Numbers(log)
    ensures !Remembers(log, Itoa(k), 0)
  {
    forall i | 0 <= i < k
      ensures log[i].nonce != Itoa(k)
    {
      if Itoa(i) == Itoa(k) {
        ItoaInjective(i, k);
      }
    }
  }

  /** The second: 4096 other nonces later the first one is accepted again, at the very same instant. */
  lemma ReplayAfterEviction()
    ensures var attempts := Flood(CAPACITY + 1) + [Attempt(Itoa(0), 0)];
            Accepted(attempts, 0) && Accepted(attempts, CAPACITY + 1)
  {
    var attempts := Flood(CAPACITY + 1) + [Attempt(Itoa(0), 0)];
    FloodIsAccepted(CAPACITY + 1);
    AcceptedIffNotRemembered(attempts, 0);
    AcceptedIffNotRemembered(attempts, CAPACITY + 1);
    assert attempts[..CAPACITY + 1] == Flood(CAPACITY + 1) && attempts[..0] == [];
    var log := Run(Flood(CAPACITY + 1)).log;
    forall i | 1 <= i < |log|
      ensures log[i].nonce != Itoa(0)
    {
      if Itoa(i) == Itoa(0) {
        ItoaInjective(i, 0);
      }
    }
  }

  // ----- VerifyBattleCallback -----

  datatype Verdict = Accepted | SignatureInvalid | FreshnessIncomplete | NonceInvalid | TimestampStale | Replay

  /** BattleCallbackSignedMaterial: the octets the signature covers. */
  function SignedMaterial(timestamp: string, nonce: string, body: string): (material: string) {
    var ts, n := TrimSpace(timestamp), TrimSpace(nonce);
    if ts == "" || n == "" then body else ts + "\n" + n + "\n" + body
  }

  lemma CutAtNewline(a: string, b: string, a': string, b': string)
    requires '\n' !in a && '\n' !in a' && a + "\n" + b == a' + "\n" + b'
    ensures a == a' && b == b'
  {
    SplitAtSeparator(a, '\n', b);
    SplitAtSeparator(a', '\n', b');
    assert ([a] + Split(b, '\n'))[0] == ([a'] + Split(b', '\n'))[0];
    assert b == (a + "\n" + b)[|a| + 1..];
  }

  lemma LinesBind(a: string, b: string, c: string, a': string, b': string, c': string)
    requires '\n' !in a && '\n' !in b && '\n' !in a' && '\n' !in b'
    requires a + "\n" + b + "\n" + c == a' + "\n" + b' + "\n" + c'
    ensures a == a' && b == b' && c == c'
  {
    assert a + "\n" + b + "\n" + c == a + "\n" + (b + "\n" + c);
    assert a' + "\n" + b' + "\n" + c' == a' + "\n" + (b' + "\n" + c');
    CutAtNewline(a, b + "\n" + c, a', b' + "\n" + c');
    CutAtNewline(b, c, b', c');
  }

  /** The signature binds the trimmed timestamp, the trimmed nonce and the body, when the first two hold no line end. */
  lemma MaterialBinds(timestamp: string, nonce: string, body: string, timestamp': string, nonce': string, body': string)
    requires TrimSpace(timestamp) != "" && TrimSpace(nonce) != ""
    requires TrimSpace(timestamp') != "" && TrimSpace(nonce') != ""
    requires '\n' !in timestamp + nonce && '\n' !in timestamp' + nonce'
    ensures SignedMaterial(timestamp, nonce, body) == SignedMaterial(timestamp', nonce', body') <==>
              TrimSpace(timestamp) == TrimSpace(timestamp') && TrimSpace(nonce) == TrimSpace(nonce') && body == body'
  {
    TrimmedIn(timestamp, '\n');
    TrimmedIn(nonce, '\n');
    TrimmedIn(timestamp', '\n');
    TrimmedIn(nonce', '\n');
    if SignedMaterial(timestamp, nonce, body) == SignedMaterial(timestamp', nonce', body') {
      LinesBind(TrimSpace(timestamp), TrimSpace(nonce), body, TrimSpace(timestamp'), TrimSpace(nonce'), body');
    }
  }

  lemma TrimmedIn(s: string, c: char)
    requires c !in s
    ensures c !in TrimSpace(s)
  {
    var front, back := TrimSpaceCuts(s);
  }

  /** Without timestamp or nonce the body alone is signed. */
  lemma LegacyMaterial(timestamp: string, nonce: string, body: string)
    requires TrimSpace(timestamp) == "" || TrimSpace(nonce) == ""
    ensures SignedMaterial(timestamp, nonce, body) == body
  {
  }

  /** The part of the service that callbacks touch; sigOk is the keyed signature test. */
  class CallbackVerifier {
    var windows: map<string, Window>
    var legacy: nat

    constructor ()
      ensures windows == map[] && legacy == 0
    {
      windows, legacy := map[], 0;
    }

    ghost predicate Valid(now: int)
      reads this
    {
      forall id :: id in windows ==> windows[id].Valid(now)
    }

    ghost function EntriesOf(id: string): (es: seq<Entry>)
      requires id in windows ==> windows[id].Coherent()
      reads this
    {
      if id in windows then windows[id].Entries() else []
    }

    method Verify(sigOk: (string, string, string) -> bool, battleServerID: string, body: string,
                  timestamp: string, nonce: string, signature: string, now: int) returns (verdict: Verdict)
      requires Valid(now)
      modifies this
      ensures Valid(now)
      // exactly the complete, signed, fresh and new callbacks are accepted
      ensures var id, n := TrimSpace(battleServerID), TrimSpace(nonce);
              verdict == Verdict.Accepted
              <==> && id != "" && (TrimSpace(timestamp) == "" <==> n == "")
                   && sigOk(id, SignedMaterial(timestamp, nonce, body), signature)
                   && (n != "" ==> && |n| <= MAX_NONCE_LEN && TimestampFresh(TrimSpace(timestamp), now)
                                   && Decide(old(EntriesOf(id)), n, now).0)
      // every other answer has its own reason
      ensures var (id, ts, n) := (TrimSpace(battleServerID), TrimSpace(timestamp), TrimSpace(nonce));
              var signed := sigOk(id, SignedMaterial(timestamp, nonce, body), signature);
              && (verdict == FreshnessIncomplete <==> id != "" && (ts == "") != (n == ""))
              && (verdict == NonceInvalid <==> id != "" && ts != "" && |n| > MAX_NONCE_LEN)
              && (verdict == TimestampStale <==>
                    id != "" && ts != "" && 0 < |n| <= MAX_NONCE_LEN && signed && !TimestampFresh(ts, now))
      // the signature is tested first: without it nothing is remembered or forgotten
      ensures !sigOk(TrimSpace(battleServerID), SignedMaterial(timestamp, nonce, body), signature)
              ==> verdict !in {Verdict.Accepted, TimestampStale, Replay}
      ensures verdict !in {Verdict.Accepted, Replay} ==> windows == old(windows)
      ensures legacy == old(legacy)
              + if verdict == Verdict.Accepted && TrimSpace(timestamp) == "" && TrimSpace(nonce) == "" then 1 else 0
      // a signed, fresh callback is decided by its server's window alone
      ensures var id, n := TrimSpace(battleServerID), TrimSpace(nonce);
              verdict in {Verdict.Accepted, Replay} && n != "" ==>
                && TimestampFresh(TrimSpace(timestamp), now)
                && (verdict == Verdict.Accepted, EntriesOf(id)) == Decide(old(EntriesOf(id)), n, now)
                && forall other :: other != id ==>
                     (other in windows <==> other in old(windows))
                     && (other in windows ==> windows[other] == old(windows[other]))
    {
      var id, ts, n := TrimSpace(battleServerID), TrimSpace(timestamp), TrimSpace(nonce);
      if id == "" {
        return SignatureInvalid;
      }
      if (ts == "") != (n == "") {
        return FreshnessIncomplete;
      }
      if ts == "" {
        if !sigOk(id, body, signature) {
          return SignatureInvalid;
        }
        legacy := legacy + 1;
        return Verdict.Accepted;
      }
      if |n| > MAX_NONCE_LEN {
        return NonceInvalid;
      }
      if !sigOk(id, SignedMaterial(timestamp, nonce, body), signature) {
        return SignatureInvalid;
      }
      if !TimestampFresh(ts, now) {
        return TimestampStale;
      }
      var window := if id in windows then windows[id] else Window(map[], []);
      var isNew, window' := AllowNonce(window, n, now);
      windows := windows[id := window'];
      verdict := if isNew then Verdict.Accepted else Replay;
    }
  }
}
