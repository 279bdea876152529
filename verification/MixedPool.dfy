/** The shared card pool of a draft and the probing draw of its three candidates. */
module MixedPool {
  import opened Text
  import opened GachaRolls

  const PICK_COUNT: nat := 3

  // ----- the pool -----

  predicate StrictlySorted(pool: seq<string>) {
    forall i, j :: 0 <= i < j < |pool| ==> Less(pool[i], pool[j])
  }

  /** Some deck holds the card, up to surrounding blanks. */
  predicate InSomeDeck(decks: seq<seq<string>>, card: string) {
    card != "" && exists d, k :: 0 <= d < |decks| && 0 <= k < |decks[d]| && TrimSpace(decks[d][k]) == card
  }

  /** The pool is the sorted set of the nonblank cards of all decks. */
  ghost predicate IsMixedPool(decks: seq<seq<string>>, pool: seq<string>) {
    StrictlySorted(pool) && forall card :: card in pool <==> InSomeDeck(decks, card)
  }

  lemma SortedHead(a: seq<string>, b: seq<string>)
    requires StrictlySorted(a) && StrictlySorted(b) && a != [] && b != []
    requires forall x :: x in a <==> x in b
    ensures a[0] == b[0]
  {
    assert b[0] in a && a[0] in b;
    var i :| 0 <= i < |a| && a[i] == b[0];
    var j :| 0 <= j < |b| && b[j] == a[0];
    if i > 0 && j > 0 {
      LessTotal(a[0], b[0]);
    }
  }

  lemma SomethingListed(b: seq<string>)
    requires b != []
    ensures exists x :: x in b
  {
    assert b[0] in b;
  }

  /** A set of cards has one strictly sorted listing. */
  lemma {:induction false} SortedUnique(a: seq<string>, b: seq<string>)
    requires StrictlySorted(a) && StrictlySorted(b)
    requires forall x :: x in a <==> x in b
    ensures a == b
  {
    if a == [] {
      if b != [] {
        SomethingListed(b);
      }
    } else {
      assert a[0] in b;
      SortedHead(a, b);
      forall x
        ensures x in a[1..] <==> x in b[1..]
      {
        SortedTail(a, x);
        SortedTail(b, x);
      }
      SortedUnique(a[1..], b[1..]);
      assert a == [a[0]] + a[1..] && b == [b[0]] + b[1..];
    }
  }

  lemma SortedTail(a: seq<string>, x: string)
    requires StrictlySorted(a) && a != []
    ensures x in a[1..] <==> x in a && x != a[0]
  {
    LessTotal(a[0], x);
  }

  /** The pool does not depend on the order of players or cards, only on what the decks hold. */
  lemma PoolIgnoresOrder(decks: seq<seq<string>>, others: seq<seq<string>>, a: seq<string>, b: seq<string>)
    requires IsMixedPool(decks, a) && IsMixedPool(others, b)
    requires forall card :: InSomeDeck(decks, card) <==> InSomeDeck(others, card)
    ensures a == b
  {
    SortedUnique(a, b);
  }

  /** sort.Strings, as insertion. */
  function Insert(x: string, sorted: seq<string>): (r: seq<string>) {
    if sorted == [] || Less(x, sorted[0]) then [x] + sorted else [sorted[0]] + Insert(x, sorted[1..])
  }

  function SortStrings(s: seq<string>): (r: seq<string>) {
    if s == [] then [] else Insert(s[0], SortStrings(s[1..]))
  }

  lemma {:induction false} InsertMembers(x: string, sorted: seq<string>)
    ensures forall y :: y in Insert(x, sorted) <==> y == x || y in sorted
  {
    if sorted != [] && !Less(x, sorted[0]) {
      InsertMembers(x, sorted[1..]);
    }
  }

  lemma {:induction false} InsertSorted(x: string, sorted: seq<string>)
    requires StrictlySorted(sorted) && x !in sorted
    ensures StrictlySorted(Insert(x, sorted))
  {
    if sorted != [] {
      LessTotal(x, sorted[0]);
      var r := Insert(x, sorted);
      if Less(x, sorted[0]) {
        forall j | 0 < j < |sorted|
          ensures Less(x, sorted[j])
        {
          LessTransitive(x, sorted[0], sorted[j]);
        }
      } else {
        assert sorted[0] in sorted;
        InsertSorted(x, sorted[1..]);
        InsertMembers(x, sorted[1..]);
        forall j | 0 < j < |r|
          ensures Less(sorted[0], r[j])
        {
          assert r[j] in Insert(x, sorted[1..]);
        }
      }
    }
  }

  /** Sorting distinct strings sorts them strictly and keeps exactly them. */
  lemma {:induction false} SortStringsSorts(s: seq<string>)
    requires NoRepeats(s)
    ensures StrictlySorted(SortStrings(s))
    ensures forall y :: y in SortStrings(s) <==> y in s
  {
    if s != [] {
      SortStringsSorts(s[1..]);
      InsertMembers(s[0], SortStrings(s[1..]));
      InsertSorted(s[0], SortStrings(s[1..]));
    }
  }

  /** buildMixedPool: collect every nonblank card once, then sort. */
  method BuildMixedPool(decks: seq<seq<string>>) returns (pool: seq<string>)
    ensures IsMixedPool(decks, pool)
    ensures pool == Pool(decks)
  {
    pool := [];
    for d := 0 to |decks|
      invariant NoRepeats(pool)
      invariant forall card :: card in pool <==> InSomeDeck(decks[..d], card)
    {
      pool := CollectDeck(pool, decks[d]);
      forall card
        ensures card in pool <==> InSomeDeck(decks[..d + 1], card)
      {
        InOneMoreDeck(decks, d, card);
      }
    }
    assert decks[..|decks|] == decks;
    SortStringsSorts(pool);
    pool := SortStrings(pool);
    PoolIsMixed(decks);
    SortedUnique(pool, Pool(decks));
  }

  predicate InDeck(deck: seq<string>, card: string) {
    card != "" && exists k :: 0 <= k < |deck| && TrimSpace(deck[k]) == card
  }

  lemma InOneMoreDeck(decks: seq<seq<string>>, d: nat, card: string)
    requires d < |decks|
    ensures InSomeDeck(decks[..d + 1], card) <==> InSomeDeck(decks[..d], card) || InDeck(decks[d], card)
  {
    if InSomeDeck(decks[..d], card) {
      var e, k :| 0 <= e < d && 0 <= k < |decks[..d][e]| && TrimSpace(decks[..d][e][k]) == card;
      assert decks[..d + 1][e] == decks[..d][e];
    }
    if InDeck(decks[d], card) {
      assert decks[..d + 1][d] == decks[d];
    }
    if InSomeDeck(decks[..d + 1], card) {
      var e, k :| 0 <= e < d + 1 && 0 <= k < |decks[..d + 1][e]| && TrimSpace(decks[..d + 1][e][k]) == card;
      assert e < d ==> decks[..d][e] == decks[..d + 1][e];
    }
  }

  method CollectDeck(before: seq<string>, deck: seq<string>) returns (pool: seq<string>)
    requires NoRepeats(before)
    ensures NoRepeats(pool)
    ensures forall card :: card in pool <==> card in before || InDeck(deck, card)
  {
    pool := before;
    for k := 0 to |deck|
      invariant NoRepeats(pool)
      invariant forall card :: card in pool <==> card in before || InDeck(deck[..k], card)
    {
      ghost var earlier := pool;
      var card := TrimSpace(deck[k]);
      if card != "" && card !in pool {
        pool := pool + [card];
      }
      forall c
        ensures c in pool <==> c in before || InDeck(deck[..k + 1], c)
      {
        InOneMoreCard(deck, k, c);
        assert c in pool <==> c in earlier || (c != "" && c == card);
      }
    }
    assert deck[..|deck|] == deck;
  }

  lemma InOneMoreCard(deck: seq<string>, k: nat, card: string)
    requires k < |deck|
    ensures InDeck(deck[..k + 1], card) <==> InDeck(deck[..k], card) || (card != "" && TrimSpace(deck[k]) == card)
  {
    if InDeck(deck[..k], card) {
      var i :| 0 <= i < k && TrimSpace(deck[..k][i]) == card;
      assert deck[..k + 1][i] == deck[..k][i];
    }
    if card != "" && TrimSpace(deck[k]) == card {
      assert deck[..k + 1][k] == deck[k];
    }
    if InDeck(deck[..k + 1], card) {
      var i :| 0 <= i < k + 1 && TrimSpace(deck[..k + 1][i]) == card;
      assert i < k ==> deck[..k][i] == deck[..k + 1][i];
    }
  }

  /** The distinct nonblank cards of one list, later ones first. */
  function Distinct(cards: seq<string>): (r: seq<string>)
    ensures NoRepeats(r)
    ensures forall c :: c in r <==> InDeck(cards, c)
  {
    if cards == [] then []
    else
      var rest := Distinct(cards[..|cards| - 1]);
      var card := TrimSpace(cards[|cards| - 1]);
      DistinctStep(cards);
      if card == "" || card in rest then rest else rest + [card]
  }

  lemma DistinctStep(cards: seq<string>)
    requires cards != []
    ensures forall c :: InDeck(cards, c) <==>
              InDeck(cards[..|cards| - 1], c) || (c != "" && c == TrimSpace(cards[|cards| - 1]))
  {
    forall c
      ensures InDeck(cards, c) <==>
        InDeck(cards[..|cards| - 1], c) || (c != "" && c == TrimSpace(cards[|cards| - 1]))
    {
      InOneMoreCard(cards, |cards| - 1, c);
      assert cards[..|cards|] == cards;
    }
  }

  function Flatten(decks: seq<seq<string>>): (r: seq<string>) {
    if decks == [] then [] else Flatten(decks[..|decks| - 1]) + decks[|decks| - 1]
  }

  /** The pool as a function of the decks. */
  function Pool(decks: seq<seq<string>>): (pool: seq<string>) {
    SortStrings(Distinct(Flatten(decks)))
  }

  lemma {:induction false} FlattenMembers(decks: seq<seq<string>>, card: string)
    ensures InDeck(Flatten(decks), card) <==> InSomeDeck(decks, card)
  {
    if decks != [] {
      var n := |decks| - 1;
      FlattenMembers(decks[..n], card);
      InOneMoreDeck(decks, n, card);
      assert decks[..n + 1] == decks;
      InConcat(Flatten(decks[..n]), decks[n], card);
    }
  }

  lemma InConcat(a: seq<string>, b: seq<string>, card: string)
    ensures InDeck(a + b, card) <==> InDeck(a, card) || InDeck(b, card)
  {
    if InDeck(a, card) {
      var k :| 0 <= k < |a| && TrimSpace(a[k]) == card;
      assert (a + b)[k] == a[k];
    }
    if InDeck(b, card) {
      var k :| 0 <= k < |b| && TrimSpace(b[k]) == card;
      assert (a + b)[|a| + k] == b[k];
    }
  }

  lemma PoolIsMixed(decks: seq<seq<string>>)
    ensures IsMixedPool(decks, Pool(decks))
  {
    SortStringsSorts(Distinct(Flatten(decks)));
    forall card
      ensures card in Pool(decks) <==> InSomeDeck(decks, card)
    {
      FlattenMembers(decks, card);
    }
  }

  // ----- the draw -----

  /** Where a draw starts probing among n cards. */
  function Start(u: Unit, n: nat): (pos: nat)
    requires n > 0
    ensures pos < n && pos as real <= u * n as real < (pos + 1) as real
  {
    PointInRange(u, n);
    (u * n as real).Floor
  }

  /** The place k steps after the start, wrapping around. */
  function At(start: nat, k: nat, n: nat): (pos: nat)
    requires start < n && k <= n
    ensures pos < n
  {
    if start + k < n then start + k else start + k - n
  }

  /** How far the probe walks, wrapping around, from its start to the first free place. */
  function Distance(taken: set<nat>, start: nat, n: nat, d: nat): (r: nat)
    requires start < n && |taken| < n && d <= n
    requires forall k :: 0 <= k < d ==> At(start, k, n) in taken
    ensures d <= r < n && At(start, r, n) !in taken
    ensures forall k :: 0 <= k < r ==> At(start, k, n) in taken
    decreases n - d
  {
    RoomLeft(taken, start, n, d);
    if At(start, d, n) !in taken then d else Distance(taken, start, n, d + 1)
  }

  /** With fewer than n places taken, a full round of probes cannot fail. */
  lemma RoomLeft(taken: set<nat>, start: nat, n: nat, d: nat)
    requires start < n && |taken| < n && d <= n
    requires forall k :: 0 <= k < d ==> At(start, k, n) in taken
    ensures d < n
  {
    if d == n {
      forall p: nat | p < n
        ensures p in taken
      {
        var k := if p >= start then p - start else p + n - start;
        assert At(start, k, n) == p;
      }
      AllTaken(taken, n);
    }
  }

  lemma {:induction false} AllTaken(taken: set<nat>, n: nat)
    requires forall p: nat :: p < n ==> p in taken
    ensures |taken| >= n
  {
    if n > 0 {
      AllTaken(taken - {n - 1}, n - 1);
    }
  }

  function Probe(taken: set<nat>, start: nat, n: nat): (pos: nat)
    requires start < n && |taken| < n
    ensures pos < n && pos !in taken
  {
    At(start, Distance(taken, start, n, 0), n)
  }

  function Members(s: seq<nat>): (r: set<nat>) { set x | x in s }

  predicate DistinctPlaces(s: seq<nat>, n: nat) {
    && (forall i :: 0 <= i < |s| ==> s[i] < n)
    && (forall i, j :: 0 <= i < j < |s| ==> s[i] != s[j])
  }

  lemma {:induction false} MembersSize(s: seq<nat>, n: nat)
    requires DistinctPlaces(s, n)
    ensures |Members(s)| == |s|
  {
    if s != [] {
      var front, last := s[..|s| - 1], s[|s| - 1];
      MembersSize(front, n);
      assert Members(s) == Members(front) + {last};
    }
  }

  /** The places of the first count draws. */
  function Places(n: nat, units: nat -> Unit, count: nat): (s: seq<nat>)
    requires count <= n
    ensures |s| == count && DistinctPlaces(s, n)
  {
    if count == 0 then []
    else
      var before := Places(n, units, count - 1);
      MembersSize(before, n);
      before + [Probe(Members(before), Start(units(count - 1), n), n)]
  }

  function Wanted(pool: seq<string>): (n: nat)
    ensures n <= |pool| && n <= PICK_COUNT
  {
    if |pool| < PICK_COUNT then |pool| else PICK_COUNT
  }

  /** The drawn candidates. */
  function Draw(pool: seq<string>, units: nat -> Unit): (candidates: seq<string>)
    ensures |candidates| == Wanted(pool)
    ensures forall i :: 0 <= i < |candidates| ==> candidates[i] in pool
  {
    CardsAt(pool, Places(|pool|, units, Wanted(pool)))
  }

  function CardsAt(pool: seq<string>, places: seq<nat>): (cards: seq<string>)
    requires forall i :: 0 <= i < |places| ==> places[i] < |pool|
    ensures |cards| == |places|
    ensures forall i :: 0 <= i < |cards| ==> cards[i] == pool[places[i]]
  {
    seq(|places|, i requires 0 <= i < |places| => pool[places[i]])
  }

  /** Whatever the hashes say, the candidates are min(3, |pool|) different pool cards. */
  lemma DrawDistinct(pool: seq<string>, units: nat -> Unit)
    requires StrictlySorted(pool)
    ensures NoRepeats(Draw(pool, units)) && |Draw(pool, units)| == Wanted(pool)
    ensures forall c :: c in Draw(pool, units) ==> c in pool
  {
    var places := Places(|pool|, units, Wanted(pool));
    var candidates := Draw(pool, units);
    forall i, j | 0 <= i < j < |candidates|
      ensures candidates[i] != candidates[j]
    {
      LessTotal(pool[places[i]], pool[places[j]]);
      LessTotal(pool[places[j]], pool[places[i]]);
    }
  }

  /** One more draw: the first free place after where its number points. */
  lemma PlacesStep(pool: seq<string>, units: nat -> Unit, i: nat)
    requires i < Wanted(pool)
    ensures var before := Places(|pool|, units, i);
            && |Members(before)| < |pool|
            && var pos := Probe(Members(before), Start(units(i), |pool|), |pool|);
               && Places(|pool|, units, i + 1) == before + [pos]
               && Members(before + [pos]) == Members(before) + {pos}
               && CardsAt(pool, before + [pos]) == CardsAt(pool, before) + [pool[pos]]
  {
    MembersSize(Places(|pool|, units, i), |pool|);
  }

  lemma {:induction false} PlacesPrefix(n: nat, units: nat -> Unit, i: nat, count: nat)
    requires i <= count <= n
    ensures Places(n, units, count)[..i] == Places(n, units, i)
  {
    if i < count {
      PlacesPrefix(n, units, i, count - 1);
      assert Places(n, units, count)[..count - 1] == Places(n, units, count - 1);
      assert Places(n, units, count)[..i] == Places(n, units, count)[..count - 1][..i];
    }
  }

  /** The probe walks from the start to the first place not yet taken. */
  lemma ProbeWalks(taken: set<nat>, start: nat, n: nat) returns (d: nat)
    requires start < n && |taken| < n
    ensures d < n && Probe(taken, start, n) == At(start, d, n)
    ensures forall k :: 0 <= k < d ==> At(start, k, n) in taken
  {
    d := Distance(taken, start, n, 0);
  }

  /** Candidate i of a draw, with the candidates before it. */
  lemma CandidateAt(pool: seq<string>, units: nat -> Unit, i: nat)
    requires i < Wanted(pool)
    ensures var before := Places(|pool|, units, i);
            && |Members(before)| < |pool|
            && Draw(pool, units)[i] == pool[Probe(Members(before), Start(units(i), |pool|), |pool|)]
            && Draw(pool, units)[..i] == CardsAt(pool, before)
  {
    var places := Places(|pool|, units, Wanted(pool));
    PlacesStep(pool, units, i);
    PlacesPrefix(|pool|, units, i + 1, Wanted(pool));
    PlacesPrefix(|pool|, units, i, Wanted(pool));
    assert places[i] == places[..i + 1][i];
    SameCards(pool, places, i);
  }

  lemma SameCards(pool: seq<string>, places: seq<nat>, i: nat)
    requires i <= |places| && forall j :: 0 <= j < |places| ==> places[j] < |pool|
    ensures CardsAt(pool, places)[..i] == CardsAt(pool, places[..i])
  {
  }

  /** Each candidate stands at the first place, from where its number points, that no earlier candidate took. */
  lemma DrawTakesFirstFree(pool: seq<string>, units: nat -> Unit, i: nat) returns (d: nat)
    requires i < Wanted(pool)
    ensures var start := Start(units(i), |pool|);
            && d < |pool| && Draw(pool, units)[i] == pool[At(start, d, |pool|)]
            && forall k :: 0 <= k < d ==> pool[At(start, k, |pool|)] in Draw(pool, units)[..i]
  {
    var before, start := Places(|pool|, units, i), Start(units(i), |pool|);
    CandidateAt(pool, units, i);
    d := ProbeWalks(Members(before), start, |pool|);
    forall k | 0 <= k < d
      ensures pool[At(start, k, |pool|)] in CardsAt(pool, before)
    {
      var j :| 0 <= j < i && before[j] == At(start, k, |pool|);
      assert CardsAt(pool, before)[j] == pool[before[j]];
    }
  }

  /** drawMixedPoolCandidates: the probing loop terminates and finds the first free place. */
  method DrawCandidates(pool: seq<string>, units: nat -> Unit) returns (candidates: seq<string>)
    ensures candidates == Draw(pool, units)
  {
    candidates := [];
    var want := if |pool| < PICK_COUNT then |pool| else PICK_COUNT;
    var taken: set<nat> := {};
    ghost var places: seq<nat> := [];
    for i := 0 to want
      invariant places == Places(|pool|, units, i)
      invariant taken == Members(places)
      invariant candidates == CardsAt(pool, places)
    {
      PlacesStep(pool, units, i);
      var pos := FreePlace(taken, Start(units(i), |pool|), |pool|);
      taken := taken + {pos};
      candidates := candidates + [pool[pos]];
      places := places + [pos];
    }
  }

  method FreePlace(taken: set<nat>, start: nat, n: nat) returns (pos: nat)
    requires start < n && |taken| < n
    ensures pos == Probe(taken, start, n)
  {
    pos := start;
    ghost var d := 0;
    while pos in taken
      invariant d < n && pos == At(start, d, n)
      invariant forall k :: 0 <= k < d ==> At(start, k, n) in taken
      decreases n - d
    {
      RoomLeft(taken, start, n, d + 1);
      NextPlace(pos, n);
      pos := (pos + 1) % n;
      d := d + 1;
    }
    assert At(start, d, n) !in taken;
    assert d == Distance(taken, start, n, 0);
  }

  lemma NextPlace(pos: nat, n: nat)
    requires pos < n
    ensures (pos + 1) % n == if pos + 1 == n then 0 else pos + 1
  {
  }
}
