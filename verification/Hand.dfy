/**
 * A player's hand during a match: four slots, a queue of draft cards that found
 * the hand full, a deck that is drawn cyclically, energy and cooldowns.
 */
module Hand {
  import opened Text

  const LIMIT: nat := 4
  const MAX_ENERGY: real := 10.0

  /** One row of the server's card catalog. */
  datatype Card = Card(cost: real, cooldown: int, energyGain: real, draws: nat)

  type Catalog = map<string, Card>

  datatype Player = Player(hand: seq<string>, pending: seq<string>, deck: seq<string>, cursor: nat,
                           energy: real, cooldowns: map<string, int>)

  /** The hand fits its slots and nothing waits while a slot is free. */
  predicate Sound(p: Player) {
    |p.hand| <= LIMIT && (p.pending != [] ==> |p.hand| == LIMIT)
  }

  /** grantCardToPlayer. */
  function Grant(p: Player, card: string): (p': Player) {
    if card == "" then p
    else if |p.hand| < LIMIT then p.(hand := p.hand + [card])
    else p.(pending := p.pending + [card])
  }

  /** promotePendingGrants. */
  function Promote(p: Player): (p': Player)
    decreases |p.pending|
  {
    if p.pending != [] && |p.hand| < LIMIT
    then Promote(p.(hand := p.hand + [p.pending[0]], pending := p.pending[1..]))
    else p
  }

  /** The card a draw yields, if the hand has room, the deck has cards and the card is not blank. */
  function Drawable(p: Player): (card: string) {
    if |p.hand| >= LIMIT || p.deck == [] then "" else TrimSpace(p.deck[p.cursor % |p.deck|])
  }

  /** drawServerCard: the cursor moves on whenever the deck was looked at. */
  function DrawCard(p: Player): (p': Player) {
    if |p.hand| >= LIMIT || p.deck == [] then p
    else
      var card := Drawable(p);
      p.(cursor := p.cursor + 1, hand := if card == "" then p.hand else p.hand + [card])
  }

  function DrawCards(p: Player, n: nat): (p': Player)
    decreases n
  {
    if n == 0 then p else DrawCards(DrawCard(p), n - 1)
  }

  /** initialHand: the first nonblank cards of the deck, up to the limit. */
  function Opening(deck: seq<string>, hand: seq<string>, cursor: nat): (r: (seq<string>, nat))
    requires cursor <= |deck|
    decreases |deck| - cursor
  {
    if cursor == |deck| || |hand| >= LIMIT then (hand, cursor)
    else
      var card := TrimSpace(deck[cursor]);
      Opening(deck, if card != "" then hand + [card] else hand, cursor + 1)
  }

  datatype PlayError = SlotOutside | SlotEmpty | UnknownCard | OnCooldown | NoEnergy

  /** The tests of validateAndActivateCardLocked, in order. */
  function Refusal(catalog: Catalog, p: Player, slot: int, tick: int): (e: Option<PlayError>) {
    if slot < 0 || slot >= LIMIT then Some(SlotOutside)
    else if slot >= |p.hand| then Some(SlotEmpty)
    else
      var id := TrimSpace(p.hand[slot]);
      if id !in catalog then Some(UnknownCard)
      else if id in p.cooldowns && tick < p.cooldowns[id] then Some(OnCooldown)
      else if id !in p.cooldowns && tick < 0 then Some(OnCooldown)
      else if p.energy + 0.0001 < catalog[id].cost then Some(NoEnergy)
      else None
  }

  /** Removing the played card, then the waiting grants, then one card of the deck. */
  function Remove(p: Player, slot: nat): (p': Player)
    requires slot < |p.hand|
  {
    p.(hand := p.hand[..slot] + p.hand[slot + 1..])
  }

  function Max(a: real, b: real): (r: real) { if a < b then b else a }

  function Min(a: real, b: real): (r: real) { if a < b then a else b }

  /** The payment for a card: energy and cooldown. */
  function Pay(catalog: Catalog, p: Player, id: string, tick: int): (p': Player)
    requires id in catalog
  {
    p.(energy := Max(0.0, p.energy - catalog[id].cost),
       cooldowns := p.cooldowns[id := tick + catalog[id].cooldown])
  }

  function Gain(p: Player, gain: real): (p': Player) {
    if gain > 0.0 then p.(energy := Min(MAX_ENERGY, p.energy + gain)) else p
  }

  /** One card request: the play with its promotion and draw, then the draws of the card's effect. */
  function Play(catalog: Catalog, p: Player, slot: int, tick: int): (r: (Option<PlayError>, Player)) {
    var refusal := Refusal(catalog, p, slot, tick);
    if refusal.Some? then (refusal, p)
    else
      var id := TrimSpace(p.hand[slot]);
      var played := Refill(Pay(catalog, p, id, tick), slot);
      (None, DrawCards(Gain(played, catalog[id].energyGain), catalog[id].draws))
  }

  /** The slot is emptied, waiting cards move up, and one card is drawn. */
  function Refill(p: Player, slot: nat): (p': Player)
    requires slot < |p.hand|
  {
    DrawCard(Promote(Remove(p, slot)))
  }

  // ----- what every operation keeps -----

  lemma {:induction false} PromoteShape(p: Player)
    requires |p.hand| <= LIMIT
    ensures var k := if |p.pending| < LIMIT - |p.hand| then |p.pending| else LIMIT - |p.hand|;
            Promote(p) == p.(hand := p.hand + p.pending[..k], pending := p.pending[k..])
    ensures Sound(Promote(p))
    decreases |p.pending|
  {
    if p.pending != [] && |p.hand| < LIMIT {
      var next := p.(hand := p.hand + [p.pending[0]], pending := p.pending[1..]);
      PromoteShape(next);
      var k := if |p.pending| < LIMIT - |p.hand| then |p.pending| else LIMIT - |p.hand|;
      MoveOne(p.hand, p.pending, k);
    } else {
      assert p.hand + p.pending[..0] == p.hand && p.pending[0..] == p.pending;
    }
  }

  lemma MoveOne(hand: seq<string>, pending: seq<string>, k: nat)
    requires 0 < k <= |pending|
    ensures hand + [pending[0]] + pending[1..][..k - 1] == hand + pending[..k]
    ensures pending[1..][k - 1..] == pending[k..]
  {
  }

  lemma {:induction false} DrawCardsKeepsSound(p: Player, n: nat)
    requires Sound(p)
    ensures var p' := DrawCards(p, n);
            Sound(p') && p'.pending == p.pending && p.hand <= p'.hand && (p.pending != [] ==> p' == p)
    decreases n
  {
    if n > 0 {
      DrawCardsKeepsSound(DrawCard(p), n - 1);
    }
  }

  /** Everything a player holds, in hand or waiting. */
  function Held(p: Player): (m: multiset<string>) { multiset(p.hand) + multiset(p.pending) }

  lemma GrantAdds(p: Player, card: string)
    requires Sound(p) && card != ""
    ensures Sound(Grant(p, card)) && Held(Grant(p, card)) == Held(p) + multiset{card}
  {
  }

  /** The waiting card that a play lets into the hand. */
  function NextWaiting(p: Player): (cards: seq<string>) { if p.pending == [] then [] else [p.pending[0]] }

  function Without(hand: seq<string>, slot: nat): (rest: seq<string>)
    requires slot < |hand|
    ensures |rest| == |hand| - 1
  {
    hand[..slot] + hand[slot + 1..]
  }

  /** The hand after a play: the other cards, the longest waiting card if any, and only then deck cards. */
  ghost predicate Refilled(p: Player, slot: nat, p': Player)
    requires slot < |p.hand|
  {
    && Sound(p')
    && p.pending == NextWaiting(p) + p'.pending
    && Without(p.hand, slot) + NextWaiting(p) <= p'.hand
    && (p.pending != [] ==> p'.hand == Without(p.hand, slot) + NextWaiting(p) && p'.cursor == p.cursor)
  }

  lemma DrawCardShape(p: Player)
    requires Sound(p)
    ensures var p' := DrawCard(p);
            && Sound(p') && p'.pending == p.pending && p.hand <= p'.hand
            && (|p.hand| == LIMIT ==> p' == p)
  {
  }

  /** After the removal exactly the longest waiting card moves up. */
  lemma PromotedShape(p: Player, slot: nat)
    requires Sound(p) && slot < |p.hand|
    ensures var promoted := Promote(Remove(p, slot));
            && Sound(promoted)
            && promoted.hand == Without(p.hand, slot) + NextWaiting(p)
            && p.pending == NextWaiting(p) + promoted.pending
            && promoted.cursor == p.cursor
  {
    var removed := Remove(p, slot);
    PromoteShape(removed);
    var k := if |p.pending| < LIMIT - |removed.hand| then |p.pending| else LIMIT - |removed.hand|;
    assert k == |NextWaiting(p)|;
    assert p.pending[..k] == NextWaiting(p);
    assert p.pending == p.pending[..k] + p.pending[k..];
  }

  lemma RefillShape(p: Player, slot: nat)
    requires Sound(p) && slot < |p.hand|
    ensures Refilled(p, slot, Refill(p, slot))
  {
    var promoted := Promote(Remove(p, slot));
    PromotedShape(p, slot);
    DrawCardShape(promoted);
    RefilledBy(p, slot, promoted, DrawCard(promoted));
  }

  lemma RefilledBy(p: Player, slot: nat, promoted: Player, p': Player)
    requires slot < |p.hand| && Sound(p) && Sound(p') && p'.pending == promoted.pending && promoted.hand <= p'.hand
    requires |promoted.hand| == LIMIT ==> p' == promoted
    requires promoted.hand == Without(p.hand, slot) + NextWaiting(p) && p.pending == NextWaiting(p) + promoted.pending
    requires promoted.cursor == p.cursor
    ensures Refilled(p, slot, p')
  {
  }

  lemma RefilledThenDrawn(p: Player, slot: nat, q: Player, n: nat)
    requires slot < |p.hand| && Refilled(p, slot, q)
    requires p.pending != [] ==> |q.hand| == LIMIT
    ensures Refilled(p, slot, DrawCards(q, n))
  {
    DrawCardsKeepsSound(q, n);
    if p.pending != [] {
      FullDrawsNothing(q, n);
    }
  }

  lemma {:induction false} FullDrawsNothing(p: Player, n: nat)
    requires |p.hand| >= LIMIT
    ensures DrawCards(p, n) == p
    decreases n
  {
    if n > 0 {
      FullDrawsNothing(p, n - 1);
    }
  }

  /**
   * An accepted play takes exactly one card away; then the longest waiting card
   * fills the slot, and the deck is drawn only when none waits.
   */
  lemma PlayShape(catalog: Catalog, p: Player, slot: int, tick: int)
    requires Sound(p) && Refusal(catalog, p, slot, tick).None?
    ensures Refilled(p, slot, Play(catalog, p, slot, tick).1)
  {
    var id := TrimSpace(p.hand[slot]);
    var paid := Pay(catalog, p, id, tick);
    RefillShape(paid, slot);
    var gained := Gain(Refill(paid, slot), catalog[id].energyGain);
    assert Refilled(p, slot, gained);
    RefilledThenDrawn(p, slot, gained, catalog[id].draws);
  }

  /** Counting: what is held afterwards is what was held, less the played card, plus the drawn tail of the hand. */
  lemma PlayCounts(catalog: Catalog, p: Player, slot: int, tick: int)
    requires Sound(p) && Refusal(catalog, p, slot, tick).None?
    ensures var p' := Play(catalog, p, slot, tick).1;
            var kept := |p.hand| - 1 + |NextWaiting(p)|;
            kept <= |p'.hand| && Held(p') == Held(p) - multiset{p.hand[slot]} + multiset(p'.hand[kept..])
  {
    PlayShape(catalog, p, slot, tick);
    RefilledCounts(p, slot, Play(catalog, p, slot, tick).1);
  }

  lemma RefilledCounts(p: Player, slot: nat, p': Player)
    requires slot < |p.hand| && Refilled(p, slot, p')
    ensures var kept := |p.hand| - 1 + |NextWaiting(p)|;
            kept <= |p'.hand| && Held(p') == Held(p) - multiset{p.hand[slot]} + multiset(p'.hand[kept..])
  {
    var rest, promoted := Without(p.hand, slot), NextWaiting(p);
    var kept := |rest| + |promoted|;
    assert p'.hand == rest + promoted + p'.hand[kept..];
    WithoutCounts(p.hand, slot);
  }

  lemma WithoutCounts(hand: seq<string>, slot: nat)
    requires slot < |hand|
    ensures multiset(hand) == multiset(Without(hand, slot)) + multiset{hand[slot]}
  {
    assert hand == hand[..slot] + [hand[slot]] + hand[slot + 1..];
  }

  // ----- every run -----

  datatype Step = Receive(card: string) | Request(slot: int, tick: int)

  /** A player with the granted cards so far and those of them that have entered the hand. */
  datatype Trace = Trace(player: Player, granted: seq<string>, entered: seq<string>)

  function Apply(catalog: Catalog, t: Trace, step: Step): (t': Trace) {
    match step
    case Receive(card) =>
      if card == "" then t
      else Trace(Grant(t.player, card), t.granted + [card],
                 if |t.player.hand| < LIMIT then t.entered + [card] else t.entered)
    case Request(slot, tick) =>
      var (refusal, p') := Play(catalog, t.player, slot, tick);
      Trace(p', t.granted, if refusal.None? then t.entered + NextWaiting(t.player) else t.entered)
  }

  function Run(catalog: Catalog, start: Player, steps: seq<Step>): (t: Trace) {
    if steps == [] then Trace(start, [], [])
    else Apply(catalog, Run(catalog, start, steps[..|steps| - 1]), steps[|steps| - 1])
  }

  lemma StepKeepsOrder(catalog: Catalog, t: Trace, step: Step)
    requires Sound(t.player) && t.granted == t.entered + t.player.pending
    ensures var t' := Apply(catalog, t, step);
            Sound(t'.player) && t'.granted == t'.entered + t'.player.pending
  {
    if step.Request? && Refusal(catalog, t.player, step.slot, step.tick).None? {
      PlayShape(catalog, t.player, step.slot, step.tick);
      var p' := Play(catalog, t.player, step.slot, step.tick).1;
      assert t.player.pending == NextWaiting(t.player) + p'.pending;
      assert t.entered + (NextWaiting(t.player) + p'.pending) == (t.entered + NextWaiting(t.player)) + p'.pending;
    }
  }

  /**
   * Over every run the hand never exceeds four, nothing waits while a slot is
   * free, and the granted cards enter the hand in the order of their grants.
   */
  lemma {:induction false} GrantsEnterInOrder(catalog: Catalog, start: Player, steps: seq<Step>)
    requires Sound(start) && start.pending == []
    ensures var t := Run(catalog, start, steps);
            Sound(t.player) && t.granted == t.entered + t.player.pending
  {
    if steps != [] {
      GrantsEnterInOrder(catalog, start, steps[..|steps| - 1]);
      StepKeepsOrder(catalog, Run(catalog, start, steps[..|steps| - 1]), steps[|steps| - 1]);
    }
  }

  /** The nonblank cards of a list, trimmed, in order. */
  function Nonblank(cards: seq<string>): (r: seq<string>) {
    if cards == [] then []
    else (if TrimSpace(cards[0]) != "" then [TrimSpace(cards[0])] else []) + Nonblank(cards[1..])
  }

  lemma NonblankStep(deck: seq<string>, i: nat, c: nat, hand: seq<string>)
    requires i < c <= |deck|
    ensures var card := TrimSpace(deck[i]);
            hand + Nonblank(deck[i..c]) == (if card != "" then hand + [card] else hand) + Nonblank(deck[i + 1..c])
  {
    assert deck[i..c][1..] == deck[i + 1..c];
  }

  /** The opening hand is the nonblank cards off the top of the deck, until it is full or the deck is through. */
  lemma {:induction false} OpeningShape(deck: seq<string>, hand: seq<string>, cursor: nat)
    requires cursor <= |deck| && |hand| <= LIMIT
    ensures var (h, c) := Opening(deck, hand, cursor);
            && cursor <= c <= |deck| && h == hand + Nonblank(deck[cursor..c])
            && |h| <= LIMIT && (c < |deck| ==> |h| == LIMIT)
    decreases |deck| - cursor
  {
    var (h, c) := Opening(deck, hand, cursor);
    if cursor < |deck| && |hand| < LIMIT {
      var card := TrimSpace(deck[cursor]);
      OpeningShape(deck, if card != "" then hand + [card] else hand, cursor + 1);
      NonblankStep(deck, cursor, c, hand);
    } else {
      assert deck[cursor..c] == [];
    }
  }

  // ----- what a play draws and pays -----

  /** The deck cards that n looks meet, cyclically, the first at position from. */
  function Cycled(deck: seq<string>, from: nat, n: nat): (cards: seq<string>)
    requires n > 0 ==> deck != []
    ensures |cards| == n
    ensures forall k :: 0 <= k < n ==> cards[k] == deck[(from + k) % |deck|]
  {
    seq(n, k requires 0 <= k < n => deck[(from + k) % |deck|])
  }

  lemma {:induction false} NonblankConcat(a: seq<string>, b: seq<string>)
    ensures Nonblank(a + b) == Nonblank(a) + Nonblank(b)
  {
    if a == [] {
      assert a + b == b;
    } else {
      assert (a + b)[1..] == a[1..] + b;
      NonblankConcat(a[1..], b);
    }
  }

  lemma NonblankOne(card: string)
    ensures Nonblank([card]) == if TrimSpace(card) == "" then [] else [TrimSpace(card)]
  {
    assert [card][1..] == [];
  }

  /** A hand after n looks at the deck: each adds the next card of the cycle, unless it is blank. */
  function Looked(deck: seq<string>, from: nat, hand: seq<string>, n: nat): (hand': seq<string>)
    requires n > 0 ==> deck != []
    ensures |hand| <= |hand'|
  {
    hand + Nonblank(Cycled(deck, from, n))
  }

  /** Up to n looks at the deck: looking stops after n looks or at a full hand, and no look meets a full hand. */
  ghost predicate Drew(deck: seq<string>, from: nat, hand: seq<string>, to: nat, hand': seq<string>, n: nat) {
    && from <= to <= from + n && (deck == [] ==> to == from)
    && hand' == Looked(deck, from, hand, to - from)
    && (deck != [] && to < from + n ==> |hand'| >= LIMIT)
    && (to > from ==> |Looked(deck, from, hand, to - from - 1)| < LIMIT)
  }

  lemma LookedNone(deck: seq<string>, from: nat, hand: seq<string>)
    ensures Looked(deck, from, hand, 0) == hand
  {
    assert Cycled(deck, from, 0) == [];
  }

  lemma LookedOne(deck: seq<string>, from: nat, hand: seq<string>)
    requires deck != []
    ensures var card := TrimSpace(deck[from % |deck|]);
            Looked(deck, from, hand, 1) == if card == "" then hand else hand + [card]
  {
    assert Cycled(deck, from, 1) == [deck[from % |deck|]];
    NonblankOne(deck[from % |deck|]);
  }

  lemma LookedChains(deck: seq<string>, from: nat, hand: seq<string>, mid: nat, to: nat)
    requires deck != [] && from <= mid <= to
    ensures Looked(deck, mid, Looked(deck, from, hand, mid - from), to - mid) == Looked(deck, from, hand, to - from)
  {
    var first, second := Cycled(deck, from, mid - from), Cycled(deck, mid, to - mid);
    assert Cycled(deck, from, to - from) == first + second;
    NonblankConcat(first, second);
  }

  lemma DrewOne(p: Player)
    ensures Drew(p.deck, p.cursor, p.hand, DrawCard(p).cursor, DrawCard(p).hand, 1)
  {
    LookedNone(p.deck, p.cursor, p.hand);
    if |p.hand| < LIMIT && p.deck != [] {
      LookedOne(p.deck, p.cursor, p.hand);
    }
  }

  lemma DrewChains(deck: seq<string>, from: nat, hand: seq<string>, mid: nat, hand1: seq<string>, to: nat,
                   hand2: seq<string>, a: nat, b: nat)
    requires Drew(deck, from, hand, mid, hand1, a) && Drew(deck, mid, hand1, to, hand2, b)
    ensures Drew(deck, from, hand, to, hand2, a + b)
  {
    if to == mid {
      LookedNone(deck, mid, hand1);
    } else {
      LookedChains(deck, from, hand, mid, to);
      LookedChains(deck, from, hand, mid, to - 1);
      StillRoom(deck, mid, hand1, to, hand2, b);
    }
  }

  /** Looks that went on found room before the first of them. */
  lemma StillRoom(deck: seq<string>, from: nat, hand: seq<string>, to: nat, hand': seq<string>, n: nat)
    requires Drew(deck, from, hand, to, hand', n) && from < to
    ensures |hand| < LIMIT
  {
    assert |hand| <= |Looked(deck, from, hand, to - from - 1)|;
  }

  lemma {:induction false} DrawsFrame(p: Player, n: nat)
    ensures DrawCards(p, n) == p.(hand := DrawCards(p, n).hand, cursor := DrawCards(p, n).cursor)
    decreases n
  {
    if n > 0 {
      DrawsFrame(DrawCard(p), n - 1);
    }
  }

  lemma DrewFirst(p: Player, to: nat, hand: seq<string>, n: nat)
    requires Drew(p.deck, DrawCard(p).cursor, DrawCard(p).hand, to, hand, n)
    ensures Drew(p.deck, p.cursor, p.hand, to, hand, 1 + n)
  {
    DrewOne(p);
    DrewChains(p.deck, p.cursor, p.hand, DrawCard(p).cursor, DrawCard(p).hand, to, hand, 1, n);
  }

  lemma {:induction false} DrewMany(p: Player, n: nat)
    ensures Drew(p.deck, p.cursor, p.hand, DrawCards(p, n).cursor, DrawCards(p, n).hand, n)
    decreases n
  {
    if n == 0 {
      LookedNone(p.deck, p.cursor, p.hand);
    } else {
      var p' := DrawCards(DrawCard(p), n - 1);
      DrewMany(DrawCard(p), n - 1);
      DrewFirst(p, p'.cursor, p'.hand, n - 1);
    }
  }

  /** When a card request is accepted: a known card in the slot, off cooldown, and payable. */
  ghost predicate Playable(catalog: Catalog, p: Player, slot: int, tick: int) {
    && 0 <= slot < LIMIT && slot < |p.hand|
    && var id := TrimSpace(p.hand[slot]);
       && id in catalog && catalog[id].cost <= p.energy + 0.0001
       && (if id in p.cooldowns then p.cooldowns[id] <= tick else 0 <= tick)
  }

  /** The hand a play leaves before its draws, and the looks its draws may take. */
  function Rest(p: Player, slot: nat): (hand: seq<string>)
    requires slot < |p.hand|
  {
    p.hand[..slot] + p.hand[slot + 1..] + if p.pending == [] then [] else [p.pending[0]]
  }

  lemma DrewThrough(p: Player, gain: real, n: nat)
    ensures var p' := DrawCards(Gain(DrawCard(p), gain), n);
            Drew(p.deck, p.cursor, p.hand, p'.cursor, p'.hand, 1 + n) && p'.deck == p.deck
  {
    var gained := Gain(DrawCard(p), gain);
    var p' := DrawCards(gained, n);
    DrawsFrame(gained, n);
    DrewMany(gained, n);
    DrewFirst(p, p'.cursor, p'.hand, n);
  }

  /** The player after the payment and the promotion, and after the first draw. */
  lemma PlaySteps(catalog: Catalog, p: Player, slot: int, tick: int)
    requires Sound(p) && Playable(catalog, p, slot, tick)
    ensures var id := TrimSpace(p.hand[slot]);
            var promoted := Promote(Remove(Pay(catalog, p, id, tick), slot));
            && Play(catalog, p, slot, tick) ==
                 (None, DrawCards(Gain(DrawCard(promoted), catalog[id].energyGain), catalog[id].draws))
            && promoted.hand == Rest(p, slot) && promoted.cursor == p.cursor && promoted.deck == p.deck
  {
    var id := TrimSpace(p.hand[slot]);
    var paid := Pay(catalog, p, id, tick);
    PromotedShape(paid, slot);
    PromoteShape(Remove(paid, slot));
  }

  /**
   * An accepted play, on the contents of the hand: the other cards stay in order, the longest
   * waiting card follows, and then exactly the nonblank deck cards met by one look for the play and
   * one for each draw of the card, as long as the hand has room.
   */
  lemma PlayDraws(catalog: Catalog, p: Player, slot: int, tick: int)
    requires Sound(p) && Playable(catalog, p, slot, tick)
    ensures var (refusal, p') := Play(catalog, p, slot, tick);
            && refusal.None? && p'.deck == p.deck
            && Drew(p.deck, p.cursor, Rest(p, slot), p'.cursor, p'.hand, 1 + catalog[TrimSpace(p.hand[slot])].draws)
  {
    var id := TrimSpace(p.hand[slot]);
    PlaySteps(catalog, p, slot, tick);
    DrewThrough(Promote(Remove(Pay(catalog, p, id, tick), slot)), catalog[id].energyGain, catalog[id].draws);
  }

  /** With nothing waiting, the deck card at the cursor enters the hand, whenever it is not blank. */
  lemma PlayDrawsNext(catalog: Catalog, p: Player, slot: int, tick: int)
    requires Sound(p) && Playable(catalog, p, slot, tick) && p.pending == [] && p.deck != []
    requires TrimSpace(p.deck[p.cursor % |p.deck|]) != ""
    ensures var p' := Play(catalog, p, slot, tick).1;
            |p'.hand| >= |p.hand| && p'.hand[|p.hand| - 1] == TrimSpace(p.deck[p.cursor % |p.deck|])
  {
    var p' := Play(catalog, p, slot, tick).1;
    PlayDraws(catalog, p, slot, tick);
    LookedNone(p.deck, p.cursor, Rest(p, slot));
    LookedOne(p.deck, p.cursor, Rest(p, slot));
    LookedChains(p.deck, p.cursor, Rest(p, slot), p.cursor + 1, p'.cursor);
  }

  /** A request is accepted exactly if it is playable, and a refused one changes nothing. */
  lemma PlayedIff(catalog: Catalog, p: Player, slot: int, tick: int)
    ensures Play(catalog, p, slot, tick).0.None? <==> Playable(catalog, p, slot, tick)
    ensures !Playable(catalog, p, slot, tick) ==> Play(catalog, p, slot, tick).1 == p
  {
  }

  /** What an accepted play pays: its cost, never below zero, then its gain, never above ten, and its cooldown. */
  lemma PlayPays(catalog: Catalog, p: Player, slot: int, tick: int)
    requires Sound(p) && Playable(catalog, p, slot, tick)
    ensures var p' := Play(catalog, p, slot, tick).1;
            var id := TrimSpace(p.hand[slot]);
            var left := if catalog[id].cost <= p.energy then p.energy - catalog[id].cost else 0.0;
            var topped := if left + catalog[id].energyGain <= 10.0 then left + catalog[id].energyGain else 10.0;
            && p'.energy == (if catalog[id].energyGain <= 0.0 then left else topped)
            && p'.cooldowns == p.cooldowns[id := tick + catalog[id].cooldown]
  {
    var id := TrimSpace(p.hand[slot]);
    var paid := Pay(catalog, p, id, tick);
    PlaySteps(catalog, p, slot, tick);
    PromoteShape(Remove(paid, slot));
    DrawsPayNothing(Promote(Remove(paid, slot)), catalog[id].energyGain, catalog[id].draws);
    PaidEnergy(p.energy, catalog[id].cost, catalog[id].energyGain);
  }

  lemma DrawsPayNothing(p: Player, gain: real, n: nat)
    ensures var p' := DrawCards(Gain(DrawCard(p), gain), n);
            p'.energy == Gain(p, gain).energy && p'.cooldowns == p.cooldowns
  {
    DrawsFrame(Gain(DrawCard(p), gain), n);
  }

  lemma PaidEnergy(energy: real, cost: real, gain: real)
    ensures Max(0.0, energy - cost) == if cost <= energy then energy - cost else 0.0
    ensures var left := Max(0.0, energy - cost);
            Min(MAX_ENERGY, left + gain) == if left + gain <= 10.0 then left + gain else 10.0
  {
  }

  /** Costs and cooldowns as the shipped catalog has them. */
  ghost predicate Sane(catalog: Catalog) {
    forall id :: id in catalog ==> catalog[id].cost >= 0.0 && catalog[id].cooldown >= 0
  }

  /** Over every run the energy stays between zero and ten. */
  lemma {:induction false} EnergyStays(catalog: Catalog, start: Player, steps: seq<Step>)
    requires Sane(catalog) && Sound(start) && start.pending == [] && 0.0 <= start.energy <= 10.0
    ensures 0.0 <= Run(catalog, start, steps).player.energy <= 10.0
  {
    if steps != [] {
      var front, last := steps[..|steps| - 1], steps[|steps| - 1];
      var t := Run(catalog, start, front);
      EnergyStays(catalog, start, front);
      GrantsEnterInOrder(catalog, start, front);
      if last.Request? {
        PlayedIff(catalog, t.player, last.slot, last.tick);
        if Playable(catalog, t.player, last.slot, last.tick) {
          PlayPays(catalog, t.player, last.slot, last.tick);
        }
      }
    }
  }

  /** The card request i of a run plays, if it is accepted. */
  predicate Plays(catalog: Catalog, start: Player, steps: seq<Step>, i: nat, card: string)
    requires i < |steps|
  {
    var p := Run(catalog, start, steps[..i]).player;
    steps[i].Request? && Play(catalog, p, steps[i].slot, steps[i].tick).0.None?
    && 0 <= steps[i].slot < |p.hand| && TrimSpace(p.hand[steps[i].slot]) == card
  }

  /** One request leaves no cooldown behind an earlier end of it. */
  lemma RequestKeepsCooldown(catalog: Catalog, p: Player, slot: int, tick: int, card: string, end: int)
    requires Sane(catalog) && Sound(p) && card in p.cooldowns && p.cooldowns[card] >= end
    ensures var cooldowns := Play(catalog, p, slot, tick).1.cooldowns; card in cooldowns && cooldowns[card] >= end
  {
    PlayedIff(catalog, p, slot, tick);
    if Playable(catalog, p, slot, tick) {
      PlayPays(catalog, p, slot, tick);
    }
  }

  lemma {:induction false} CooldownStays(catalog: Catalog, start: Player, steps: seq<Step>, i: nat, card: string)
    requires Sane(catalog) && Sound(start) && start.pending == []
    requires i < |steps| && Plays(catalog, start, steps, i, card)
    ensures var cooldowns := Run(catalog, start, steps).player.cooldowns;
            card in catalog && card in cooldowns && cooldowns[card] >= steps[i].tick + catalog[card].cooldown
    decreases |steps|
  {
    var front, last := steps[..|steps| - 1], steps[|steps| - 1];
    var p := Run(catalog, start, front).player;
    GrantsEnterInOrder(catalog, start, front);
    if i < |front| {
      assert front[..i] == steps[..i] && front[i] == steps[i];
      CooldownStays(catalog, start, front, i, card);
      if last.Request? {
        RequestKeepsCooldown(catalog, p, last.slot, last.tick, card, steps[i].tick + catalog[card].cooldown);
      }
    } else {
      PlayedIff(catalog, p, last.slot, last.tick);
      PlayPays(catalog, p, last.slot, last.tick);
    }
  }

  /** Over every run two plays of one card are at least its cooldown apart. */
  lemma CooldownHolds(catalog: Catalog, start: Player, steps: seq<Step>, i: nat, j: nat, card: string)
    requires Sane(catalog) && Sound(start) && start.pending == []
    requires i < j < |steps| && Plays(catalog, start, steps, i, card) && Plays(catalog, start, steps, j, card)
    ensures card in catalog && steps[j].tick >= steps[i].tick + catalog[card].cooldown
  {
    assert steps[..j][..i] == steps[..i];
    CooldownStays(catalog, start, steps[..j], i, card);
    PlayedIff(catalog, Run(catalog, start, steps[..j]).player, steps[j].slot, steps[j].tick);
  }

  // ----- the player object -----

  class PlayerState {
    var hand: seq<string>
    var pending: seq<string>
    const deck: seq<string>
    var cursor: nat
    var energy: real
    var cooldowns: map<string, int>

    /** A player as a match creates it: the opening hand comes off the top of the deck. */
    constructor (deck: seq<string>, energy: real)
      ensures this.deck == deck
      ensures (hand, cursor) == Opening(deck, [], 0)
      ensures pending == [] && this.energy == energy && cooldowns == map[] && Sound(View())
    {
      var opening: seq<string> := [];
      var drawCursor := 0;
      while drawCursor < |deck| && |opening| < LIMIT
        invariant drawCursor <= |deck| && |opening| <= LIMIT
        invariant Opening(deck, opening, drawCursor) == Opening(deck, [], 0)
      {
        var card := TrimSpace(deck[drawCursor]);
        drawCursor := drawCursor + 1;
        if card != "" {
          opening := opening + [card];
        }
      }
      this.deck := deck;
      hand, pending, cursor := opening, [], drawCursor;
      this.energy, cooldowns := energy, map[];
    }

    function View(): (p: Player)
      reads this
    {
      Player(hand, pending, deck, cursor, energy, cooldowns)
    }

    /** It reports whether the card landed in the hand at once. */
    method GrantCard(card: string) returns (inHand: bool)
      modifies this
      ensures View() == Grant(old(View()), card)
      ensures inHand <==> card != "" && |old(hand)| < LIMIT
    {
      if card == "" {
        return false;
      }
      if |hand| < LIMIT {
        hand := hand + [card];
        return true;
      }
      pending := pending + [card];
      inHand := false;
    }

    method PromotePending()
      modifies this
      ensures View() == Promote(old(View()))
    {
      while pending != [] && |hand| < LIMIT
        invariant Promote(View()) == Promote(old(View()))
        decreases |pending|
      {
        var card := pending[0];
        pending := pending[1..];
        hand := hand + [card];
      }
    }

    method Draw()
      modifies this
      ensures View() == DrawCard(old(View()))
    {
      if |hand| >= LIMIT || deck == [] {
        return;
      }
      var card := TrimSpace(deck[cursor % |deck|]);
      cursor := cursor + 1;
      if card != "" {
        hand := hand + [card];
      }
    }

    method PlayCard(catalog: Catalog, slot: int, tick: int) returns (refusal: Option<PlayError>)
      modifies this
      ensures (refusal, View()) == Play(catalog, old(View()), slot, tick)
    {
      refusal := Refusal(catalog, View(), slot, tick);
      if refusal.Some? {
        return;
      }
      var id := TrimSpace(hand[slot]);
      var card := catalog[id];
      energy := Max(0.0, energy - card.cost);
      cooldowns := cooldowns[id := tick + card.cooldown];
      assert View() == Pay(catalog, old(View()), id, tick);
      EmptySlot(slot);
      ghost var played := View();
      if card.energyGain > 0.0 {
        energy := Min(MAX_ENERGY, energy + card.energyGain);
      }
      assert View() == Gain(played, card.energyGain);
      DrawMany(card.draws);
    }

    method EmptySlot(slot: nat)
      requires slot < |hand|
      modifies this
      ensures View() == Refill(old(View()), slot)
    {
      hand := hand[..slot] + hand[slot + 1..];
      PromotePending();
      Draw();
    }

    method DrawMany(n: nat)
      modifies this
      ensures View() == DrawCards(old(View()), n)
    {
      for i := 0 to n
        invariant DrawCards(View(), n - i) == DrawCards(old(View()), n)
      {
        Draw();
      }
    }
  }
}
