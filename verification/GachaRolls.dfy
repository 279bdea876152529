/** Weighted rarity rolls, the ten-pull guarantee and soft pity of the gacha pools. */
module GachaRolls {

  datatype Rarity = Common | Uncommon | Rare | Epic | Legendary

  /** rarityRank; also the position in the roll order. */
  function Rank(r: Rarity): (n: nat)
    ensures n < 5
  {
    match r
    case Common => 0
    case Uncommon => 1
    case Rare => 2
    case Epic => 3
    case Legendary => 4
  }

  function AtRank(k: nat): (r: Rarity)
    requires k < 5
    ensures Rank(r) == k
  {
    match k
    case 0 => Common
    case 1 => Uncommon
    case 2 => Rare
    case 3 => Epic
    case 4 => Legendary
  }

  datatype Weights = Weights(common: int, uncommon: int, rare: int, epic: int, legendary: int) {
    function Of(r: Rarity): (w: int) {
      match r
      case Common => common
      case Uncommon => uncommon
      case Rare => rare
      case Epic => epic
      case Legendary => legendary
    }
  }

  function Positive(n: int): (r: nat) { if n > 0 then n else 0 }

  /** The weight of the tiers ranked below k. */
  function Below(w: Weights, k: nat): (n: nat)
    requires k <= 5
  {
    if k == 0 then 0 else Below(w, k - 1) + Positive(w.Of(AtRank(k - 1)))
  }

  /** The draw of the seeded generator: some number in [0, 1). */
  type Unit = u: real | 0.0 <= u < 1.0 witness 0.0

  // ----- rolling -----

  /** The point a draw hits on the scale of all weights. */
  function Point(w: Weights, u: Unit): (p: nat)
    ensures Below(w, 5) > 0 ==> p < Below(w, 5)
    ensures p as real <= u * Below(w, 5) as real < (p + 1) as real
  {
    PointInRange(u, Below(w, 5));
    (u * Below(w, 5) as real).Floor
  }

  lemma PointInRange(u: Unit, total: nat)
    ensures 0 <= (u * total as real).Floor
    ensures total > 0 ==> (u * total as real).Floor < total
  {
    if total > 0 {
      assert u * total as real < total as real;
    }
    assert u * total as real >= 0.0;
  }

  /** The tier whose band of the scale holds the point; Common without any weight. */
  function TierFrom(w: Weights, point: nat, k: nat): (r: Rarity)
    requires k <= 5
    decreases 5 - k
  {
    if k == 5 then Common
    else if point < Below(w, k + 1) && w.Of(AtRank(k)) > 0 then AtRank(k)
    else TierFrom(w, point, k + 1)
  }

  function Roll(w: Weights, u: Unit): (r: Rarity) {
    if Below(w, 5) == 0 then Common else TierFrom(w, Point(w, u), 0)
  }

  lemma {:induction false} TierFromBand(w: Weights, point: nat, k: nat)
    requires k <= 5 && Below(w, k) <= point < Below(w, 5)
    ensures var r := TierFrom(w, point, k);
            w.Of(r) > 0 && Below(w, Rank(r)) <= point < Below(w, Rank(r) + 1)
    decreases 5 - k
  {
    if !(point < Below(w, k + 1) && w.Of(AtRank(k)) > 0) {
      TierFromBand(w, point, k + 1);
    }
  }

  /** A roll lands in a tier of positive weight, in proportion: the tier's own band holds the point. */
  lemma RollBand(w: Weights, u: Unit)
    requires Below(w, 5) > 0
    ensures var r := Roll(w, u);
            w.Of(r) > 0 && Below(w, Rank(r)) <= Point(w, u) < Below(w, Rank(r) + 1)
  {
    TierFromBand(w, Point(w, u), 0);
  }

  /** The bands lie one after another from zero, each as wide as the weight of its tier. */
  lemma BandWidths(w: Weights)
    ensures var (c, u, r, e, l) := (Positive(w.common), Positive(w.uncommon), Positive(w.rare), Positive(w.epic),
                                    Positive(w.legendary));
            && Below(w, 0) == 0 && Below(w, 1) == c && Below(w, 2) == c + u && Below(w, 3) == c + u + r
            && Below(w, 4) == c + u + r + e && Below(w, 5) == c + u + r + e + l
            && Rank(Common) == 0 && Rank(Uncommon) == 1 && Rank(Rare) == 2 && Rank(Epic) == 3 && Rank(Legendary) == 4
  {
    assert Below(w, 2) == Below(w, 1) + Positive(w.uncommon);
    assert Below(w, 3) == Below(w, 2) + Positive(w.rare);
    assert Below(w, 4) == Below(w, 3) + Positive(w.epic);
  }

  method TotalWeight(w: Weights) returns (total: nat)
    ensures total == Below(w, 5)
  {
    total := 0;
    for k := 0 to 5
      invariant total == Below(w, k)
    {
      total := total + Positive(w.Of(AtRank(k)));
    }
  }

  /** The running cursor over the tiers. */
  method TierAt(w: Weights, point: nat) returns (r: Rarity)
    ensures r == TierFrom(w, point, 0)
  {
    var cursor := 0;
    for k := 0 to 5
      invariant cursor == Below(w, k)
      invariant TierFrom(w, point, 0) == TierFrom(w, point, k)
    {
      var value := w.Of(AtRank(k));
      if value > 0 {
        cursor := cursor + value;
        if point < cursor {
          return AtRank(k);
        }
      }
    }
    r := Common;
  }

  /** rollGachaRarity. */
  method RollRarity(w: Weights, u: Unit) returns (r: Rarity)
    ensures r == Roll(w, u)
  {
    var total := TotalWeight(w);
    if total <= 0 {
      return Common;
    }
    r := TierAt(w, Point(w, u));
  }

  const ATTEMPTS: nat := 200

  function GuaranteedFrom(w: Weights, draws: nat -> Unit, attempt: nat): (r: Rarity)
    requires attempt <= ATTEMPTS
    ensures Rank(r) >= Rank(Rare)
    decreases ATTEMPTS - attempt
  {
    if attempt == ATTEMPTS then Rare
    else if Rank(Roll(w, draws(attempt))) >= Rank(Rare) then Roll(w, draws(attempt))
    else GuaranteedFrom(w, draws, attempt + 1)
  }

  /** gachaGuaranteedRarity. */
  method Guaranteed(w: Weights, draws: nat -> Unit) returns (r: Rarity)
    ensures r == GuaranteedFrom(w, draws, 0)
    ensures Rank(r) >= Rank(Rare)
  {
    for attempt := 0 to ATTEMPTS
      invariant GuaranteedFrom(w, draws, attempt) == GuaranteedFrom(w, draws, 0)
    {
      r := RollRarity(w, draws(attempt));
      if Rank(r) >= Rank(Rare) {
        return r;
      }
    }
    r := Rare;
  }

  /** Roll k is the first from the given attempt on that is rare or better, or no roll is. */
  ghost predicate FirstRare(w: Weights, draws: nat -> Unit, attempt: nat, k: nat, r: Rarity) {
    && attempt <= k <= ATTEMPTS && (forall j :: attempt <= j < k ==> Rank(Roll(w, draws(j))) < Rank(Rare))
    && if k == ATTEMPTS then r == Rare else r == Roll(w, draws(k)) && Rank(r) >= Rank(Rare)
  }

  /** The guarantee is the first of 200 rolls that is rare or better, and rare itself if none is. */
  lemma {:induction false} GuaranteedIsFirst(w: Weights, draws: nat -> Unit, attempt: nat)
    requires attempt <= ATTEMPTS
    ensures exists k: nat :: FirstRare(w, draws, attempt, k, GuaranteedFrom(w, draws, attempt))
    decreases ATTEMPTS - attempt
  {
    var r := GuaranteedFrom(w, draws, attempt);
    if attempt < ATTEMPTS && Rank(Roll(w, draws(attempt))) < Rank(Rare) {
      GuaranteedIsFirst(w, draws, attempt + 1);
      var k: nat :| FirstRare(w, draws, attempt + 1, k, r);
      assert FirstRare(w, draws, attempt, k, r);
    } else {
      assert FirstRare(w, draws, attempt, attempt, r);
    }
  }

  // ----- pity -----

  datatype Rules = Rules(rareEvery: int, epicEvery: int)
  datatype Pity = Pity(rare: nat, epic: nat)

  /** applyGachaPity; applyChestPity is the same function. */
  function ApplyPity(rules: Rules, state: Pity, rolled: Rarity): (r: (Rarity, Pity)) {
    var rare, epic := state.rare + 1, state.epic + 1;
    var lifted := if rules.epicEvery > 0 && epic >= rules.epicEvery && Rank(rolled) < Rank(Epic) then Epic else rolled;
    var result := if rules.rareEvery > 0 && rare >= rules.rareEvery && Rank(lifted) < Rank(Rare) then Rare else lifted;
    (result, Pity(if Rank(result) >= Rank(Rare) then 0 else rare, if Rank(result) >= Rank(Epic) then 0 else epic))
  }

  /** How many draws at the end of a history rank below the given rank. */
  function Trailing(h: seq<Rarity>, rank: nat): (n: nat) {
    if h == [] || Rank(h[|h| - 1]) >= rank then 0 else 1 + Trailing(h[..|h| - 1], rank)
  }

  /** No prefix of the history ends in as many misses as the pity rule allows draws. */
  ghost predicate NeverStarved(h: seq<Rarity>, rank: nat, every: int) {
    every > 0 ==> forall k :: 0 <= k <= |h| ==> Trailing(h[..k], rank) < every
  }

  /** The counters are the lengths of the current dry spells. */
  ghost predicate PityTracks(rules: Rules, h: seq<Rarity>, state: Pity) {
    && state == Pity(Trailing(h, Rank(Rare)), Trailing(h, Rank(Epic)))
    && NeverStarved(h, Rank(Rare), rules.rareEvery)
    && NeverStarved(h, Rank(Epic), rules.epicEvery)
  }

  lemma TrailingAppend(h: seq<Rarity>, r: Rarity, rank: nat)
    ensures Trailing(h + [r], rank) == if Rank(r) >= rank then 0 else Trailing(h, rank) + 1
  {
    assert (h + [r])[..|h|] == h;
  }

  lemma NeverStarvedAppend(h: seq<Rarity>, r: Rarity, rank: nat, every: int)
    requires NeverStarved(h, rank, every)
    requires every > 0 && Trailing(h, rank) + 1 >= every ==> Rank(r) >= rank
    ensures NeverStarved(h + [r], rank, every)
  {
    TrailingAppend(h, r, rank);
    if every > 0 {
      forall k | 0 <= k <= |h| + 1
        ensures Trailing((h + [r])[..k], rank) < every
      {
        if k <= |h| {
          assert (h + [r])[..k] == h[..k];
        } else {
          assert (h + [r])[..k] == h + [r];
          assert h[..|h|] == h;
        }
      }
    }
  }

  /** One draw: pity never lowers the roll, and the counters keep tracking. */
  lemma PityStep(rules: Rules, h: seq<Rarity>, state: Pity, rolled: Rarity)
    requires PityTracks(rules, h, state)
    ensures var (result, state') := ApplyPity(rules, state, rolled);
            Rank(result) >= Rank(rolled) && PityTracks(rules, h + [result], state')
  {
    var result := ApplyPity(rules, state, rolled).0;
    TrailingAppend(h, result, Rank(Rare));
    TrailingAppend(h, result, Rank(Epic));
    NeverStarvedAppend(h, result, Rank(Rare), rules.rareEvery);
    NeverStarvedAppend(h, result, Rank(Epic), rules.epicEvery);
  }

  /** Pity lifts a roll only when its rule is due after the current dry spell: to epic first, else to rare. */
  lemma PityOnlyWhenDue(rules: Rules, h: seq<Rarity>, state: Pity, rolled: Rarity)
    requires PityTracks(rules, h, state)
    ensures var due := (rank: nat, every: int) => every > 0 && Trailing(h, rank) + 1 >= every;
            ApplyPity(rules, state, rolled).0 ==
              if due(Rank(Epic), rules.epicEvery) && Rank(rolled) < Rank(Epic) then Epic
              else if due(Rank(Rare), rules.rareEvery) && Rank(rolled) < Rank(Rare) then Rare
              else rolled
  {
  }

  lemma {:induction false} DryTrailing(h: seq<Rarity>, rank: nat, i: nat, k: nat)
    requires i + k <= |h|
    requires forall j :: i <= j < i + k ==> Rank(h[j]) < rank
    ensures Trailing(h[..i + k], rank) >= k
  {
    if k > 0 {
      DryTrailing(h, rank, i, k - 1);
      assert h[..i + k][..i + k - 1] == h[..i + k - 1];
    }
  }

  /** Any window as long as the pity rule contains a draw of the promised tier or better. */
  lemma WindowHasTier(h: seq<Rarity>, rank: nat, every: nat, i: nat)
    requires NeverStarved(h, rank, every) && every > 0 && i + every <= |h|
    ensures exists j :: i <= j < i + every && Rank(h[j]) >= rank
  {
    if forall j :: i <= j < i + every ==> Rank(h[j]) < rank {
      DryTrailing(h, rank, i, every);
    }
  }
}
