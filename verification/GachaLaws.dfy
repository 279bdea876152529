/** What an opening rolls, picks and unlocks, slot by slot. */
module GachaLaws {
  import opened Text
  import opened GachaRolls
  import opened Gacha

  /** A slot is a plain roll, but for the last of ten, which is drawn again until rare or better. */
  lemma SlotRolls(pool: Pool, count: nat, d: Draws, index: nat)
    ensures var plain := Roll(pool.weights, d.roll(index));
            RolledAt(pool, count, d, index) ==
              if count == 10 && index == 9 && Rank(plain) < Rank(Rare)
              then GuaranteedFrom(pool.weights, d.again(index), 0) else plain
  {
  }

  /** The shots of a tier are listed in table order. */
  lemma {:induction false} TierInOrder(table: seq<Entry>, last: Entry, r: Rarity)
    ensures OfRarity(table + [last], r) == OfRarity(table, r) + if last.rarity == r then [last] else []
  {
    if table == [] {
      assert (table + [last])[1..] == [];
    } else {
      assert (table + [last])[1..] == table[1..] + [last];
      TierInOrder(table[1..], last, r);
      var head := if table[0].rarity == r then [table[0]] else [];
      var tail := if last.rarity == r then [last] else [];
      assert head + (OfRarity(table[1..], r) + tail) == (head + OfRarity(table[1..], r)) + tail;
    }
  }

  /** The pick is the shot whose equal share of the scale holds the draw. */
  lemma PickShare(table: seq<Entry>, r: Rarity, u: Unit)
    requires OfRarity(table, r) != []
    ensures PickShot(table, r, u) == Some(OfRarity(table, r)[Choose(u, |OfRarity(table, r)|)])
  {
  }

  /** The shares are equal: the scale of n shots is cut at every whole number. */
  lemma EqualShares(u: Unit, n: nat, k: nat)
    requires k < n
    ensures Choose(u, n) == k <==> k as real <= u * n as real < (k + 1) as real
  {
    var point := u * n as real;
    assert Choose(u, n) as real <= point < (Choose(u, n) + 1) as real;
  }

  // ----- the roster after an opening -----

  /** How often a shot was drawn. */
  function Times(results: seq<Drawn>, id: string): (n: nat) {
    if results == [] then 0
    else Times(results[..|results| - 1], id) + if results[|results| - 1].shotID == id then 1 else 0
  }

  lemma TimesOneMore(results: seq<Drawn>, last: Drawn, id: string)
    ensures Times(results + [last], id) == Times(results, id) + if last.shotID == id then 1 else 0
  {
    assert (results + [last])[..|results|] == results;
  }

  /** Every drawn shot is owned: a known one with a dupe for each time, a new one with a dupe for each further time. */
  ghost predicate Unlocks(before: map<string, Ownership>, results: seq<Drawn>, after: map<string, Ownership>) {
    && (forall id :: id in after <==> id in before || Times(results, id) > 0)
    && (forall id :: id in before ==> after[id] == before[id].(dupes := before[id].dupes + Times(results, id)))
    && (forall id :: id in after && id !in before ==> after[id] == Ownership(Pulled, Times(results, id) - 1))
  }

  /** The faith shown beside a slot: none for a new shot. */
  function Worth(r: Drawn): (faith: nat) {
    if r.isNew then 0
    else if r.rarity == Epic then 80
    else if r.rarity == Rare then 40
    else if r.rarity == Uncommon then 20
    else 10
  }

  /** A slot shows a shot of its tier, new exactly if it was neither owned nor drawn before, and its worth if not. */
  ghost predicate Shows(table: seq<Entry>, before: map<string, Ownership>, results: seq<Drawn>, k: nat)
    requires k < |results|
  {
    var r := results[k];
    && (exists e :: e in table && e.shotID == r.shotID && e.rarity == r.rarity)
    && (r.isNew <==> r.shotID !in before && Times(results[..k], r.shotID) == 0)
    && r.faithGained == Worth(r)
  }

  ghost predicate AllShown(table: seq<Entry>, before: map<string, Ownership>, results: seq<Drawn>) {
    forall k :: 0 <= k < |results| ==> Shows(table, before, results, k)
  }

  /** One slot of the character pool. */
  lemma SlotUnlocks(c: Catalog, u: User, pool: Pool, count: nat, d: Draws, index: nat)
    requires pool.kind == Characters && PullOne(c, u, pool, count, d, index).Some?
    ensures var (u', drawn) := PullOne(c, u, pool, count, d, index).value;
            && (exists e :: e in c.table && e.shotID == drawn.shotID && e.rarity == drawn.rarity)
            && (drawn.isNew <==> drawn.shotID !in u.characters)
            && drawn.faithGained == Worth(drawn)
            && u'.characters == u.characters[drawn.shotID :=
                 if drawn.isNew then Ownership(Pulled, 0)
                 else u.characters[drawn.shotID].(dupes := u.characters[drawn.shotID].dupes + 1)]
  {
  }

  lemma UnlocksOneMore(before: map<string, Ownership>, results: seq<Drawn>, mid: map<string, Ownership>, last: Drawn)
    requires Unlocks(before, results, mid)
    ensures var after := mid[last.shotID := if last.shotID !in mid then Ownership(Pulled, 0)
                                            else mid[last.shotID].(dupes := mid[last.shotID].dupes + 1)];
            Unlocks(before, results + [last], after)
  {
    var all := results + [last];
    var after := mid[last.shotID := if last.shotID !in mid then Ownership(Pulled, 0)
                                    else mid[last.shotID].(dupes := mid[last.shotID].dupes + 1)];
    forall id
      ensures Times(all, id) == Times(results, id) + if last.shotID == id then 1 else 0
      ensures id in after <==> id in before || Times(all, id) > 0
    {
      TimesOneMore(results, last, id);
    }
    forall id | id in before
      ensures after[id] == before[id].(dupes := before[id].dupes + Times(all, id))
    {
      assert mid[id] == before[id].(dupes := before[id].dupes + Times(results, id));
    }
    forall id | id in after && id !in before
      ensures after[id] == Ownership(Pulled, Times(all, id) - 1)
    {
      assert id in mid ==> mid[id] == Ownership(Pulled, Times(results, id) - 1);
    }
  }

  /** An opening's last slot. */
  lemma LastSlot(c: Catalog, u: User, pool: Pool, count: nat, d: Draws, n: nat)
    returns (mid: User, front: seq<Drawn>, after: User, last: Drawn)
    requires n > 0 && PullMany(c, u, pool, count, d, n).Some?
    ensures PullMany(c, u, pool, count, d, n - 1) == Some((mid, front))
    ensures PullOne(c, mid, pool, count, d, n - 1) == Some((after, last))
    ensures PullMany(c, u, pool, count, d, n) == Some((after, front + [last]))
  {
    PullManyStep(c, u, pool, count, d, n);
    var before := PullMany(c, u, pool, count, d, n - 1).value;
    mid, front := before.0, before.1;
    var slot := PullOne(c, mid, pool, count, d, n - 1).value;
    after, last := slot.0, slot.1;
  }

  /** One slot more unlocks one shot more. */
  lemma SlotUnlocksOneMore(c: Catalog, before: map<string, Ownership>, front: seq<Drawn>, mid: User, pool: Pool,
                           count: nat, d: Draws, index: nat, after: User, last: Drawn)
    requires pool.kind == Characters && PullOne(c, mid, pool, count, d, index) == Some((after, last))
    requires Unlocks(before, front, mid.characters)
    ensures Unlocks(before, front + [last], after.characters)
  {
    SlotUnlocks(c, mid, pool, count, d, index);
    UnlocksOneMore(before, front, mid.characters, last);
  }

  /** One slot more shows one shot more. */
  lemma SlotShowsOneMore(c: Catalog, before: map<string, Ownership>, front: seq<Drawn>, mid: User, pool: Pool,
                         count: nat, d: Draws, index: nat, after: User, last: Drawn)
    requires pool.kind == Characters && PullOne(c, mid, pool, count, d, index) == Some((after, last))
    requires Unlocks(before, front, mid.characters) && AllShown(c.table, before, front)
    ensures AllShown(c.table, before, front + [last])
  {
    SlotUnlocks(c, mid, pool, count, d, index);
    ShowsOneMore(c.table, before, front, mid.characters, last);
  }

  /** The roster of the user, and what the slots show. */
  ghost predicate Gains(table: seq<Entry>, before: map<string, Ownership>, r: (User, seq<Drawn>)) {
    Unlocks(before, r.1, r.0.characters) && AllShown(table, before, r.1)
  }

  lemma NoneGain(table: seq<Entry>, u: User)
    ensures Gains(table, u.characters, (u, []))
  {
  }

  lemma SlotGains(c: Catalog, before: map<string, Ownership>, mid: (User, seq<Drawn>), pool: Pool, count: nat, d: Draws,
                  index: nat, slot: (User, Drawn))
    requires pool.kind == Characters && PullOne(c, mid.0, pool, count, d, index) == Some(slot)
    requires Gains(c.table, before, mid)
    ensures Gains(c.table, before, (slot.0, mid.1 + [slot.1]))
  {
    SlotUnlocksOneMore(c, before, mid.1, mid.0, pool, count, d, index, slot.0, slot.1);
    SlotShowsOneMore(c, before, mid.1, mid.0, pool, count, d, index, slot.0, slot.1);
  }

  /** The first n slots of an opening of the character pool. */
  lemma {:induction false} SlotsGain(c: Catalog, u: User, pool: Pool, count: nat, d: Draws, n: nat)
    requires pool.kind == Characters && PullMany(c, u, pool, count, d, n).Some?
    ensures Gains(c.table, u.characters, PullMany(c, u, pool, count, d, n).value)
  {
    if n == 0 {
      NoneGain(c.table, u);
    } else {
      var mid, front, after, last := LastSlot(c, u, pool, count, d, n);
      assert Gains(c.table, u.characters, (after, front + [last])) by {
        SlotsGain(c, u, pool, count, d, n - 1);
        SlotGains(c, u.characters, (mid, front), pool, count, d, n - 1, (after, last));
      }
      assert PullMany(c, u, pool, count, d, n).value == (after, front + [last]);
    }
  }

  lemma ShowsOneMore(table: seq<Entry>, before: map<string, Ownership>, front: seq<Drawn>, mid: map<string, Ownership>,
                     last: Drawn)
    requires Unlocks(before, front, mid) && AllShown(table, before, front)
    requires exists e :: e in table && e.shotID == last.shotID && e.rarity == last.rarity
    requires last.isNew <==> last.shotID !in mid
    requires last.faithGained == Worth(last)
    ensures AllShown(table, before, front + [last])
  {
    var all := front + [last];
    forall k | 0 <= k <= |front|
      ensures Shows(table, before, all, k)
    {
      assert all[..k] == front[..k];
      if k < |front| {
        assert Shows(table, before, front, k) && all[k] == front[k];
      } else {
        assert front[..k] == front;
      }
    }
  }

  /** An opening of the character pool: what its slots show is what the roster gains, beside the default shots. */
  lemma OpeningUnlocks(c: Catalog, user: User, poolID: string, count: int, d: Draws)
    requires WellFormed(c) && Sound(c, user) && Affordable(c, user, poolID, count)
    requires PoolNamed(c, poolID).value.kind == Characters
    ensures var (result, u) := Pull(c, user, poolID, count, d);
            var before := EnsureDefaults(c, user).characters;
            && result.Opened? && |result.results| == count
            && Unlocks(before, result.results, u.characters)
            && AllShown(c.table, before, result.results)
  {
    var pool := PoolNamed(c, poolID).value;
    PullIsAllOrNothing(c, user, poolID, count, d);
    PullCases(c, user, poolID, count, d);
    SlotsGain(c, Paid(c, user, count), pool, count, d, count);
  }

  /** An opening of the card pool unlocks no shot. */
  lemma {:induction false} CardsUnlockNothing(c: Catalog, u: User, pool: Pool, count: nat, d: Draws, n: nat)
    requires pool.kind == Cards
    ensures var r := PullMany(c, u, pool, count, d, n);
            r.Some? && r.value.0.characters == u.characters
            && forall k :: 0 <= k < n ==> r.value.1[k] == Drawn(r.value.1[k].rarity, "", false, 0)
  {
    if n > 0 {
      CardsUnlockNothing(c, u, pool, count, d, n - 1);
      PullManyStep(c, u, pool, count, d, n);
    }
  }

  function Rarities(results: seq<Drawn>): (h: seq<Rarity>) {
    seq(|results|, i requires 0 <= i < |results| => results[i].rarity)
  }

  /** One pool's history grew by the tiers; other pools kept theirs, and their counters. */
  ghost predicate Recorded(u: User, u': User, pool: string, tiers: seq<Rarity>) {
    && HistoryOf(u', pool) == HistoryOf(u, pool) + tiers
    && (forall id :: id != pool ==> HistoryOf(u', id) == HistoryOf(u, id) && PityOf(u', id) == PityOf(u, id))
  }

  lemma RecordedChain(u: User, mid: User, u': User, pool: string, front: seq<Drawn>, last: Drawn)
    requires Recorded(u, mid, pool, Rarities(front)) && Recorded(mid, u', pool, [last.rarity])
    ensures Recorded(u, u', pool, Rarities(front + [last]))
  {
    assert Rarities(front + [last]) == Rarities(front) + [last.rarity];
    assert HistoryOf(u, pool) + Rarities(front) + [last.rarity] ==
             HistoryOf(u, pool) + (Rarities(front) + [last.rarity]);
  }

  lemma RecordedNone(u: User, pool: string)
    ensures Recorded(u, u, pool, Rarities([]))
  {
    assert Rarities([]) == [];
  }

  lemma SlotIsRecorded(c: Catalog, u: User, pool: Pool, count: nat, d: Draws, index: nat)
    requires PullOne(c, u, pool, count, d, index).Some?
    ensures var (u', drawn) := PullOne(c, u, pool, count, d, index).value; Recorded(u, u', pool.id, [drawn.rarity])
  {
  }

  /** What an opening shows is what the history of its pool gains, and no other pool's. */
  lemma {:induction false} OpeningIsRecorded(c: Catalog, u: User, pool: Pool, count: nat, d: Draws, n: nat)
    requires PullMany(c, u, pool, count, d, n).Some?
    ensures var (u', results) := PullMany(c, u, pool, count, d, n).value; Recorded(u, u', pool.id, Rarities(results))
  {
    if n == 0 {
      RecordedNone(u, pool.id);
    } else {
      var mid, front, after, last := LastSlot(c, u, pool, count, d, n);
      OpeningIsRecorded(c, u, pool, count, d, n - 1);
      SlotIsRecorded(c, mid, pool, count, d, n - 1);
      RecordedChain(u, mid, after, pool.id, front, last);
    }
  }

  /** The pity of a slot is the pity of its roll: lifted only when a rule of the pool is due. */
  lemma SlotIsLifted(c: Catalog, u: User, pool: Pool, count: nat, d: Draws, index: nat)
    requires WellFormed(c) && Sound(c, u) && pool in c.pools
    ensures var (h, rolled) := (HistoryOf(u, pool.id), RolledAt(pool, count, d, index));
            var r := PullOne(c, u, pool, count, d, index);
            var due := (rank: nat, every: int) => every > 0 && Trailing(h, rank) + 1 >= every;
            && r.Some?
            && r.value.1.rarity ==
                 if due(Rank(Epic), pool.rules.epicEvery) && Rank(rolled) < Rank(Epic) then Epic
                 else if due(Rank(Rare), pool.rules.rareEvery) && Rank(rolled) < Rank(Rare) then Rare
                 else rolled
  {
    PullOneKeepsSound(c, u, pool, count, d, index);
    PityOnlyWhenDue(pool.rules, HistoryOf(u, pool.id), PityOf(u, pool.id), RolledAt(pool, count, d, index));
  }
}
