/**
 * Openings of the gacha pools: gem and faith accounting, pity over whole runs,
 * and the roster of unlocked shots. The catalog is a parameter; the shipped one
 * is in ShippedCatalog.
 */
module Gacha {
  import opened Text
  import opened GachaRolls

  datatype Entry = Entry(shotID: string, chara: string, rarity: Rarity)

  datatype Kind = Cards | Characters

  datatype Pool = Pool(id: string, kind: Kind, weights: Weights, rules: Rules)

  datatype Catalog = Catalog(pools: seq<Pool>, defaultPool: string, table: seq<Entry>, defaults: seq<string>)

  const SINGLE_COST: nat := 200
  const TEN_COST: nat := 1800
  const TEN: nat := 10
  const EXCHANGE_COST: nat := 150

  // ----- looking things up -----

  function FindShot(table: seq<Entry>, shotID: string): (e: Option<Entry>)
    ensures e.Some? ==> e.value in table && e.value.shotID == shotID
    ensures e.None? ==> forall x :: x in table ==> x.shotID != shotID
  {
    if table == [] then None
    else if table[0].shotID == shotID then Some(table[0])
    else FindShot(table[1..], shotID)
  }

  function FindPool(pools: seq<Pool>, id: string): (p: Option<Pool>)
    ensures p.Some? ==> p.value in pools && p.value.id == id
    ensures p.None? ==> forall q :: q in pools ==> q.id != id
  {
    if pools == [] then None
    else if pools[0].id == id then Some(pools[0])
    else FindPool(pools[1..], id)
  }

  /** The entries of one tier, in table order. */
  function OfRarity(table: seq<Entry>, r: Rarity): (t: seq<Entry>)
    ensures forall e :: e in t <==> e in table && e.rarity == r
  {
    if table == [] then []
    else (if table[0].rarity == r then [table[0]] else []) + OfRarity(table[1..], r)
  }

  /** An index a draw selects among n candidates. */
  function Choose(u: Unit, n: nat): (k: nat)
    requires n > 0
    ensures k < n && k as real <= u * n as real < (k + 1) as real
  {
    PointInRange(u, n);
    (u * n as real).Floor
  }

  /** pickGachaShotForRarity: fails exactly on a tier without shots. */
  function PickShot(table: seq<Entry>, r: Rarity, u: Unit): (e: Option<Entry>)
    ensures e.Some? ==> e.value in table && e.value.rarity == r
    ensures e.None? ==> forall x :: x in table ==> x.rarity != r
  {
    var candidates := OfRarity(table, r);
    if candidates == [] then
      assert forall x :: x in table && x.rarity == r ==> x in candidates;
      None
    else
      var e := candidates[Choose(u, |candidates|)];
      assert e in candidates;
      Some(e)
  }

  /** The shots still locked, in table order. */
  function Locked(table: seq<Entry>, owned: set<string>): (ids: seq<string>) {
    if table == [] then []
    else (if table[0].shotID in owned then [] else [table[0].shotID]) + Locked(table[1..], owned)
  }

  /** What the shipped tables promise: no legendary weight, shots in every lower tier, distinct ids. */
  ghost predicate WellFormed(c: Catalog) {
    && (forall p :: p in c.pools ==> p.weights.legendary <= 0)
    && (forall i, j :: 0 <= i < j < |c.pools| ==> c.pools[i].id != c.pools[j].id)
    && (forall i, j :: 0 <= i < j < |c.table| ==> c.table[i].shotID != c.table[j].shotID)
    && (forall k :: 0 <= k < Rank(Legendary) ==> HasTier(c.table, AtRank(k)))
    && (forall id :: id in c.defaults ==> FindShot(c.table, id).Some?)
  }

  ghost predicate HasTier(table: seq<Entry>, r: Rarity) {
    exists e :: e in table && e.rarity == r
  }

  // ----- one user -----

  datatype Source = Default | Pulled | Exchanged

  datatype Ownership = Ownership(source: Source, dupes: nat)

  /** The history of every pool rides along; the code keeps only its last openings. */
  datatype User = User(gems: int, faith: int, characters: map<string, Ownership>,
                       pity: map<string, Pity>, drawn: map<string, seq<Rarity>>)

  /** The random draws of one opening: per slot the roll, the guarantee attempts and the pick. */
  datatype Draws = Draws(roll: nat -> Unit, again: nat -> nat -> Unit, pick: nat -> Unit)

  datatype Error = PoolNotFound | BadCount | NotEnoughGems | EmptyTier | UnknownItem | AlreadyOwned | NotEnoughFaith

  datatype Drawn = Drawn(rarity: Rarity, shotID: string, isNew: bool, faithGained: nat)

  /** ensureDefaultCharactersLocked. */
  function WithDefaults(characters: map<string, Ownership>, defaults: seq<string>): (r: map<string, Ownership>)
    decreases |defaults|
  {
    if defaults == [] then characters
    else
      var first := if defaults[0] in characters then characters
                   else characters[defaults[0] := Ownership(Default, 0)];
      WithDefaults(first, defaults[1..])
  }

  lemma {:induction false} WithDefaultsKeys(characters: map<string, Ownership>, defaults: seq<string>)
    ensures var r := WithDefaults(characters, defaults);
            && (forall id :: id in r <==> id in characters || id in defaults)
            && (forall id :: id in characters ==> r[id] == characters[id])
            && (forall id :: id in r && id !in characters ==> r[id] == Ownership(Default, 0))
    decreases |defaults|
  {
    if defaults != [] {
      var first := if defaults[0] in characters then characters
                   else characters[defaults[0] := Ownership(Default, 0)];
      WithDefaultsKeys(first, defaults[1..]);
    }
  }

  function EnsureDefaults(c: Catalog, u: User): (u': User) {
    u.(characters := WithDefaults(u.characters, c.defaults))
  }

  function PityOf(u: User, pool: string): (p: Pity) { if pool in u.pity then u.pity[pool] else Pity(0, 0) }

  function HistoryOf(u: User, pool: string): (h: seq<Rarity>) { if pool in u.drawn then u.drawn[pool] else [] }

  /** characterDupeFaith: shown to the player, never credited. */
  function DupeFaith(r: Rarity): (n: nat) {
    match r
    case Epic => 80
    case Rare => 40
    case Uncommon => 20
    case _ => 10
  }

  /** The roll of one slot; the last slot of a ten-pull is rolled again below rare. */
  function RolledAt(pool: Pool, count: nat, d: Draws, index: nat): (r: Rarity)
    ensures count == TEN && index == count - 1 ==> Rank(r) >= Rank(Rare)
  {
    var rolled := Roll(pool.weights, d.roll(index));
    if count == TEN && index == count - 1 && Rank(rolled) < Rank(Rare)
    then GuaranteedFrom(pool.weights, d.again(index), 0) else rolled
  }

  /** Adding one shot to the roster. */
  function Unlock(characters: map<string, Ownership>, id: string): (r: map<string, Ownership>)
    ensures r.Keys == characters.Keys + {id}
  {
    if id in characters then characters[id := characters[id].(dupes := characters[id].dupes + 1)]
    else characters[id := Ownership(Pulled, 0)]
  }

  /** Writing the outcome of one roll into pity counters and history. */
  function Record(u: User, pool: Pool, rarity: Rarity, pity: Pity): (u': User) {
    u.(pity := u.pity[pool.id := pity], drawn := u.drawn[pool.id := HistoryOf(u, pool.id) + [rarity]])
  }

  /** One slot of an opening: roll, pity, and for the character pool the unlock. */
  function PullOne(c: Catalog, u: User, pool: Pool, count: nat, d: Draws, index: nat): (r: Option<(User, Drawn)>) {
    var (rarity, pity) := ApplyPity(pool.rules, PityOf(u, pool.id), RolledAt(pool, count, d, index));
    var u' := Record(u, pool, rarity, pity);
    if pool.kind == Cards then Some((u', Drawn(rarity, "", false, 0)))
    else
      match PickShot(c.table, rarity, d.pick(index))
      case None => None
      case Some(e) =>
        var isNew := e.shotID !in u.characters;
        Some((u'.(characters := Unlock(u.characters, e.shotID)),
              Drawn(rarity, e.shotID, isNew, if isNew then 0 else DupeFaith(rarity))))
  }

  /** The first n slots of an opening. */
  function PullMany(c: Catalog, u: User, pool: Pool, count: nat, d: Draws, n: nat)
    : (r: Option<(User, seq<Drawn>)>)
    ensures r.Some? ==> |r.value.1| == n
  {
    if n == 0 then Some((u, []))
    else
      match PullMany(c, u, pool, count, d, n - 1)
      case None => None
      case Some((before, results)) =>
        match PullOne(c, before, pool, count, d, n - 1)
        case None => None
        case Some((after, drawn)) => Some((after, results + [drawn]))
  }

  datatype PullResult = Opened(results: seq<Drawn>) | Refused(error: Error)

  function PoolNamed(c: Catalog, poolID: string): (p: Option<Pool>)
    ensures p.Some? ==> p.value in c.pools
    ensures p.Some? ==> p.value.id == if TrimSpace(poolID) == "" then c.defaultPool else TrimSpace(poolID)
  {
    FindPool(c.pools, if TrimSpace(poolID) == "" then c.defaultPool else TrimSpace(poolID))
  }

  function CostOf(count: int): (n: nat) { if count == TEN then TEN_COST else SINGLE_COST }

  /**
   * The part of an opening that follows the payment. The code would stop midway on
   * a tier without shots; PaidOpeningSucceeds shows that this never happens.
   */
  function OpenPaid(c: Catalog, paid: User, pool: Pool, count: nat, d: Draws): (r: (PullResult, User)) {
    match PullMany(c, paid, pool, count, d, count)
    case None => (Refused(EmptyTier), paid)
    case Some((after, results)) => (Opened(results), after.(faith := after.faith + count))
  }

  /** GachaPull. */
  function Pull(c: Catalog, user: User, poolID: string, count: int, d: Draws): (r: (PullResult, User)) {
    var u := EnsureDefaults(c, user);
    match PoolNamed(c, poolID)
    case None => (Refused(PoolNotFound), u)
    case Some(pool) =>
      if count != 1 && count != TEN then (Refused(BadCount), u)
      else if u.gems < CostOf(count) then (Refused(NotEnoughGems), u)
      else
        OpenPaid(c, u.(gems := u.gems - CostOf(count)), pool, count, d)
  }

  datatype ExchangeResult = Unlocked | Declined(error: Error)

  /** ExchangeFaith. */
  function Exchange(c: Catalog, user: User, item: string): (r: (ExchangeResult, User)) {
    var u, id := EnsureDefaults(c, user), TrimSpace(item);
    if FindShot(c.table, id).None? then (Declined(UnknownItem), u)
    else if id in u.characters then (Declined(AlreadyOwned), u)
    else if u.faith < EXCHANGE_COST then (Declined(NotEnoughFaith), u)
    else (Unlocked, u.(faith := u.faith - EXCHANGE_COST, characters := u.characters[id := Ownership(Exchanged, 0)]))
  }

  // ----- one opening -----

  lemma RollNotLegendary(w: Weights, u: Unit)
    requires w.legendary <= 0
    ensures Roll(w, u) != Legendary
  {
    if Below(w, 5) > 0 {
      RollBand(w, u);
    }
  }

  lemma {:induction false} GuaranteedNotLegendary(w: Weights, draws: nat -> Unit, attempt: nat)
    requires w.legendary <= 0 && attempt <= ATTEMPTS
    ensures GuaranteedFrom(w, draws, attempt) != Legendary
    decreases ATTEMPTS - attempt
  {
    if attempt < ATTEMPTS {
      RollNotLegendary(w, draws(attempt));
      GuaranteedNotLegendary(w, draws, attempt + 1);
    }
  }

  lemma RolledNotLegendary(pool: Pool, count: nat, d: Draws, index: nat)
    requires pool.weights.legendary <= 0
    ensures RolledAt(pool, count, d, index) != Legendary
  {
    RollNotLegendary(pool.weights, d.roll(index));
    GuaranteedNotLegendary(pool.weights, d.again(index), 0);
  }

  /** What holds of a user between two operations. */
  ghost predicate Sound(c: Catalog, u: User) {
    && u.gems >= 0 && u.faith >= 0
    && (forall id :: id in u.characters ==> FindShot(c.table, id).Some?)
    && (forall p :: p in c.pools ==> PityTracks(p.rules, HistoryOf(u, p.id), PityOf(u, p.id)))
  }

  lemma SamePool(c: Catalog, p: Pool, q: Pool)
    requires WellFormed(c) && p in c.pools && q in c.pools && p.id == q.id
    ensures p == q
  {
    var i :| 0 <= i < |c.pools| && c.pools[i] == p;
    var j :| 0 <= j < |c.pools| && c.pools[j] == q;
    assert i == j;
  }

  /** Recording a roll keeps every pool's pity in step with its history. */
  lemma RecordKeepsSound(c: Catalog, u: User, pool: Pool, rolled: Rarity)
    requires WellFormed(c) && Sound(c, u) && pool in c.pools
    ensures var (rarity, pity) := ApplyPity(pool.rules, PityOf(u, pool.id), rolled);
            Sound(c, Record(u, pool, rarity, pity)) && Rank(rarity) >= Rank(rolled)
  {
    var (rarity, pity) := ApplyPity(pool.rules, PityOf(u, pool.id), rolled);
    PityStep(pool.rules, HistoryOf(u, pool.id), PityOf(u, pool.id), rolled);
    var u' := Record(u, pool, rarity, pity);
    forall p | p in c.pools
      ensures PityTracks(p.rules, HistoryOf(u', p.id), PityOf(u', p.id))
    {
      if p.id == pool.id {
        SamePool(c, p, pool);
      }
    }
  }

  lemma PickSucceeds(c: Catalog, rarity: Rarity, u: Unit)
    requires WellFormed(c) && rarity != Legendary
    ensures PickShot(c.table, rarity, u).Some?
  {
    assert HasTier(c.table, AtRank(Rank(rarity)));
  }

  lemma FoundInTable(table: seq<Entry>, e: Entry)
    requires e in table
    ensures FindShot(table, e.shotID).Some?
  {
  }

  lemma PullOneKeepsSound(c: Catalog, u: User, pool: Pool, count: nat, d: Draws, index: nat)
    requires WellFormed(c) && Sound(c, u) && pool in c.pools
    ensures var r := PullOne(c, u, pool, count, d, index);
            && r.Some? && Sound(c, r.value.0)
            && r.value.0.gems == u.gems && r.value.0.faith == u.faith
            && u.characters.Keys <= r.value.0.characters.Keys
            && Rank(r.value.1.rarity) >= Rank(RolledAt(pool, count, d, index))
            && HistoryOf(r.value.0, pool.id) == HistoryOf(u, pool.id) + [r.value.1.rarity]
  {
    var rolled := RolledAt(pool, count, d, index);
    RolledNotLegendary(pool, count, d, index);
    RecordKeepsSound(c, u, pool, rolled);
    var (rarity, pity) := ApplyPity(pool.rules, PityOf(u, pool.id), rolled);
    if pool.kind != Cards {
      PickSucceeds(c, rarity, d.pick(index));
      UnlockKeepsSound(c, Record(u, pool, rarity, pity), PickShot(c.table, rarity, d.pick(index)).value);
    }
  }

  lemma UnlockKeepsSound(c: Catalog, u: User, e: Entry)
    requires Sound(c, u) && e in c.table
    ensures Sound(c, u.(characters := Unlock(u.characters, e.shotID)))
  {
    FoundInTable(c.table, e);
  }

  /** One more slot of an opening. */
  lemma PullManyStep(c: Catalog, u: User, pool: Pool, count: nat, d: Draws, n: nat)
    requires n > 0
    ensures PullMany(c, u, pool, count, d, n - 1).None? ==> PullMany(c, u, pool, count, d, n).None?
    ensures PullMany(c, u, pool, count, d, n - 1).Some? ==>
              var (before, results) := PullMany(c, u, pool, count, d, n - 1).value;
              PullMany(c, u, pool, count, d, n) ==
                match PullOne(c, before, pool, count, d, n - 1)
                case None => None
                case Some((after, drawn)) => Some((after, results + [drawn]))
  {
  }

  lemma {:induction false} PullManyKeepsSound(c: Catalog, u: User, pool: Pool, count: nat, d: Draws, n: nat)
    requires WellFormed(c) && Sound(c, u) && pool in c.pools && n <= count
    ensures var r := PullMany(c, u, pool, count, d, n);
            && r.Some? && Sound(c, r.value.0)
            && r.value.0.gems == u.gems && r.value.0.faith == u.faith
            && u.characters.Keys <= r.value.0.characters.Keys
            && (n == count == TEN ==> Rank(r.value.1[TEN - 1].rarity) >= Rank(Rare))
  {
    if n > 0 {
      PullManyKeepsSound(c, u, pool, count, d, n - 1);
      PullManyStep(c, u, pool, count, d, n);
      PullOneKeepsSound(c, PullMany(c, u, pool, count, d, n - 1).value.0, pool, count, d, n - 1);
    }
  }

  lemma DefaultsKeepSound(c: Catalog, u: User)
    requires WellFormed(c) && Sound(c, u)
    ensures Sound(c, EnsureDefaults(c, u))
    ensures u.characters.Keys <= EnsureDefaults(c, u).characters.Keys
  {
    WithDefaultsKeys(u.characters, c.defaults);
  }

  lemma PaidOpeningSucceeds(c: Catalog, paid: User, pool: Pool, count: nat, d: Draws)
    requires WellFormed(c) && Sound(c, paid) && pool in c.pools
    ensures var (result, u) := OpenPaid(c, paid, pool, count, d);
            && Sound(c, u) && result.Opened? && |result.results| == count
            && u.gems == paid.gems && u.faith == paid.faith + count
            && paid.characters.Keys <= u.characters.Keys
            && (count == TEN ==> Rank(result.results[TEN - 1].rarity) >= Rank(Rare))
  {
    PullManyKeepsSound(c, paid, pool, count, d, count);
  }

  /** When an opening is granted. */
  predicate Affordable(c: Catalog, user: User, poolID: string, count: int) {
    PoolNamed(c, poolID).Some? && count in {1, TEN} && user.gems >= if count == 10 then 1800 else 200
  }

  /**
   * An opening is all or nothing: once the gems are taken nothing can fail any
   * more, one faith is paid for every slot, no unlocked shot is lost, and the
   * last slot of a ten-pull is rare or better.
   */
  lemma PullIsAllOrNothing(c: Catalog, user: User, poolID: string, count: int, d: Draws)
    requires WellFormed(c) && Sound(c, user)
    ensures var (result, u) := Pull(c, user, poolID, count, d);
            && Sound(c, u)
            && (result.Opened? <==> Affordable(c, user, poolID, count))
            && (result.Refused? ==> u == EnsureDefaults(c, user))
            && (result.Opened? ==>
                  && |result.results| == count
                  && u.gems == user.gems - (if count == 10 then 1800 else 200) && u.faith == user.faith + count
                  && user.characters.Keys <= u.characters.Keys
                  && (count == TEN ==> Rank(result.results[TEN - 1].rarity) >= Rank(Rare)))
  {
    DefaultsKeepSound(c, user);
    PullCases(c, user, poolID, count, d);
    if Affordable(c, user, poolID, count) {
      PaidOpeningSucceeds(c, Paid(c, user, count), PoolNamed(c, poolID).value, count, d);
    }
  }

  /** The user after the payment. */
  function Paid(c: Catalog, user: User, count: int): (paid: User) {
    EnsureDefaults(c, user).(gems := user.gems - CostOf(count))
  }

  lemma PullCases(c: Catalog, user: User, poolID: string, count: int, d: Draws)
    ensures Affordable(c, user, poolID, count)
            ==> Pull(c, user, poolID, count, d) ==
                  OpenPaid(c, Paid(c, user, count), PoolNamed(c, poolID).value, count, d)
    ensures !Affordable(c, user, poolID, count)
            ==> && Pull(c, user, poolID, count, d).0.Refused?
                && Pull(c, user, poolID, count, d).1 == EnsureDefaults(c, user)
  {
  }

  /** An exchange is granted exactly for a locked shot and 150 faith, costs these and unlocks that one shot. */
  lemma ExchangeUnlocksOne(c: Catalog, user: User, item: string)
    requires WellFormed(c) && Sound(c, user)
    ensures var (result, u) := Exchange(c, user, item);
            var before := EnsureDefaults(c, user);
            && Sound(c, u)
            && (result.Unlocked? <==> TrimSpace(item) in Locked(c.table, before.characters.Keys)
                                      && user.faith >= EXCHANGE_COST)
            && (result.Declined? ==> u == before)
            && (result.Unlocked? ==>
                  && u.faith == user.faith - EXCHANGE_COST && u.gems == user.gems
                  && u == before.(faith := u.faith,
                                  characters := before.characters[TrimSpace(item) := Ownership(Exchanged, 0)]))
  {
    DefaultsKeepSound(c, user);
    LockedMembers(c.table, EnsureDefaults(c, user).characters.Keys, TrimSpace(item));
  }

  // ----- every run -----

  datatype Step = DoPull(poolID: string, count: int, draws: Draws) | DoExchange(item: string)

  /** A user with the totals of what was drawn and paid. */
  datatype Books = Books(user: User, slots: int, exchanges: int, spent: int)

  function Apply(c: Catalog, b: Books, step: Step): (b': Books) {
    match step
    case DoPull(poolID, count, draws) =>
      (match Pull(c, b.user, poolID, count, draws)
       case (Opened(results), u) => Books(u, b.slots + |results|, b.exchanges, b.spent + CostOf(count))
       case (Refused(_), u) => b.(user := u))
    case DoExchange(item) =>
      match Exchange(c, b.user, item)
      case (Unlocked, u) => b.(user := u, exchanges := b.exchanges + 1)
      case (Declined(_), u) => b.(user := u)
  }

  function Run(c: Catalog, start: User, steps: seq<Step>): (b: Books) {
    if steps == [] then Books(start, 0, 0, 0)
    else Apply(c, Run(c, start, steps[..|steps| - 1]), steps[|steps| - 1])
  }

  /** A user who has not drawn yet. */
  ghost predicate Untouched(u: User) {
    u.gems >= 0 && u.faith >= 0 && u.characters == map[] && u.pity == map[] && u.drawn == map[]
  }

  /** Gems pay for the openings, faith is one per slot minus 150 per exchange. */
  ghost predicate Balanced(c: Catalog, start: User, b: Books) {
    && Sound(c, b.user)
    && b.user.gems == start.gems - b.spent
    && b.user.faith == start.faith + b.slots - EXCHANGE_COST * b.exchanges
  }

  lemma StepKeepsBalance(c: Catalog, start: User, b: Books, step: Step)
    requires WellFormed(c) && Balanced(c, start, b)
    ensures Balanced(c, start, Apply(c, b, step))
  {
    match step
    case DoPull(poolID, count, draws) => PullIsAllOrNothing(c, b.user, poolID, count, draws);
    case DoExchange(item) => ExchangeUnlocksOne(c, b.user, item);
  }

  /** Over every run the books balance; by soundness neither gems nor faith ever go negative. */
  lemma {:induction false} BooksBalance(c: Catalog, start: User, steps: seq<Step>)
    requires WellFormed(c) && Untouched(start)
    ensures Balanced(c, start, Run(c, start, steps))
  {
    if steps != [] {
      BooksBalance(c, start, steps[..|steps| - 1]);
      StepKeepsBalance(c, start, Run(c, start, steps[..|steps| - 1]), steps[|steps| - 1]);
    }
  }

  /** Over every run, each pool keeps its pity promise in every window of its history. */
  lemma PityPromise(c: Catalog, start: User, steps: seq<Step>, pool: Pool, i: nat)
    requires WellFormed(c) && Untouched(start) && pool in c.pools
    requires pool.rules.rareEvery > 0 && pool.rules.epicEvery > 0
    ensures var h := HistoryOf(Run(c, start, steps).user, pool.id);
            && (i + pool.rules.rareEvery <= |h| ==>
                  exists j :: i <= j < i + pool.rules.rareEvery && Rank(h[j]) >= Rank(Rare))
            && (i + pool.rules.epicEvery <= |h| ==>
                  exists j :: i <= j < i + pool.rules.epicEvery && Rank(h[j]) >= Rank(Epic))
  {
    BooksBalance(c, start, steps);
    var h := HistoryOf(Run(c, start, steps).user, pool.id);
    if i + pool.rules.rareEvery <= |h| {
      WindowHasTier(h, Rank(Rare), pool.rules.rareEvery, i);
    }
    if i + pool.rules.epicEvery <= |h| {
      WindowHasTier(h, Rank(Epic), pool.rules.epicEvery, i);
    }
  }

  lemma {:induction false} LockedMembers(table: seq<Entry>, owned: set<string>, id: string)
    ensures id in Locked(table, owned) <==> id !in owned && FindShot(table, id).Some?
  {
    if table != [] {
      LockedMembers(table[1..], owned, id);
    }
  }

  /** The ids of a table, as a set. */
  function Ids(table: seq<Entry>): (ids: set<string>) {
    set e | e in table :: e.shotID
  }

  lemma IdsStep(table: seq<Entry>)
    requires table != [] && forall i, j :: 0 <= i < j < |table| ==> table[i].shotID != table[j].shotID
    ensures Ids(table) == Ids(table[1..]) + {table[0].shotID} && table[0].shotID !in Ids(table[1..])
  {
    assert table == [table[0]] + table[1..];
  }

  lemma {:induction false} LockedCount(table: seq<Entry>, owned: set<string>)
    requires forall i, j :: 0 <= i < j < |table| ==> table[i].shotID != table[j].shotID
    ensures |Locked(table, owned)| + |owned * Ids(table)| == |table|
  {
    if table != [] {
      var id, rest := table[0].shotID, table[1..];
      LockedCount(rest, owned);
      IdsStep(table);
      if id in owned {
        assert owned * Ids(table) == owned * Ids(rest) + {id};
      } else {
        assert owned * Ids(table) == owned * Ids(rest);
      }
    } else {
      assert owned * Ids(table) == {};
    }
  }

  /** After every run the owned and the locked shots partition the table. */
  lemma OwnedAndLockedPartition(c: Catalog, start: User, steps: seq<Step>)
    requires WellFormed(c) && Untouched(start)
    ensures var owned := Run(c, start, steps).user.characters.Keys;
            && (forall id :: FindShot(c.table, id).Some? <==> id in owned || id in Locked(c.table, owned))
            && (forall id :: !(id in owned && id in Locked(c.table, owned)))
            && |owned| + |Locked(c.table, owned)| == |c.table|
  {
    BooksBalance(c, start, steps);
    var owned := Run(c, start, steps).user.characters.Keys;
    forall id
      ensures id in Locked(c.table, owned) <==> id !in owned && FindShot(c.table, id).Some?
    {
      LockedMembers(c.table, owned, id);
    }
    LockedCount(c.table, owned);
    forall id | id in owned
      ensures id in Ids(c.table)
    {
      var e := FindShot(c.table, id).value;
    }
    assert owned * Ids(c.table) == owned;
  }

  // ----- the service methods -----

  class GachaAccount {
    const catalog: Catalog
    var gems: int
    var faith: int
    var characters: map<string, Ownership>
    var pity: map<string, Pity>
    ghost var drawn: map<string, seq<Rarity>>

    constructor (catalog: Catalog, gems: nat)
      ensures this.catalog == catalog && View() == User(gems, 0, map[], map[], map[])
    {
      this.catalog, this.gems, faith := catalog, gems, 0;
      characters, pity, drawn := map[], map[], map[];
    }

    ghost function View(): (u: User)
      reads this
    {
      User(gems, faith, characters, pity, drawn)
    }

    method Init()
      modifies this
      ensures View() == EnsureDefaults(catalog, old(View()))
    {
      for i := 0 to |catalog.defaults|
        invariant WithDefaults(characters, catalog.defaults[i..]) == WithDefaults(old(characters), catalog.defaults)
        invariant gems == old(gems) && faith == old(faith) && pity == old(pity) && drawn == old(drawn)
      {
        assert catalog.defaults[i..][0] == catalog.defaults[i];
        if catalog.defaults[i] !in characters {
          characters := characters[catalog.defaults[i] := Ownership(Default, 0)];
        }
        assert catalog.defaults[i..][1..] == catalog.defaults[i + 1..];
      }
    }

    /** One slot; None when the tier has no shots, with the counters already moved. */
    method OpenSlot(pool: Pool, count: nat, d: Draws, index: nat) returns (slot: Option<Drawn>)
      modifies this
      ensures var r := PullOne(catalog, old(View()), pool, count, d, index);
              && (slot.Some? <==> r.Some?)
              && (slot.Some? ==> (View(), slot.value) == r.value)
    {
      var rolled := RollRarity(pool.weights, d.roll(index));
      if count == TEN && index == count - 1 && Rank(rolled) < Rank(Rare) {
        rolled := Guaranteed(pool.weights, d.again(index));
      }
      var (rarity, state) := ApplyPity(pool.rules, if pool.id in pity then pity[pool.id] else Pity(0, 0), rolled);
      pity := pity[pool.id := state];
      drawn := drawn[pool.id := HistoryOf(old(View()), pool.id) + [rarity]];
      if pool.kind == Cards {
        return Some(Drawn(rarity, "", false, 0));
      }
      var picked := PickShot(catalog.table, rarity, d.pick(index));
      if picked.None? {
        return None;
      }
      var id := picked.value.shotID;
      if id in characters {
        var own := characters[id];
        characters := characters[id := own.(dupes := own.dupes + 1)];
        return Some(Drawn(rarity, id, false, DupeFaith(rarity)));
      }
      characters := characters[id := Ownership(Pulled, 0)];
      slot := Some(Drawn(rarity, id, true, 0));
    }

    /** The slots of a paid opening. */
    method OpenSlots(pool: Pool, count: nat, d: Draws) returns (results: Option<seq<Drawn>>)
      modifies this
      ensures var r := PullMany(catalog, old(View()), pool, count, d, count);
              && (results.Some? <==> r.Some?)
              && (results.Some? ==> (View(), results.value) == r.value)
    {
      var slots: seq<Drawn> := [];
      for index := 0 to count
        invariant PullMany(catalog, old(View()), pool, count, d, index) == Some((View(), slots))
      {
        var slot := OpenSlot(pool, count, d, index);
        if slot.None? {
          NoneStays(catalog, old(View()), pool, count, d, index + 1, count);
          return None;
        }
        slots := slots + [slot.value];
      }
      results := Some(slots);
    }

    method GachaPull(poolID: string, count: int, d: Draws) returns (result: PullResult)
      requires WellFormed(catalog) && Sound(catalog, View())
      modifies this
      ensures (result, View()) == Pull(catalog, old(View()), poolID, count, d)
    {
      DefaultsKeepSound(catalog, View());
      PullCases(catalog, View(), poolID, count, d);
      Init();
      assert View() == EnsureDefaults(catalog, old(View()));
      var pool := PoolNamed(catalog, poolID);
      if pool.None? {
        return Refused(PoolNotFound);
      }
      if count != 1 && count != TEN {
        return Refused(BadCount);
      }
      if gems < CostOf(count) {
        return Refused(NotEnoughGems);
      }
      gems := gems - CostOf(count);
      assert View() == Paid(catalog, old(View()), count);
      result := OpenPaidSlots(pool.value, count, d);
    }

    /** After the payment. */
    method OpenPaidSlots(pool: Pool, count: nat, d: Draws) returns (result: PullResult)
      requires WellFormed(catalog) && Sound(catalog, View()) && pool in catalog.pools
      modifies this
      ensures (result, View()) == OpenPaid(catalog, old(View()), pool, count, d)
    {
      PullManyKeepsSound(catalog, View(), pool, count, d, count);
      var results := OpenSlots(pool, count, d);
      faith := faith + count;
      result := Opened(results.value);
    }

    method ExchangeFaith(item: string) returns (result: ExchangeResult)
      modifies this
      ensures (result, View()) == Exchange(catalog, old(View()), item)
    {
      Init();
      var id := TrimSpace(item);
      if FindShot(catalog.table, id).None? {
        return Declined(UnknownItem);
      }
      if id in characters {
        return Declined(AlreadyOwned);
      }
      if faith < EXCHANGE_COST {
        return Declined(NotEnoughFaith);
      }
      faith := faith - EXCHANGE_COST;
      characters := characters[id := Ownership(Exchanged, 0)];
      result := Unlocked;
    }
  }

  lemma {:induction false} NoneStays(c: Catalog, u: User, pool: Pool, count: nat, d: Draws, k: nat, n: nat)
    requires k <= n && PullMany(c, u, pool, count, d, k).None?
    ensures PullMany(c, u, pool, count, d, n).None?
  {
    if k < n {
      NoneStays(c, u, pool, count, d, k, n - 1);
      PullManyStep(c, u, pool, count, d, n);
    }
  }
}
