/** The pools and the 52 shots the server ships, and the promises they keep. */
module ShippedCatalog {
  import opened Text
  import opened GachaRolls
  import opened Gacha

  const NAMES: seq<string> := ["Reimu", "Marisa", "Sanae", "Sakuya", "Reisen", "Youmu", "Aya",
                               "Seija", "Cirno", "Yukari", "Alice", "Remillia", "Yuyuko"]
  const FORMS: seq<string> := ["A1", "A2", "B1", "B2"]
  const SHOTS: nat := 52

  function ShotAt(i: nat): (e: Entry)
    requires i < SHOTS
  {
    Entry(NAMES[i / 4] + FORMS[i % 4], NAMES[i / 4], AtRank(i % 4))
  }

  function Shots(): (table: seq<Entry>)
    ensures |table| == SHOTS
    ensures forall i :: 0 <= i < SHOTS ==> table[i] == ShotAt(i)
  {
    seq(SHOTS, i requires 0 <= i < SHOTS => ShotAt(i))
  }

  const CARD_POOL := Pool("gacha.cards", Cards, Weights(70, 20, 8, 2, 0), Rules(10, 60))
  const CHARACTER_POOL := Pool("gacha.characters", Characters, Weights(50, 30, 14, 6, 0), Rules(10, 30))

  function Shipped(): (c: Catalog) {
    Catalog([CARD_POOL, CHARACTER_POOL], "gacha.cards", Shots(), ["ReimuA1", "ReimuA2"])
  }

  lemma FormsDistinct(i: nat, j: nat)
    requires i < 4 && j < 4 && FORMS[i] == FORMS[j]
    ensures i == j
  {
    assert FORMS[i][0] == FORMS[j][0] && FORMS[i][1] == FORMS[j][1];
  }

  lemma NamesDistinct(i: nat, j: nat)
    requires i < 13 && j < 13 && NAMES[i] == NAMES[j]
    ensures i == j
  {
    var a, b := NAMES[i], NAMES[j];
    assert |a| == |b| && a[0] == b[0] && a[1] == b[1] && a[2] == b[2];
  }

  /** No two rows of the table share a shot id. */
  lemma ShotsDistinct(i: nat, j: nat)
    requires i < j < SHOTS
    ensures ShotAt(i).shotID != ShotAt(j).shotID
  {
    var a, b := NAMES[i / 4], NAMES[j / 4];
    var f, g := FORMS[i % 4], FORMS[j % 4];
    if a + f == b + g {
      assert |f| == 2 && |g| == 2;
      assert (a + f)[..|a|] == a && (b + g)[..|b|] == b;
      assert (a + f)[|a|..] == f && (b + g)[|b|..] == g;
      FormsDistinct(i % 4, j % 4);
      NamesDistinct(i / 4, j / 4);
    }
  }

  lemma EveryTierShipped(k: nat)
    requires k < Rank(Legendary)
    ensures HasTier(Shots(), AtRank(k))
  {
    assert Shots()[k] == ShotAt(k) && ShotAt(k).rarity == AtRank(k);
    assert Shots()[k] in Shots();
  }

  lemma DefaultShipped(k: nat)
    requires k < 2
    ensures Shipped().defaults[k] == ShotAt(k).shotID
    ensures FindShot(Shots(), Shipped().defaults[k]).Some?
  {
    assert ShotAt(0).shotID == "ReimuA1" && ShotAt(1).shotID == "ReimuA2";
    FoundInTable(Shots(), Shots()[k]);
  }

  /** Everything proved for well-formed catalogs holds of the shipped one. */
  lemma ShippedIsWellFormed()
    ensures WellFormed(Shipped()) && |Shipped().table| == 52
  {
    forall i, j | 0 <= i < j < SHOTS
      ensures Shots()[i].shotID != Shots()[j].shotID
    {
      ShotsDistinct(i, j);
    }
    forall k | 0 <= k < Rank(Legendary)
      ensures HasTier(Shots(), AtRank(k))
    {
      EveryTierShipped(k);
    }
    DefaultShipped(0);
    DefaultShipped(1);
  }
}
