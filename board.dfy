/**
  The circular board of the game: 24 tiles, the special tiles, the property
  catalog, the purchase rule, the sale price and the list of a team's holdings.
 */
module Board {
  import opened Options

  const BoardSpaces: int := 24
  /** Credited for every single-tile step that wraps from tile 23 to tile 0. */
  const GoBonus: int := 2_000_000
  const FreeParkingTile: int := 12
  const SocietyPenaltyTile: int := 6
  const SocietyPenaltyAmount: int := 1_000_000
  const EventPenaltyTile: int := 18
  const EventPenaltyAmount: int := 1_500_000
  const ChanceTiles: seq<int> := [4, 8, 16, 20]
  const MysteryTiles: seq<int> := [2, 10, 14, 22]
  /** Sale prices are rounded to a multiple of this step. */
  const SellStep: int := 500_000

  datatype PropertyInfo = PropertyInfo(name: string, price: int, rent: int)

  /** The read-only property catalog, keyed by tile index (prices in rupees). */
  const Catalog: map<int, PropertyInfo> := map[
    1 := PropertyInfo("Electric Cars", 3_000_000, 500_000),
    3 := PropertyInfo("Snacks & Beverages", 2_500_000, 500_000),
    5 := PropertyInfo("Dairy Products", 2_000_000, 500_000),
    7 := PropertyInfo("Wearable Tech", 3_000_000, 1_000_000),
    9 := PropertyInfo("Smart Home Devices", 3_500_000, 1_000_000),
    11 := PropertyInfo("Eco Headphones", 2_500_000, 1_000_000),
    13 := PropertyInfo("Fashion Tech", 2_500_000, 500_000),
    15 := PropertyInfo("Luxury Accessories", 3_000_000, 1_000_000),
    17 := PropertyInfo("Sustainable Apparel", 2_000_000, 500_000),
    19 := PropertyInfo("OTT Platforms", 3_000_000, 1_000_000),
    21 := PropertyInfo("Fast Food Chains", 2_000_000, 500_000),
    23 := PropertyInfo("Motorbikes", 2_500_000, 1_000_000)
  ]

  /** The tiles `can_buy` refuses: start, society penalty, free parking, event penalty, chance and mystery. */
  predicate IsSpecialTile(space: int) {
    space in {0, 6, 12, 18} || space in ChanceTiles || space in MysteryTiles
  }

  /** The non-special tiles are exactly the catalog tiles. */
  lemma NonSpecialIsCatalog(space: int)
    requires 0 <= space < BoardSpaces
    ensures !IsSpecialTile(space) <==> space in Catalog
  {
    assert space in {0, 1, 2, 3, 4, 5, 6, 7, 8, 9, 10, 11, 12, 13, 14, 15, 16, 17, 18, 19, 20, 21, 22, 23};
  }

  /** The catalog tiles are exactly the odd tiles. */
  lemma CatalogIsOdd(space: int)
    requires 0 <= space < BoardSpaces
    ensures space in Catalog <==> space % 2 == 1
  {
    assert space in {0, 1, 2, 3, 4, 5, 6, 7, 8, 9, 10, 11, 12, 13, 14, 15, 16, 17, 18, 19, 20, 21, 22, 23};
  }

  /** A property tile: an odd tile of the board. */
  predicate IsPropertyTile(space: int) {
    0 <= space < BoardSpaces && space % 2 == 1
  }

  /** The property tiles are exactly the keys of the catalog. */
  lemma PropertyTileIsCatalog(space: int)
    ensures IsPropertyTile(space) <==> space in Catalog
  {
    if 0 <= space < BoardSpaces {
      CatalogIsOdd(space);
    }
  }

  /**
    `can_buy`: the team's tile (its position mod 24) is an ordinary property tile
    and nobody owns it.
   */
  function CanBuyAt(pos: int, owners: seq<Option<string>>): (r: bool)
    requires |owners| == BoardSpaces
    ensures r <==> pos % BoardSpaces in Catalog && owners[pos % BoardSpaces] == None
  {
    var space := pos % BoardSpaces;
    NonSpecialIsCatalog(space);
    !IsSpecialTile(space) && owners[space] == None
  }

  /** `q` is what Python's `round(n / SellStep)` gives: the nearest integer, ties going to the even one. */
  ghost predicate RoundsTo(n: int, q: int) {
    var err := 2 * (n - q * SellStep);
    && -SellStep <= err <= SellStep
    && (err == SellStep || err == -SellStep ==> q % 2 == 0)
  }

  /** Python's `round(n / 500_000)` on an integer `n`, computed without floating point. */
  function RoundHalfEven(n: int): (q: int)
    ensures RoundsTo(n, q)
  {
    var q, r := n / SellStep, n % SellStep;
    if 2 * r < SellStep then q
    else if 2 * r > SellStep then q + 1
    else if q % 2 == 0 then q
    else q + 1
  }

  /** At most one integer satisfies the rounding rule, so RoundHalfEven is the rounding. */
  lemma RoundingIsUnique(n: int, q1: int, q2: int)
    requires RoundsTo(n, q1) && RoundsTo(n, q2)
    ensures q1 == q2
  {
  }

  /** The sale price of a property: half its catalog price, rounded half-to-even to a 500,000 step. */
  function SellPrice(price: int): (r: int)
    ensures r % SellStep == 0
    ensures -SellStep <= 2 * (price / 2 - r) <= SellStep
    ensures RoundsTo(price / 2, r / SellStep)
  {
    RoundHalfEven(price / 2) * SellStep
  }

  /** The catalog's four prices and what they sell for: the 0.5 ties go to the even multiple. */
  lemma SellPricesOfCatalog()
    ensures SellPrice(2_000_000) == 1_000_000
    ensures SellPrice(2_500_000) == 1_000_000
    ensures SellPrice(3_000_000) == 1_500_000
    ensures SellPrice(3_500_000) == 2_000_000
    ensures forall i :: i in Catalog ==> Catalog[i].price in {2_000_000, 2_500_000, 3_000_000, 3_500_000}
  {
  }

  /** One entry of `_get_owned_properties`. */
  datatype Holding = Holding(index: int, name: string, price: int)

  /** The tiles a list of holdings names. */
  function Tiles(hs: seq<Holding>): set<int> {
    if hs == [] then {} else {hs[0].index} + Tiles(hs[1..])
  }

  /** Each holding is the catalog entry of a tile from `lo` on that `id` owns. */
  ghost predicate HoldingsOf(hs: seq<Holding>, owners: seq<Option<string>>, id: string, lo: nat) {
    forall k :: 0 <= k < |hs| ==> IsHolding(hs[k], owners, id, lo)
  }

  ghost predicate IsHolding(h: Holding, owners: seq<Option<string>>, id: string, lo: nat) {
    && lo <= h.index < |owners|
    && owners[h.index] == Some(id)
    && h.index in Catalog
    && h.name == Catalog[h.index].name
    && h.price == Catalog[h.index].price
  }

  /**
    The holdings of team `id` among tiles `i..`, in tile order.
    `OwnedFrom(owners, id, 0)` is `_get_owned_properties(id)`.
   */
  function OwnedFrom(owners: seq<Option<string>>, id: string, i: nat): (r: seq<Holding>)
    requires i <= |owners|
    ensures |r| <= |owners| - i
    decreases |owners| - i
  {
    if i == |owners| then []
    else
      var rest := OwnedFrom(owners, id, i + 1);
      if owners[i] == Some(id) && i in Catalog then
        [Holding(i, Catalog[i].name, Catalog[i].price)] + rest
      else rest
  }

  /** Every listed holding is a catalog tile the team owns, with its catalog name and price, listed in tile order. */
  lemma {:induction false} OwnedFromSound(owners: seq<Option<string>>, id: string, i: nat)
    requires i <= |owners|
    ensures HoldingsOf(OwnedFrom(owners, id, i), owners, id, i)
    ensures forall k, l :: 0 <= k < l < |OwnedFrom(owners, id, i)| ==>
      OwnedFrom(owners, id, i)[k].index < OwnedFrom(owners, id, i)[l].index
    decreases |owners| - i
  {
    if i < |owners| {
      OwnedFromSound(owners, id, i + 1);
      var rest := OwnedFrom(owners, id, i + 1);
      var r := OwnedFrom(owners, id, i);
      if owners[i] == Some(id) && i in Catalog {
        assert r == [Holding(i, Catalog[i].name, Catalog[i].price)] + rest;
        forall k | 0 <= k < |r| ensures IsHolding(r[k], owners, id, i) {
          if k > 0 { assert r[k] == rest[k - 1]; }
        }
      }
    }
  }

  /** Every catalog tile from `i` on that the team owns is listed. */
  lemma {:induction false} OwnedFromComplete(owners: seq<Option<string>>, id: string, i: nat, j: int)
    requires i <= j < |owners|
    requires owners[j] == Some(id) && j in Catalog
    ensures j in Tiles(OwnedFrom(owners, id, i))
    decreases |owners| - i
  {
    var r := OwnedFrom(owners, id, i);
    if i == j {
      assert r[0].index == j;
    } else {
      OwnedFromComplete(owners, id, i + 1, j);
      if owners[i] == Some(id) && i in Catalog {
        assert r[1..] == OwnedFrom(owners, id, i + 1);
      }
    }
  }

  /** The team owns no catalog tile. */
  predicate OwnsNoProperty(owners: seq<Option<string>>, id: string) {
    forall j :: 0 <= j < |owners| && j in Catalog ==> owners[j] != Some(id)
  }

  /** `_get_owned_properties(id)`. */
  function OwnedProperties(owners: seq<Option<string>>, id: string): (r: seq<Holding>)
  {
    OwnedFrom(owners, id, 0)
  }

  /**
    The list names exactly the catalog tiles the team owns, each with its catalog
    name and price, in increasing tile order; it is empty exactly when the team owns
    no property (the case where the sell menu says there is nothing to sell).
   */
  lemma OwnedPropertiesExact(owners: seq<Option<string>>, id: string)
    ensures HoldingsOf(OwnedProperties(owners, id), owners, id, 0)
    ensures forall k, l :: 0 <= k < l < |OwnedProperties(owners, id)| ==>
      OwnedProperties(owners, id)[k].index < OwnedProperties(owners, id)[l].index
    ensures forall j :: 0 <= j < |owners| && owners[j] == Some(id) && j in Catalog ==>
      j in Tiles(OwnedProperties(owners, id))
    ensures OwnedProperties(owners, id) == [] <==> OwnsNoProperty(owners, id)
  {
    var r := OwnedProperties(owners, id);
    OwnedFromSound(owners, id, 0);
    forall j | 0 <= j < |owners| && owners[j] == Some(id) && j in Catalog
      ensures j in Tiles(r)
    {
      OwnedFromComplete(owners, id, 0, j);
    }
    if r != [] {
      assert IsHolding(r[0], owners, id, 0);
    }
  }

  datatype Side = Bottom | Right | Top | Left

  /** `_get_board_side`: which edge a tile lies on, for placing house icons. */
  function BoardSide(idx: int): Side
  {
    if 0 <= idx <= 6 then Bottom
    else if 7 <= idx <= 12 then Right
    else if 13 <= idx <= 19 then Top
    else Left
  }

  /** Position of a side along the counter-clockwise path that starts at GO. */
  function SideRank(s: Side): nat {
    match s
    case Bottom => 0
    case Right => 1
    case Top => 2
    case Left => 3
  }

  /** Walking the board from GO, the side never goes back: each edge is one run of tiles. */
  lemma SidesFollowThePath(i: int, j: int)
    requires 0 <= i <= j < BoardSpaces
    ensures SideRank(BoardSide(i)) <= SideRank(BoardSide(j))
    ensures BoardSide(0) == Bottom && BoardSide(BoardSpaces - 1) == Left
  {
  }
}
