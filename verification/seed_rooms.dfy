/**
 * The room seed script: upsert the four categories by name, then top every
 * category up to 25 rooms, numbering new rooms from where the count stands.
 */
module SeedRooms {
  import opened Common
  import opened Catalog
  import Decimal
  import Seeding

  /** Every category is topped up to this many rooms. */
  const TargetRooms: int := 25

  /** The room-number prefix of a category; unknown names get `N`. */
  function Prefix(name: string): (p: string)
    ensures name == "Deluxe" <==> p == "D"
    ensures name == "Premium Gold" <==> p == "PG"
    ensures name == "Premium Silver" <==> p == "PS"
    ensures name != "Deluxe" && name != "Premium Gold" && name != "Premium Silver" <==> p == "N"
  {
    if name == "Deluxe" then "D"
    else if name == "Premium Gold" then "PG"
    else if name == "Premium Silver" then "PS"
    else "N"
  }

  /** `getNextRoomNumber(prefix, index)`: the prefix followed by `100 + index` in decimal. */
  function RoomNumber(prefix: string, index: int): (r: string)
    ensures prefix < r
  {
    prefix + Decimal.IntToString(100 + index)
  }

  /** Different indexes give different room numbers under one prefix. */
  lemma RoomNumberInjective(prefix: string, i: int, j: int)
    requires RoomNumber(prefix, i) == RoomNumber(prefix, j)
    ensures i == j
  {
    var a := RoomNumber(prefix, i);
    assert a[|prefix|..] == Decimal.IntToString(100 + i);
    assert RoomNumber(prefix, j)[|prefix|..] == Decimal.IntToString(100 + j);
    Decimal.IntToStringInjective(100 + i, 100 + j);
  }

  /** `room.count({ where: { categoryId } })`. */
  function CountInCategory(rooms: seq<Room>, categoryId: string): (n: nat)
    ensures n <= |rooms|
    decreases |rooms|
  {
    if |rooms| == 0 then 0
    else CountInCategory(rooms[..|rooms| - 1], categoryId)
         + (if rooms[|rooms| - 1].categoryId == Some(categoryId) then 1 else 0)
  }

  lemma {:induction false} CountInCategoryAppend(a: seq<Room>, b: seq<Room>, categoryId: string)
    ensures CountInCategory(a + b, categoryId) == CountInCategory(a, categoryId) + CountInCategory(b, categoryId)
    decreases |b|
  {
    if |b| == 0 {
      assert a + b == a;
    } else {
      assert (a + b)[..|a + b| - 1] == a + b[..|b| - 1];
      CountInCategoryAppend(a, b[..|b| - 1], categoryId);
    }
  }

  /** The `roomsData` built for a category that holds `existingCount` rooms. */
  function NewRooms(category: RoomCategory, existingCount: int): (r: seq<Room>)
    ensures existingCount >= TargetRooms ==> r == []
    ensures existingCount < TargetRooms ==> existingCount + |r| == TargetRooms
    ensures forall i :: 0 <= i < |r| ==>
              && r[i].status == AVAILABLE && r[i].description.None?
              && r[i].roomType == category.name && r[i].categoryId == Some(category.id)
              && r[i].price == category.price && r[i].capacity == category.capacity
  {
    var needed := if existingCount < TargetRooms then TargetRooms - existingCount else 0;
    seq(needed, i requires 0 <= i < needed =>
      Room(RoomNumber(Prefix(category.name), existingCount + i + 1), AVAILABLE, None,
           category.price, category.capacity, Some(category.id), category.name))
  }

  /**
   * The i-th new room (from 0) is numbered `existingCount + i + 1` under the
   * category's prefix, so the numbers of one top-up are pairwise distinct.
   */
  lemma NewRoomNumbersDistinct(category: RoomCategory, existingCount: int)
    ensures var r := NewRooms(category, existingCount);
            forall i :: 0 <= i < |r| ==> r[i].number == RoomNumber(Prefix(category.name), existingCount + i + 1)
    ensures var r := NewRooms(category, existingCount);
            forall i, j :: 0 <= i < j < |r| ==> r[i].number != r[j].number
  {
    var r := NewRooms(category, existingCount);
    forall i, j | 0 <= i < j < |r|
      ensures r[i].number != r[j].number
    {
      if r[i].number == r[j].number {
        RoomNumberInjective(Prefix(category.name), existingCount + i + 1, existingCount + j + 1);
      }
    }
  }

  /** Every room of a top-up belongs to the topped-up category. */
  lemma {:induction false} NewRoomsCount(category: RoomCategory, existingCount: int, k: nat)
    requires k <= |NewRooms(category, existingCount)|
    ensures CountInCategory(NewRooms(category, existingCount)[..k], category.id) == k
    decreases k
  {
    if k > 0 {
      var r := NewRooms(category, existingCount);
      assert r[..k][..k - 1] == r[..k - 1];
      NewRoomsCount(category, existingCount, k - 1);
    }
  }

  /** One pass of the loop body for a category already upserted: count, then top up. */
  function TopUp(rooms: seq<Room>, category: RoomCategory): (r: seq<Room>)
    ensures |rooms| <= |r| && r[..|rooms|] == rooms
  {
    rooms + NewRooms(category, CountInCategory(rooms, category.id))
  }

  /** After a top-up the category holds 25 rooms, or as many as it had if that was more. */
  lemma TopUpReachesTarget(rooms: seq<Room>, category: RoomCategory)
    ensures var before := CountInCategory(rooms, category.id);
            CountInCategory(TopUp(rooms, category), category.id)
            == if before < TargetRooms then TargetRooms else before
  {
    var added := NewRooms(category, CountInCategory(rooms, category.id));
    CountInCategoryAppend(rooms, added, category.id);
    NewRoomsCount(category, CountInCategory(rooms, category.id), |added|);
    assert added[..|added|] == added;
  }

  /** A category that already holds 25 or more rooms gets none. */
  lemma FullCategoryGetsNothing(rooms: seq<Room>, category: RoomCategory)
    requires CountInCategory(rooms, category.id) >= TargetRooms
    ensures TopUp(rooms, category) == rooms
  {
    assert rooms + [] == rooms;
  }

  /** A second top-up of the same category adds nothing. */
  lemma TopUpIdempotent(rooms: seq<Room>, category: RoomCategory)
    ensures TopUp(TopUp(rooms, category), category) == TopUp(rooms, category)
  {
    TopUpReachesTarget(rooms, category);
    FullCategoryGetsNothing(TopUp(rooms, category), category);
  }

  /** A top-up leaves every other category's room count as it was. */
  lemma TopUpLeavesOthers(rooms: seq<Room>, category: RoomCategory, otherId: string)
    requires otherId != category.id
    ensures CountInCategory(TopUp(rooms, category), otherId) == CountInCategory(rooms, otherId)
  {
    var added := NewRooms(category, CountInCategory(rooms, category.id));
    CountInCategoryAppend(rooms, added, otherId);
    NoneInOther(added, category.id, otherId, |added|);
    assert added[..|added|] == added;
  }

  lemma {:induction false} NoneInOther(rooms: seq<Room>, categoryId: string, otherId: string, k: nat)
    requires otherId != categoryId && k <= |rooms|
    requires forall i :: 0 <= i < |rooms| ==> rooms[i].categoryId == Some(categoryId)
    ensures CountInCategory(rooms[..k], otherId) == 0
    decreases k
  {
    if k > 0 {
      assert rooms[..k][..k - 1] == rooms[..k - 1];
      NoneInOther(rooms, categoryId, otherId, k - 1);
    }
  }

  /**
   * One iteration of the script's loop: upsert the category by name (an
   * existing one is kept as stored), then top it up. `newId` stands for the
   * id the store assigns to a created category.
   */
  function SeedCategory(categories: seq<RoomCategory>, rooms: seq<Room>, seed: Seeding.CategorySeed, newId: string)
    : (r: (seq<RoomCategory>, seq<Room>))
    ensures Seeding.HasCategoryNamed(categories, seed.name) ==> r.0 == categories
    ensures |rooms| <= |r.1| && r.1[..|rooms|] == rooms
  {
    var (cats, category) := Seeding.UpsertCategory(categories, seed, newId);
    (cats, TopUp(rooms, category))
  }

  /** Seeding a category twice in a row leaves what seeding it once left. */
  lemma SeedCategoryIdempotent(categories: seq<RoomCategory>, rooms: seq<Room>, seed: Seeding.CategorySeed,
                               newId: string, otherId: string)
    ensures var once := SeedCategory(categories, rooms, seed, newId);
            SeedCategory(once.0, once.1, seed, otherId) == once
  {
    var (cats, category) := Seeding.UpsertCategory(categories, seed, newId);
    Seeding.UpsertCategoryIdempotent(categories, seed, newId, otherId);
    var again := Seeding.UpsertCategory(cats, seed, otherId).1;
    assert again == category by {
      assert Seeding.HasCategoryNamed(cats, seed.name) by {
        assert category in cats && category.name == seed.name;
      }
      FirstNamedIsStable(categories, cats, seed, newId);
    }
    TopUpIdempotent(rooms, category);
  }

  /** The category an upsert returns is the one a repeated upsert returns. */
  lemma FirstNamedIsStable(categories: seq<RoomCategory>, cats: seq<RoomCategory>, seed: Seeding.CategorySeed, newId: string)
    requires cats == Seeding.UpsertCategory(categories, seed, newId).0
    ensures forall otherId :: Seeding.UpsertCategory(cats, seed, otherId).1 == Seeding.UpsertCategory(categories, seed, newId).1
  {
    if FindFrom(categories, seed.name, 0).None? {
      var i := FindFrom(cats, seed.name, 0);
      assert cats[|categories|].name == seed.name;
      assert i.Some? && i.value == |categories|;
    }
  }
}
