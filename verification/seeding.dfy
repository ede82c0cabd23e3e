/**
 * The two rules both seed scripts rely on: a room category is upserted by
 * name with an empty update (an existing one is never overwritten), and
 * other records are inserted only when no record with the same key exists.
 */
module Seeding {
  import opened Common
  import opened Catalog

  /** A category as a seed script lists it. */
  datatype CategorySeed = CategorySeed(name: string, price: int, capacity: int, features: seq<string>, images: seq<string>)

  predicate HasCategoryNamed(categories: seq<RoomCategory>, name: string)
  {
    exists i :: 0 <= i < |categories| && categories[i].name == name
  }

  /**
   * `roomCategory.upsert({ where: { name }, update: {}, create })`: the stored
   * categories afterwards, and the category the call returns. `newId` stands
   * for the id the store would assign to a created category.
   */
  function UpsertCategory(categories: seq<RoomCategory>, seed: CategorySeed, newId: string)
    : (r: (seq<RoomCategory>, RoomCategory))
    ensures HasCategoryNamed(categories, seed.name) ==>
              r.0 == categories && r.1 in categories && r.1.name == seed.name
    ensures !HasCategoryNamed(categories, seed.name) ==>
              && r.0 == categories + [r.1]
              && r.1 == RoomCategory(newId, seed.name, seed.price, seed.capacity, seed.features, seed.images, [])
  {
    match FindFrom(categories, seed.name, 0)
    case Some(i) => (categories, categories[i])
    case None =>
      var created := RoomCategory(newId, seed.name, seed.price, seed.capacity, seed.features, seed.images, []);
      (categories + [created], created)
  }

  /** Running the upsert again leaves the categories as the first run left them. */
  lemma UpsertCategoryIdempotent(categories: seq<RoomCategory>, seed: CategorySeed, newId: string, otherId: string)
    ensures var once := UpsertCategory(categories, seed, newId).0;
            UpsertCategory(once, seed, otherId).0 == once
  {
    var once := UpsertCategory(categories, seed, newId).0;
    if !HasCategoryNamed(categories, seed.name) {
      assert once[|categories|].name == seed.name;
    }
  }

  /** Some stored record has key `k`. */
  predicate HasKey<T, K(==)>(store: seq<T>, key: T -> K, k: K)
  {
    exists i :: 0 <= i < |store| && key(store[i]) == k
  }

  /** `findFirst({ where: key })`, then `create` only when nothing was found. */
  function InsertIfAbsent<T, K(==)>(store: seq<T>, item: T, key: T -> K): (r: seq<T>)
    ensures HasKey(store, key, key(item)) ==> r == store
    ensures !HasKey(store, key, key(item)) ==> r == store + [item]
  {
    if HasKey(store, key, key(item)) then store else store + [item]
  }

  /** The seed loop: `InsertIfAbsent` for each item, in order. */
  function InsertAllIfAbsent<T, K(==)>(store: seq<T>, items: seq<T>, key: T -> K): (r: seq<T>)
    ensures |store| <= |r| <= |store| + |items| && r[..|store|] == store
    ensures forall j :: 0 <= j < |items| ==> HasKey(r, key, key(items[j]))
    ensures forall k :: |store| <= k < |r| ==> !HasKey(r[..k], key, key(r[k]))
    decreases |items|
  {
    if |items| == 0 then store
    else
      var init := items[..|items| - 1];
      var last := items[|items| - 1];
      var rest := InsertAllIfAbsent(store, init, key);
      var r := InsertIfAbsent(rest, last, key);
      assert forall j :: 0 <= j < |init| ==> init[j] == items[j];
      assert HasKey(r, key, key(last)) by {
        if !HasKey(rest, key, key(last)) {
          assert r[|rest|] == last;
        }
      }
      assert forall j :: 0 <= j < |init| ==> HasKey(r, key, key(items[j])) by {
        forall j | 0 <= j < |init|
          ensures HasKey(r, key, key(items[j]))
        {
          assert HasKey(rest, key, key(init[j]));
          var i :| 0 <= i < |rest| && key(rest[i]) == key(init[j]);
          assert r[i] == rest[i];
        }
      }
      assert forall k :: |store| <= k < |r| ==> !HasKey(r[..k], key, key(r[k])) by {
        forall k | |store| <= k < |r|
          ensures !HasKey(r[..k], key, key(r[k]))
        {
          if k < |rest| {
            assert r[..k] == rest[..k] && r[k] == rest[k];
          } else {
            assert r[..k] == rest && r[k] == last;
          }
        }
      }
      r
  }

  /**
   * No record the seed loop adds shares its key with a stored record or with
   * another added record: an item whose key exists is skipped.
   */
  lemma AddedKeysAreNew<T, K>(store: seq<T>, items: seq<T>, key: T -> K)
    ensures var r := InsertAllIfAbsent(store, items, key);
            forall k :: |store| <= k < |r| ==> !HasKey(store, key, key(r[k]))
    ensures var r := InsertAllIfAbsent(store, items, key);
            forall k, l :: |store| <= k < l < |r| ==> key(r[k]) != key(r[l])
  {
    var r := InsertAllIfAbsent(store, items, key);
    forall k | |store| <= k < |r|
      ensures !HasKey(store, key, key(r[k]))
    {
      assert !HasKey(r[..k], key, key(r[k]));
      assert forall i :: 0 <= i < |store| ==> r[..k][i] == store[i];
    }
    forall k, l | |store| <= k < l < |r|
      ensures key(r[k]) != key(r[l])
    {
      assert r[..l][k] == r[k];
      assert !HasKey(r[..l], key, key(r[l]));
    }
  }

  /** When every item's key is already stored, the seed loop inserts nothing. */
  lemma {:induction false} AllPresentInsertsNothing<T, K>(store: seq<T>, items: seq<T>, key: T -> K)
    requires forall j :: 0 <= j < |items| ==> HasKey(store, key, key(items[j]))
    ensures InsertAllIfAbsent(store, items, key) == store
    decreases |items|
  {
    if |items| > 0 {
      var init := items[..|items| - 1];
      assert forall j :: 0 <= j < |init| ==> init[j] == items[j];
      AllPresentInsertsNothing(store, init, key);
      assert HasKey(store, key, key(items[|items| - 1]));
    }
  }

  /** A second run of the seed loop adds no records. */
  lemma InsertAllIdempotent<T, K>(store: seq<T>, items: seq<T>, key: T -> K)
    ensures InsertAllIfAbsent(InsertAllIfAbsent(store, items, key), items, key)
            == InsertAllIfAbsent(store, items, key)
  {
    AllPresentInsertsNothing(InsertAllIfAbsent(store, items, key), items, key);
  }

  /** Every record the seed loop adds comes from the seed list. */
  lemma {:induction false} InsertedComeFromItems<T, K>(store: seq<T>, items: seq<T>, key: T -> K, i: int)
    requires |store| <= i < |InsertAllIfAbsent(store, items, key)|
    ensures InsertAllIfAbsent(store, items, key)[i] in items
    decreases |items|
  {
    if |items| > 0 {
      var init := items[..|items| - 1];
      var rest := InsertAllIfAbsent(store, init, key);
      if i < |rest| {
        InsertedComeFromItems(store, init, key, i);
        assert rest[i] in init;
      }
    }
  }
}
