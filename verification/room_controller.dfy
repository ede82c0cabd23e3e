/**
 * The room endpoints that do more than pass data through: field resolution in
 * `createRoom`, the optional-field patch of `updateCategory`, and the booking
 * cleanup of `deleteRoom`. The store is a pair of id-keyed maps and a booking
 * list; request fields are already numbers or strings.
 */
module RoomController {
  import opened Common
  import opened Catalog

  /** JavaScript truthiness of an optional number: present and non-zero. */
  predicate NumTruthy(x: Option<int>)
  {
    x.Some? && x.value != 0
  }

  /** JavaScript truthiness of an optional string: present and non-empty. */
  predicate StrTruthy(s: Option<string>)
  {
    s.Some? && s.value != ""
  }

  /** `a || b` on optional numbers, with `0` as the final fallback (`Number(x || 0)`). */
  function OrElse(x: Option<int>, fallback: int): (r: int)
    ensures NumTruthy(x) ==> r == x.value
    ensures !NumTruthy(x) ==> r == fallback
  {
    if NumTruthy(x) then x.value else fallback
  }

  /** The body of a `POST /rooms` request; any field may be missing. */
  datatype CreateRoomRequest = CreateRoomRequest(
    categoryId: Option<string>,
    number: string,
    status: Option<string>,
    description: Option<string>,
    price: Option<int>,
    capacity: Option<int>)

  /** The category a request refers to, when it names one that exists. */
  function RequestCategory(req: CreateRoomRequest, categories: map<string, RoomCategory>): (c: Option<RoomCategory>)
    ensures c.Some? <==> StrTruthy(req.categoryId) && req.categoryId.value in categories
    ensures c.Some? ==> c.value == categories[req.categoryId.value]
  {
    if StrTruthy(req.categoryId) && req.categoryId.value in categories
    then Some(categories[req.categoryId.value])
    else None
  }

  /**
   * `createRoom`: the stored room. Status falls back to AVAILABLE; a supplied
   * non-zero price or capacity wins, then the category's value, then 0; the
   * type is the category's name, or empty without a category.
   */
  function CreateRoom(req: CreateRoomRequest, categories: map<string, RoomCategory>): (room: Room)
    ensures room.number == req.number && room.description == req.description
    ensures room.categoryId == req.categoryId
    ensures StrTruthy(req.status) ==> room.status == req.status.value
    ensures !StrTruthy(req.status) ==> room.status == AVAILABLE
    ensures NumTruthy(req.price) ==> room.price == req.price.value
    ensures NumTruthy(req.capacity) ==> room.capacity == req.capacity.value
    ensures RequestCategory(req, categories).Some? ==>
              var cat := RequestCategory(req, categories).value;
              && (!NumTruthy(req.price) ==> room.price == cat.price)
              && (!NumTruthy(req.capacity) ==> room.capacity == cat.capacity)
              && room.roomType == cat.name
    ensures RequestCategory(req, categories).None? ==>
              && (!NumTruthy(req.price) ==> room.price == 0)
              && (!NumTruthy(req.capacity) ==> room.capacity == 0)
              && room.roomType == ""
  {
    var category := RequestCategory(req, categories);
    var price := if category.Some? then Some(OrElse(req.price, category.value.price)) else req.price;
    var capacity := if category.Some? then Some(OrElse(req.capacity, category.value.capacity)) else req.capacity;
    var roomType := if category.Some? then category.value.name else "";
    Room(
      req.number,
      if StrTruthy(req.status) then req.status.value else AVAILABLE,
      req.description,
      OrElse(price, 0),
      OrElse(capacity, 0),
      req.categoryId,
      roomType)
  }

  /**
   * A room created in an existing category with only a number and no
   * overrides is an available room that takes its type, price and capacity
   * from the category.
   */
  lemma BareRoomInheritsCategory(categories: map<string, RoomCategory>, categoryId: string, number: string)
    requires categoryId != "" && categoryId in categories
    ensures var room := CreateRoom(CreateRoomRequest(Some(categoryId), number, None, None, None, None), categories);
            var cat := categories[categoryId];
            && room.status == AVAILABLE
            && room.price == cat.price && room.capacity == cat.capacity && room.roomType == cat.name
  {
  }

  /** Only a supplied zero is overridden by the category: a zero price is as good as none. */
  lemma ZeroPriceTakesCategoryPrice(req: CreateRoomRequest, categories: map<string, RoomCategory>)
    requires req.price == Some(0)
    ensures CreateRoom(req, categories).price == CreateRoom(req.(price := None), categories).price
  {
  }

  /** The fields a `PUT /rooms/categories/:id` request may carry. */
  datatype CategoryPatch = CategoryPatch(
    images: Option<seq<string>>,
    features: Option<seq<string>>,
    price: Option<int>,
    capacity: Option<int>)

  /** A field the request leaves undefined keeps its stored value. */
  function Patched<T>(stored: T, supplied: Option<T>): (r: T)
    ensures supplied.Some? ==> r == supplied.value
    ensures supplied.None? ==> r == stored
  {
    if supplied.Some? then supplied.value else stored
  }

  function ApplyPatch(cat: RoomCategory, patch: CategoryPatch): (r: RoomCategory)
    ensures r.id == cat.id && r.name == cat.name && r.rooms == cat.rooms
    ensures r.images == Patched(cat.images, patch.images)
    ensures r.features == Patched(cat.features, patch.features)
    ensures r.price == Patched(cat.price, patch.price)
    ensures r.capacity == Patched(cat.capacity, patch.capacity)
  {
    cat.(images := Patched(cat.images, patch.images),
         features := Patched(cat.features, patch.features),
         price := Patched(cat.price, patch.price),
         capacity := Patched(cat.capacity, patch.capacity))
  }

  /**
   * `updateCategory`: fails when the id is unknown; otherwise patches that
   * one category and leaves every other one alone.
   */
  function UpdateCategory(categories: map<string, RoomCategory>, id: string, patch: CategoryPatch)
    : (r: Option<map<string, RoomCategory>>)
    ensures r.None? <==> id !in categories
    ensures r.Some? ==> r.value.Keys == categories.Keys
    ensures r.Some? ==> r.value[id] == ApplyPatch(categories[id], patch)
    ensures r.Some? ==> forall k :: k in categories && k != id ==> r.value[k] == categories[k]
  {
    if id in categories then Some(categories[id := ApplyPatch(categories[id], patch)]) else None
  }

  /** Sending the same update twice has the effect of sending it once. */
  lemma UpdateCategoryIdempotent(categories: map<string, RoomCategory>, id: string, patch: CategoryPatch)
    requires id in categories
    ensures UpdateCategory(UpdateCategory(categories, id, patch).value, id, patch) == UpdateCategory(categories, id, patch)
  {
    var once := UpdateCategory(categories, id, patch).value;
    assert once[id := ApplyPatch(once[id], patch)] == once;
  }

  /** An update that defines no field changes nothing. */
  lemma EmptyPatchChangesNothing(categories: map<string, RoomCategory>, id: string)
    requires id in categories
    ensures UpdateCategory(categories, id, CategoryPatch(None, None, None, None)) == Some(categories)
  {
    assert categories[id := categories[id]] == categories;
  }

  datatype RoomBooking = RoomBooking(id: string, roomId: string, cruiseId: string)

  /** The part of the store the room endpoints touch: rooms by id and the room bookings. */
  datatype Store = Store(rooms: map<string, Room>, bookings: seq<RoomBooking>)

  predicate ReferencesRoom(bookings: seq<RoomBooking>, roomId: string)
  {
    exists i :: 0 <= i < |bookings| && bookings[i].roomId == roomId
  }

  /** `roomBooking.deleteMany({ where: { roomId } })`: the other bookings, in order. */
  function DeleteBookingsOf(bookings: seq<RoomBooking>, roomId: string): (r: seq<RoomBooking>)
    ensures forall b :: b in r <==> b in bookings && b.roomId != roomId
    ensures IsSubsequence(r, bookings)
    decreases |bookings|
  {
    if |bookings| == 0 then []
    else
      var init := bookings[..|bookings| - 1];
      var last := bookings[|bookings| - 1];
      var rest := DeleteBookingsOf(init, roomId);
      assert bookings == init + [last];
      if last.roomId == roomId then
        SubsequenceOfInit(rest, bookings);
        rest
      else
        assert (rest + [last])[..|rest|] == rest;
        rest + [last]
  }

  /** Deleting bookings of a room nobody booked changes nothing. */
  lemma {:induction false} DeleteUnbookedIsIdentity(bookings: seq<RoomBooking>, roomId: string)
    requires !ReferencesRoom(bookings, roomId)
    ensures DeleteBookingsOf(bookings, roomId) == bookings
    decreases |bookings|
  {
    if |bookings| > 0 {
      var init := bookings[..|bookings| - 1];
      var last := bookings[|bookings| - 1];
      assert last.roomId != roomId;
      assert !ReferencesRoom(init, roomId) by {
        forall i | 0 <= i < |init|
          ensures init[i].roomId != roomId
        {
          assert init[i] == bookings[i];
        }
      }
      DeleteUnbookedIsIdentity(init, roomId);
      assert bookings == init + [last];
    }
  }

  /** What `deleteRoom` leaves behind, and whether the room itself was found. */
  datatype DeleteResult = DeleteResult(store: Store, deleted: bool)

  /**
   * `deleteRoom`: the room's bookings go first (only when there are any),
   * then the room. An unknown id fails at the second step, after the
   * bookings step has run.
   */
  function DeleteRoom(store: Store, id: string): (r: DeleteResult)
    ensures r.deleted <==> id in store.rooms
    ensures !ReferencesRoom(r.store.bookings, id)
    ensures forall b :: b in store.bookings && b.roomId != id ==> b in r.store.bookings
    ensures IsSubsequence(r.store.bookings, store.bookings)
    ensures id !in r.store.rooms
    ensures r.store.rooms == store.rooms - {id}
  {
    var bookings := if ReferencesRoom(store.bookings, id) then DeleteBookingsOf(store.bookings, id) else store.bookings;
    SubsequenceReflexive(store.bookings);
    if id in store.rooms then DeleteResult(Store(store.rooms - {id}, bookings), true)
    else
      assert store.rooms - {id} == store.rooms;
      DeleteResult(Store(store.rooms, bookings), false)
  }

  /** A second delete of the same room finds nothing and changes nothing. */
  lemma DeleteRoomTwice(store: Store, id: string)
    ensures var once := DeleteRoom(store, id);
            var twice := DeleteRoom(once.store, id);
            !twice.deleted && twice.store == once.store
  {
    var once := DeleteRoom(store, id);
    assert once.store.rooms - {id} == once.store.rooms;
  }

  /** Deleting a room leaves the bookings of every other room in place. */
  lemma DeleteKeepsOtherBookings(store: Store, id: string, b: RoomBooking)
    requires b in store.bookings && b.roomId != id
    ensures b in DeleteRoom(store, id).store.bookings
  {
  }
}
