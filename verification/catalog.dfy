/**
 * The entities the forms read from the API (room categories with their rooms,
 * staff, activities), the category lookup `getCategoryDetails`, and the
 * "sum over the selected ids" rule used for staff and activity costs.
 */
module Catalog {
  import opened Common
  import Selection

  /** A numeric field after JavaScript's `Number(...)`: an integer, or NaN. */
  datatype Amount = Num(n: int) | NotANumber

  /** A room as stored; its id is assigned by the store and kept outside. */
  datatype Room = Room(
    number: string,
    status: string,
    description: Option<string>,
    price: int,
    capacity: int,
    categoryId: Option<string>,
    roomType: string)

  /** A room category as the API returns it, with its rooms included. */
  datatype RoomCategory = RoomCategory(
    id: string,
    name: string,
    price: int,
    capacity: int,
    features: seq<string>,
    images: seq<string>,
    rooms: seq<Room>)

  datatype Staff = Staff(id: string, name: string, role: string, designation: string, salary: Amount)

  datatype Activity = Activity(
    id: string,
    name: string,
    description: string,
    activityType: string,
    managerName: string,
    managerContact: string,
    cost: int)

  /** The only status the forms count as bookable. */
  const AVAILABLE: string := "AVAILABLE"

  /** Position of the first category called `name`, as `Array.prototype.find` picks it. */
  function FindFrom(categories: seq<RoomCategory>, name: string, k: nat): (r: Option<nat>)
    requires k <= |categories|
    ensures r.Some? ==> k <= r.value < |categories| && categories[r.value].name == name
    ensures r.Some? ==> forall j :: k <= j < r.value ==> categories[j].name != name
    ensures r.None? ==> forall j :: k <= j < |categories| ==> categories[j].name != name
    decreases |categories| - k
  {
    if k == |categories| then None
    else if categories[k].name == name then Some(k)
    else FindFrom(categories, name, k + 1)
  }

  /** `rooms.filter(r => r.status === 'AVAILABLE').length`: an exact, case-sensitive match. */
  function CountAvailable(rooms: seq<Room>): (r: nat)
    ensures r <= |rooms|
    decreases |rooms|
  {
    if |rooms| == 0 then 0
    else CountAvailable(rooms[..|rooms| - 1]) + (if rooms[|rooms| - 1].status == AVAILABLE then 1 else 0)
  }

  /** No room is counted exactly when none is AVAILABLE, and all are exactly when all are. */
  lemma {:induction false} CountAvailableExtremes(rooms: seq<Room>)
    ensures CountAvailable(rooms) == 0 <==> forall i :: 0 <= i < |rooms| ==> rooms[i].status != AVAILABLE
    ensures CountAvailable(rooms) == |rooms| <==> forall i :: 0 <= i < |rooms| ==> rooms[i].status == AVAILABLE
    decreases |rooms|
  {
    if |rooms| > 0 {
      var init := rooms[..|rooms| - 1];
      CountAvailableExtremes(init);
      assert forall i :: 0 <= i < |init| ==> init[i] == rooms[i];
    }
  }

  lemma {:induction false} CountAvailableAppend(a: seq<Room>, b: seq<Room>)
    ensures CountAvailable(a + b) == CountAvailable(a) + CountAvailable(b)
    decreases |b|
  {
    if |b| == 0 {
      assert a + b == a;
    } else {
      assert (a + b)[..|a + b| - 1] == a + b[..|b| - 1];
      CountAvailableAppend(a, b[..|b| - 1]);
    }
  }

  /** `categories[i]` is the first category called `name`. */
  predicate FirstNamed(categories: seq<RoomCategory>, name: string, i: int)
  {
    && 0 <= i < |categories|
    && categories[i].name == name
    && forall j :: 0 <= j < i ==> categories[j].name != name
  }

  /** What `getCategoryDetails` reports for one category name. */
  datatype CategoryDetails = CategoryDetails(price: int, capacity: int, available: nat, total: nat)

  /**
   * `getCategoryDetails(name)`: the first category with that name supplies its
   * price, capacity, available-room count and room count; a missing category
   * reports zero for all four.
   */
  function GetCategoryDetails(categories: seq<RoomCategory>, name: string): (d: CategoryDetails)
    ensures (forall c :: c in categories ==> c.name != name) ==> d == CategoryDetails(0, 0, 0, 0)
    ensures d.available <= d.total
    decreases |categories|
  {
    if |categories| == 0 then CategoryDetails(0, 0, 0, 0)
    else if categories[0].name == name then
      var c := categories[0];
      CategoryDetails(c.price, c.capacity, CountAvailable(c.rooms), |c.rooms|)
    else
      assert forall c :: c in categories[1..] ==> c in categories;
      GetCategoryDetails(categories[1..], name)
  }

  /** When some category carries the name, the first one supplies all four figures. */
  lemma {:induction false} DetailsOfFirstNamed(categories: seq<RoomCategory>, name: string, i: int)
    requires FirstNamed(categories, name, i)
    ensures var d := GetCategoryDetails(categories, name);
            && d.price == categories[i].price
            && d.capacity == categories[i].capacity
            && d.available == CountAvailable(categories[i].rooms)
            && d.total == |categories[i].rooms|
    decreases i
  {
    if i > 0 {
      assert categories[0].name != name;
      var rest := categories[1..];
      assert forall j :: 0 <= j < i - 1 ==> rest[j] == categories[j + 1];
      DetailsOfFirstNamed(rest, name, i - 1);
    }
  }

  /** An id together with the amount it contributes to a cost when selected. */
  datatype Priced = Priced(id: string, amount: int)

  predicate DistinctIds(items: seq<Priced>)
  {
    forall i, j :: 0 <= i < j < |items| ==> items[i].id != items[j].id
  }

  /**
   * `items.filter(x => selected.includes(x.id)).reduce((acc, x) => acc + x.amount, 0)`:
   * the catalogue decides what is summed, the selection only which entries.
   */
  function SelectedTotal(items: seq<Priced>, selected: seq<string>): (r: int)
    ensures |selected| == 0 ==> r == 0
    ensures (forall i :: 0 <= i < |items| ==> items[i].amount >= 0) ==> r >= 0
    decreases |items|
  {
    if |items| == 0 then 0
    else
      var last := items[|items| - 1];
      SelectedTotal(items[..|items| - 1], selected) + (if last.id in selected then last.amount else 0)
  }

  /** The total depends only on which ids are selected: order and repetition do not matter. */
  lemma {:induction false} SelectedTotalSameIds(items: seq<Priced>, a: seq<string>, b: seq<string>)
    requires forall x :: x in a <==> x in b
    ensures SelectedTotal(items, a) == SelectedTotal(items, b)
    decreases |items|
  {
    if |items| > 0 {
      SelectedTotalSameIds(items[..|items| - 1], a, b);
    }
  }

  /** Selecting an id that no catalogue entry carries adds nothing. */
  lemma {:induction false} SelectedTotalUnknownId(items: seq<Priced>, selected: seq<string>, id: string)
    requires forall i :: 0 <= i < |items| ==> items[i].id != id
    ensures SelectedTotal(items, selected + [id]) == SelectedTotal(items, selected)
    decreases |items|
  {
    if |items| > 0 {
      SelectedTotalUnknownId(items[..|items| - 1], selected, id);
    }
  }

  /**
   * Toggling on the id of entry `k` (ids distinct) raises the total by exactly
   * that entry's amount.
   */
  lemma {:induction false} SelectedTotalToggleOn(items: seq<Priced>, selected: seq<string>, k: nat)
    requires DistinctIds(items) && k < |items|
    requires items[k].id !in selected
    ensures SelectedTotal(items, Selection.Toggle(selected, items[k].id))
            == SelectedTotal(items, selected) + items[k].amount
    decreases |items|
  {
    var id := items[k].id;
    var init := items[..|items| - 1];
    if k == |items| - 1 {
      SelectedTotalUnknownId(init, selected, id);
    } else {
      SelectedTotalToggleOn(init, selected, k);
    }
  }

  /**
   * Toggling off the id of entry `k` (ids distinct) lowers the total by exactly
   * that entry's amount, however many times the id was selected.
   */
  lemma {:induction false} SelectedTotalToggleOff(items: seq<Priced>, selected: seq<string>, k: nat)
    requires DistinctIds(items) && k < |items|
    requires items[k].id in selected
    ensures SelectedTotal(items, Selection.Toggle(selected, items[k].id))
            == SelectedTotal(items, selected) - items[k].amount
    decreases |items|
  {
    var id := items[k].id;
    var init := items[..|items| - 1];
    if k == |items| - 1 {
      SelectedTotalOthersUnchanged(init, selected, id);
    } else {
      SelectedTotalToggleOff(init, selected, k);
    }
  }

  /** Deselecting an id no entry carries leaves the total as it was. */
  lemma {:induction false} SelectedTotalOthersUnchanged(items: seq<Priced>, selected: seq<string>, id: string)
    requires forall i :: 0 <= i < |items| ==> items[i].id != id
    ensures SelectedTotal(items, Selection.RemoveAll(selected, id)) == SelectedTotal(items, selected)
    decreases |items|
  {
    if |items| > 0 {
      SelectedTotalOthersUnchanged(items[..|items| - 1], selected, id);
    }
  }

  /** `Number(s.salary) || 0`: NaN and zero both become zero. */
  function SalaryValue(a: Amount): (r: int)
    ensures r == 0 <==> a == NotANumber || a == Num(0)
    ensures a.Num? ==> r == a.n
  {
    match a
    case Num(n) => n
    case NotANumber => 0
  }

  /** Staff as priced entries: each contributes its salary. */
  function StaffPrices(staff: seq<Staff>): (r: seq<Priced>)
    ensures |r| == |staff|
    ensures forall i :: 0 <= i < |staff| ==> r[i] == Priced(staff[i].id, SalaryValue(staff[i].salary))
  {
    seq(|staff|, i requires 0 <= i < |staff| => Priced(staff[i].id, SalaryValue(staff[i].salary)))
  }

  /** Activities as priced entries: each contributes its cost. */
  function ActivityPrices(activities: seq<Activity>): (r: seq<Priced>)
    ensures |r| == |activities|
    ensures forall i :: 0 <= i < |activities| ==> r[i] == Priced(activities[i].id, activities[i].cost)
  {
    seq(|activities|, i requires 0 <= i < |activities| => Priced(activities[i].id, activities[i].cost))
  }
}
