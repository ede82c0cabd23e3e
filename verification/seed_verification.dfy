/**
 * The verification seed script: upsert four categories by name, create a
 * fixed range of numbered rooms per category unless a room with that number
 * exists, and insert staff and activities unless one with the same name
 * exists. Every step is safe to run again.
 */
module SeedVerification {
  import opened Common
  import opened Catalog
  import Decimal
  import Seeding
  import SeedRooms
  import Booking
  import TripForm

  /** The status this script writes, in mixed case. */
  const SeededStatus: string := "Available"

  /** The rooms `createRooms` tries to create, numbered `prefix + (100 + i)` for `i` in `1..count`. */
  function CandidateRooms(category: RoomCategory, prefix: string, count: int, status: string): (r: seq<Room>)
    ensures |r| == if count < 0 then 0 else count
    ensures forall i :: 0 <= i < |r| ==>
              && r[i].number == SeedRooms.RoomNumber(prefix, i + 1)
              && r[i].status == status && r[i].description.None?
              && r[i].categoryId == Some(category.id) && r[i].roomType == category.name
              && r[i].price == category.price && r[i].capacity == category.capacity
  {
    var n := if count < 0 then 0 else count;
    seq(n, i requires 0 <= i < n =>
      Room(SeedRooms.RoomNumber(prefix, i + 1), status, None, category.price, category.capacity,
           Some(category.id), category.name))
  }

  function RoomNumberOf(room: Room): string
  {
    room.number
  }

  /** Some stored room carries number `number`. */
  predicate HasRoomNumber(rooms: seq<Room>, number: string)
  {
    Seeding.HasKey(rooms, RoomNumberOf, number)
  }

  /**
   * `createRooms(catId, prefix, count, details)` with the status it is given:
   * each candidate is created unless some room already carries its number.
   */
  function CreateRoomsWithStatus(rooms: seq<Room>, category: RoomCategory, prefix: string, count: int, status: string)
    : (r: seq<Room>)
    ensures |rooms| <= |r| && r[..|rooms|] == rooms
    ensures forall k :: |rooms| <= k < |r| ==> r[k].status == status && r[k].categoryId == Some(category.id)
    ensures forall k :: |rooms| <= k < |r| ==> !HasRoomNumber(r[..k], r[k].number)
  {
    var candidates := CandidateRooms(category, prefix, count, status);
    var r := Seeding.InsertAllIfAbsent(rooms, candidates, RoomNumberOf);
    assert forall k :: |rooms| <= k < |r| ==> r[k].status == status && r[k].categoryId == Some(category.id) by {
      forall k | |rooms| <= k < |r|
        ensures r[k].status == status && r[k].categoryId == Some(category.id)
      {
        Seeding.InsertedComeFromItems(rooms, candidates, RoomNumberOf, k);
      }
    }
    r
  }

  /** After `createRooms` every number from `prefix + 101` to `prefix + (100 + count)` is taken. */
  lemma CreateRoomsCoversNumbers(rooms: seq<Room>, category: RoomCategory, prefix: string, count: int, status: string)
    ensures var r := CreateRoomsWithStatus(rooms, category, prefix, count, status);
            forall i :: 1 <= i <= count ==> HasRoomNumber(r, SeedRooms.RoomNumber(prefix, i))
  {
    var candidates := CandidateRooms(category, prefix, count, status);
    assert forall i :: 1 <= i <= count ==> RoomNumberOf(candidates[i - 1]) == SeedRooms.RoomNumber(prefix, i);
  }

  /** `createRooms` as the script runs it: new rooms get the mixed-case status. */
  function CreateRooms(rooms: seq<Room>, category: RoomCategory, prefix: string, count: int): (r: seq<Room>)
    ensures |rooms| <= |r| && r[..|rooms|] == rooms
    ensures forall k :: |rooms| <= k < |r| ==> r[k].status == SeededStatus
    ensures forall k :: |rooms| <= k < |r| ==> !HasRoomNumber(r[..k], r[k].number)
  {
    CreateRoomsWithStatus(rooms, category, prefix, count, SeededStatus)
  }

  /** A second run of `createRooms` creates no room. */
  lemma CreateRoomsIdempotent(rooms: seq<Room>, category: RoomCategory, prefix: string, count: int, status: string)
    ensures var once := CreateRoomsWithStatus(rooms, category, prefix, count, status);
            CreateRoomsWithStatus(once, category, prefix, count, status) == once
  {
    Seeding.InsertAllIdempotent(rooms, CandidateRooms(category, prefix, count, status), RoomNumberOf);
  }

  /** The rooms the script adds are never counted as available by the trip forms. */
  lemma SeededRoomsNeverCounted(rooms: seq<Room>, category: RoomCategory, prefix: string, count: int)
    ensures CountAvailable(CreateRooms(rooms, category, prefix, count)) == CountAvailable(rooms)
  {
    AddedRoomsCount(rooms, category, prefix, count, SeededStatus);
  }

  /**
   * The consequence in the trip planner: when the Deluxe category holds just
   * the rooms this script created, it has rooms, yet booking even one Deluxe
   * room trips the capacity check, which makes `handleSubmit` refuse.
   */
  lemma SeededDeluxeBookingRefused(form: TripForm.TripFormData, categories: seq<RoomCategory>, i: int,
                                   category: RoomCategory)
    requires FirstNamed(categories, "Deluxe", i)
    requires categories[i].rooms == CreateRooms([], category, "D", 20)
    requires form.roomsBooked.deluxe >= 1
    ensures Booking.Details(categories, Booking.Deluxe).total >= 1
    ensures Booking.Details(categories, Booking.Deluxe).available == 0
    ensures TripForm.IsCapacityExceeded(form, categories)
  {
    CreateRoomsCoversNumbers([], category, "D", 20, SeededStatus);
    assert HasRoomNumber(categories[i].rooms, SeedRooms.RoomNumber("D", 1));
    SeededRoomsNeverCounted([], category, "D", 20);
    DetailsOfFirstNamed(categories, "Deluxe", i);
    assert TripForm.TierExceeded(form, categories, Booking.Deluxe);
  }

  /**
   * The available count after `createRooms` grows by the number of rooms
   * added when the status is AVAILABLE, and not at all otherwise.
   */
  lemma AddedRoomsCount(rooms: seq<Room>, category: RoomCategory, prefix: string, count: int, status: string)
    ensures var r := CreateRoomsWithStatus(rooms, category, prefix, count, status);
            CountAvailable(r) == CountAvailable(rooms) + (if status == AVAILABLE then |r| - |rooms| else 0)
  {
    var r := CreateRoomsWithStatus(rooms, category, prefix, count, status);
    var added := r[|rooms|..];
    assert r == rooms + added;
    CountAvailableAppend(rooms, added);
    assert forall k :: 0 <= k < |added| ==> added[k].status == status by {
      forall k | 0 <= k < |added| ensures added[k].status == status {
        assert added[k] == r[|rooms| + k];
      }
    }
    CountAvailableExtremes(added);
  }

  /** `createRooms` with the status every other part of the system writes and counts. */
  function CreateAvailableRooms(rooms: seq<Room>, category: RoomCategory, prefix: string, count: int): (r: seq<Room>)
    ensures |rooms| <= |r| && r[..|rooms|] == rooms
    ensures forall k :: |rooms| <= k < |r| ==> r[k].status == AVAILABLE
    ensures forall k :: |rooms| <= k < |r| ==> !HasRoomNumber(r[..k], r[k].number)
  {
    CreateRoomsWithStatus(rooms, category, prefix, count, AVAILABLE)
  }

  /** With the corrected status, every room the script adds counts as available. */
  lemma SeededAvailableRoomsCounted(rooms: seq<Room>, category: RoomCategory, prefix: string, count: int)
    ensures var r := CreateAvailableRooms(rooms, category, prefix, count);
            CountAvailable(r) == CountAvailable(rooms) + (|r| - |rooms|)
  {
    AddedRoomsCount(rooms, category, prefix, count, AVAILABLE);
  }

  /** A staff member as this script lists it; the store assigns the id. */
  datatype StaffRecord = StaffRecord(name: string, role: string, designation: string, salary: int)

  /** An activity as this script lists it; the store assigns the id. */
  datatype ActivityRecord = ActivityRecord(
    name: string,
    description: string,
    activityType: string,
    managerName: string,
    managerContact: string,
    cost: int)

  const StaffSeeds: seq<StaffRecord> := [
    StaffRecord("John Doe", "CLEANING", "Cleaner", 3000),
    StaffRecord("Jane Smith", "FOOD", "Chef", 5000),
    StaffRecord("Mike Johnson", "EVENT", "Manager", 8000),
    StaffRecord("Sarah Connor", "CLEANING", "Head Housekeeper", 4500),
    StaffRecord("Gordon Ramsay", "FOOD", "Head Chef", 12000)
  ]

  const ActivitySeeds: seq<ActivityRecord> := [
    ActivityRecord("Live Music", "Evening band", "Group", "Alice", "123", 500),
    ActivityRecord("Magic Show", "Afternoon show", "Solo", "Bob", "456", 300)
  ]

  function StaffName(s: StaffRecord): string
  {
    s.name
  }

  function ActivityName(a: ActivityRecord): string
  {
    a.name
  }

  /** The staff loop: each seed member is created unless one with that name exists. */
  function SeedStaff(staff: seq<StaffRecord>): (r: seq<StaffRecord>)
    ensures |staff| <= |r| <= |staff| + |StaffSeeds| && r[..|staff|] == staff
    ensures forall j :: 0 <= j < |StaffSeeds| ==> Seeding.HasKey(r, StaffName, StaffSeeds[j].name)
    ensures forall k :: |staff| <= k < |r| ==> !Seeding.HasKey(r[..k], StaffName, r[k].name)
  {
    Seeding.InsertAllIfAbsent(staff, StaffSeeds, StaffName)
  }

  /** The activity loop: each seed activity is created unless one with that name exists. */
  function SeedActivities(activities: seq<ActivityRecord>): (r: seq<ActivityRecord>)
    ensures |activities| <= |r| <= |activities| + |ActivitySeeds| && r[..|activities|] == activities
    ensures forall j :: 0 <= j < |ActivitySeeds| ==> Seeding.HasKey(r, ActivityName, ActivitySeeds[j].name)
    ensures forall k :: |activities| <= k < |r| ==> !Seeding.HasKey(r[..k], ActivityName, r[k].name)
  {
    Seeding.InsertAllIfAbsent(activities, ActivitySeeds, ActivityName)
  }

  /** Running the staff and activity loops again adds nothing. */
  lemma StaffAndActivitiesIdempotent(staff: seq<StaffRecord>, activities: seq<ActivityRecord>)
    ensures SeedStaff(SeedStaff(staff)) == SeedStaff(staff)
    ensures SeedActivities(SeedActivities(activities)) == SeedActivities(activities)
  {
    Seeding.InsertAllIdempotent(staff, StaffSeeds, StaffName);
    Seeding.InsertAllIdempotent(activities, ActivitySeeds, ActivityName);
  }
}
