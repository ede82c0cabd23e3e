/**
 * The "plan new voyage" page: its form state, the room and staff toggles,
 * adding scheduled activities, and the body it posts to `/cruises`.
 */
module CreateCruise {
  import opened Common
  import Selection

  /** A scheduled activity; every added activity starts on day 1. */
  datatype ScheduledActivity = ScheduledActivity(activityId: string, day: int)

  datatype CruisePlan = CruisePlan(
    name: string,
    startDate: string,
    endDate: string,
    maxCapacity: int,
    selectedRooms: seq<string>,
    selectedStaff: seq<string>,
    selectedActivities: seq<ScheduledActivity>)

  const DefaultMaxCapacity: int := 100

  /** The form's initial state. */
  const InitialPlan: CruisePlan := CruisePlan("", "", "", DefaultMaxCapacity, [], [], [])

  /** `toggleRoom(id)`: only the room selection changes; `id` is appended or filtered out, the rest kept in order. */
  function ToggleRoom(plan: CruisePlan, id: string): (r: CruisePlan)
    ensures r == plan.(selectedRooms := r.selectedRooms)
    ensures id in r.selectedRooms <==> id !in plan.selectedRooms
    ensures forall x :: x != id ==> multiset(r.selectedRooms)[x] == multiset(plan.selectedRooms)[x]
    ensures id !in plan.selectedRooms ==> r.selectedRooms == plan.selectedRooms + [id]
    ensures id in plan.selectedRooms ==> IsSubsequence(r.selectedRooms, plan.selectedRooms)
  {
    plan.(selectedRooms := Selection.Toggle(plan.selectedRooms, id))
  }

  /** `toggleStaff(id)`: only the staff selection changes; `id` is appended or filtered out, the rest kept in order. */
  function ToggleStaff(plan: CruisePlan, id: string): (r: CruisePlan)
    ensures r == plan.(selectedStaff := r.selectedStaff)
    ensures id in r.selectedStaff <==> id !in plan.selectedStaff
    ensures forall x :: x != id ==> multiset(r.selectedStaff)[x] == multiset(plan.selectedStaff)[x]
    ensures id !in plan.selectedStaff ==> r.selectedStaff == plan.selectedStaff + [id]
    ensures id in plan.selectedStaff ==> IsSubsequence(r.selectedStaff, plan.selectedStaff)
  {
    plan.(selectedStaff := Selection.Toggle(plan.selectedStaff, id))
  }

  /**
   * `addActivity(id)`: unlike the toggles, always appends a day-1 entry, so
   * the same activity can be scheduled more than once.
   */
  function AddActivity(plan: CruisePlan, id: string): (r: CruisePlan)
    ensures r == plan.(selectedActivities := r.selectedActivities)
    ensures |r.selectedActivities| == |plan.selectedActivities| + 1
    ensures r.selectedActivities[..|plan.selectedActivities|] == plan.selectedActivities
    ensures r.selectedActivities[|plan.selectedActivities|] == ScheduledActivity(id, 1)
    ensures multiset(r.selectedActivities)[ScheduledActivity(id, 1)]
            == multiset(plan.selectedActivities)[ScheduledActivity(id, 1)] + 1
  {
    plan.(selectedActivities := plan.selectedActivities + [ScheduledActivity(id, 1)])
  }

  /** Adding the same activity twice schedules it twice. */
  lemma AddActivityTwiceKeepsBoth(plan: CruisePlan, id: string)
    ensures var twice := AddActivity(AddActivity(plan, id), id);
            multiset(twice.selectedActivities)[ScheduledActivity(id, 1)]
            == multiset(plan.selectedActivities)[ScheduledActivity(id, 1)] + 2
  {
  }

  /** Toggling a room twice from a plan without it restores the plan. */
  lemma ToggleRoomTwiceRestores(plan: CruisePlan, id: string)
    requires id !in plan.selectedRooms
    ensures ToggleRoom(ToggleRoom(plan, id), id) == plan
  {
    Selection.ToggleTwiceRestores(plan.selectedRooms, id);
  }

  /** Toggling a staff member twice from a plan without them restores the plan. */
  lemma ToggleStaffTwiceRestores(plan: CruisePlan, id: string)
    requires id !in plan.selectedStaff
    ensures ToggleStaff(ToggleStaff(plan, id), id) == plan
  {
    Selection.ToggleTwiceRestores(plan.selectedStaff, id);
  }

  /** The body posted to `/cruises`. */
  datatype CruisePost = CruisePost(
    name: string,
    startDate: string,
    endDate: string,
    maxCapacity: int,
    rooms: seq<string>,
    staff: seq<string>,
    activities: seq<ScheduledActivity>)

  /** `handleSubmit`: the post carries every field of the form unchanged. */
  function SubmitBody(plan: CruisePlan): (body: CruisePost)
    ensures body.name == plan.name && body.startDate == plan.startDate && body.endDate == plan.endDate
    ensures body.maxCapacity == plan.maxCapacity
    ensures body.rooms == plan.selectedRooms && body.staff == plan.selectedStaff
    ensures body.activities == plan.selectedActivities
  {
    CruisePost(plan.name, plan.startDate, plan.endDate, plan.maxCapacity,
               plan.selectedRooms, plan.selectedStaff, plan.selectedActivities)
  }

  /** The post and the form determine each other: different forms post different bodies. */
  lemma SubmitBodyInjective(a: CruisePlan, b: CruisePlan)
    requires SubmitBody(a) == SubmitBody(b)
    ensures a == b
  {
  }

  /**
   * Submitting straight after choosing one room and one staff member posts
   * the default capacity with exactly those selections.
   */
  lemma FreshPlanPostsChoices(room: string, member: string)
    ensures var body := SubmitBody(ToggleStaff(ToggleRoom(InitialPlan, room), member));
            && body.maxCapacity == 100
            && body.rooms == [room] && body.staff == [member] && body.activities == []
  {
  }
}
