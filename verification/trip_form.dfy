/**
 * The trip planner form: live financial preview, the capacity check that
 * blocks submission, the staff/activity toggles and the submitted payload.
 * Staff are charged their full salary here (contrast `TripArchive`).
 */
module TripForm {
  import opened Common
  import opened Catalog
  import opened Booking
  import Selection

  datatype TripFormData = TripFormData(
    name: string,
    boardingLocation: string,
    destination: string,
    startDate: string,
    endDate: string,
    roomsBooked: PerTier,
    selectedStaffIds: seq<string>,
    selectedActivityIds: seq<string>)

  datatype Financials = Financials(
    ticketRevenue: int,
    staffCost: int,
    activityCost: int,
    totalExpenses: int,
    netProfit: int)

  datatype Calculations = Calculations(
    durationDays: int,
    totalPassengers: int,
    breakdown: PerTier,
    financials: Financials)

  /** Full-salary staff cost of the selection: unknown ids and repeats add nothing. */
  function StaffCost(staff: seq<Staff>, selected: seq<string>): (r: int)
    ensures |selected| == 0 ==> r == 0
    ensures (forall i :: 0 <= i < |staff| && staff[i].salary.Num? ==> staff[i].salary.n >= 0) ==> r >= 0
  {
    SelectedTotal(StaffPrices(staff), selected)
  }

  /** Cost of the selected activities: unknown ids and repeats add nothing. */
  function ActivityCost(activities: seq<Activity>, selected: seq<string>): (r: int)
    ensures |selected| == 0 ==> r == 0
    ensures (forall i :: 0 <= i < |activities| ==> activities[i].cost >= 0) ==> r >= 0
  {
    SelectedTotal(ActivityPrices(activities), selected)
  }

  /** The `calculations` memo of the form. */
  function Calculate(form: TripFormData, categories: seq<RoomCategory>, staff: seq<Staff>,
                     activities: seq<Activity>, timeOf: string -> int): (c: Calculations)
    ensures c.breakdown == Passengers(categories, form.roomsBooked)
    ensures c.totalPassengers == c.breakdown.Total()
    ensures c.financials.ticketRevenue == TicketRevenue(categories, form.roomsBooked)
    ensures c.financials.staffCost == StaffCost(staff, form.selectedStaffIds)
    ensures c.financials.activityCost == ActivityCost(activities, form.selectedActivityIds)
    ensures c.financials.netProfit
            == c.financials.ticketRevenue - c.financials.staffCost - c.financials.activityCost
    ensures c.financials.totalExpenses == c.financials.ticketRevenue - c.financials.netProfit
    ensures c.durationDays == DurationDays(form.startDate, form.endDate, timeOf)
  {
    var pax := Passengers(categories, form.roomsBooked);
    var revenue := TicketRevenue(categories, form.roomsBooked);
    var staffCost := StaffCost(staff, form.selectedStaffIds);
    var activityCost := ActivityCost(activities, form.selectedActivityIds);
    var expenses := staffCost + activityCost;
    Calculations(
      DurationDays(form.startDate, form.endDate, timeOf),
      pax.deluxe + pax.premiumGold + pax.premiumSilver + pax.normal,
      pax,
      Financials(revenue, staffCost, activityCost, expenses, revenue - expenses))
  }

  /** `toggleStaff(id)`: only the staff selection changes; `id` is appended or filtered out, the rest kept in order. */
  function ToggleStaff(form: TripFormData, id: string): (r: TripFormData)
    ensures r == form.(selectedStaffIds := r.selectedStaffIds)
    ensures id in r.selectedStaffIds <==> id !in form.selectedStaffIds
    ensures forall x :: x != id ==> multiset(r.selectedStaffIds)[x] == multiset(form.selectedStaffIds)[x]
    ensures id !in form.selectedStaffIds ==> r.selectedStaffIds == form.selectedStaffIds + [id]
    ensures id in form.selectedStaffIds ==> IsSubsequence(r.selectedStaffIds, form.selectedStaffIds)
  {
    form.(selectedStaffIds := Selection.Toggle(form.selectedStaffIds, id))
  }

  /** `toggleActivity(id)`: only the activity selection changes; `id` is appended or filtered out, the rest kept in order. */
  function ToggleActivity(form: TripFormData, id: string): (r: TripFormData)
    ensures r == form.(selectedActivityIds := r.selectedActivityIds)
    ensures id in r.selectedActivityIds <==> id !in form.selectedActivityIds
    ensures forall x :: x != id ==> multiset(r.selectedActivityIds)[x] == multiset(form.selectedActivityIds)[x]
    ensures id !in form.selectedActivityIds ==> r.selectedActivityIds == form.selectedActivityIds + [id]
    ensures id in form.selectedActivityIds ==> IsSubsequence(r.selectedActivityIds, form.selectedActivityIds)
  {
    form.(selectedActivityIds := Selection.Toggle(form.selectedActivityIds, id))
  }

  /** Tier `t` asks for more rooms than its category has available. */
  predicate TierExceeded(form: TripFormData, categories: seq<RoomCategory>, t: Tier)
  {
    form.roomsBooked.Get(t) > Details(categories, t).available
  }

  /** `isCapacityExceeded`: some tier asks for more rooms than it has available. */
  function IsCapacityExceeded(form: TripFormData, categories: seq<RoomCategory>): (r: bool)
    ensures r <==> exists t :: TierExceeded(form, categories, t)
  {
    var exceeded :=
      || TierExceeded(form, categories, Deluxe)
      || TierExceeded(form, categories, PremiumGold)
      || TierExceeded(form, categories, PremiumSilver)
      || TierExceeded(form, categories, Normal);
    ExceededTierIsOneOfFour(form, categories);
    exceeded
  }

  lemma ExceededTierIsOneOfFour(form: TripFormData, categories: seq<RoomCategory>)
    ensures (exists t :: TierExceeded(form, categories, t)) ==>
              || TierExceeded(form, categories, Deluxe)
              || TierExceeded(form, categories, PremiumGold)
              || TierExceeded(form, categories, PremiumSilver)
              || TierExceeded(form, categories, Normal)
  {
    if t :| TierExceeded(form, categories, t) {
      match t
      case Deluxe =>
      case PremiumGold =>
      case PremiumSilver =>
      case Normal =>
    }
  }

  /** What `onSubmit` receives: the form plus the computed passenger figures. */
  datatype TripSubmitData = TripSubmitData(form: TripFormData, totalPassengers: int, passengers: PerTier)

  /**
   * `handleSubmit`: refused (no `onSubmit` call) when capacity is exceeded;
   * otherwise the form is submitted unchanged with its passenger breakdown.
   */
  function HandleSubmit(form: TripFormData, categories: seq<RoomCategory>, staff: seq<Staff>,
                        activities: seq<Activity>, timeOf: string -> int): (r: Option<TripSubmitData>)
    ensures r.None? <==> IsCapacityExceeded(form, categories)
    ensures r.Some? ==> r.value.form == form
    ensures r.Some? ==> forall t :: r.value.passengers.Get(t)
                                    == form.roomsBooked.Get(t) * Details(categories, t).capacity
    ensures r.Some? ==> r.value.totalPassengers == r.value.passengers.Total()
    ensures r.Some? ==> forall t :: !TierExceeded(form, categories, t)
  {
    if IsCapacityExceeded(form, categories) then None
    else
      var c := Calculate(form, categories, staff, activities, timeOf);
      Some(TripSubmitData(form, c.totalPassengers, c.breakdown))
  }

  /**
   * Selecting staff member `k` (ids distinct) lowers the previewed net profit
   * by exactly that member's salary and leaves revenue and passengers alone.
   */
  lemma ToggleStaffOnCharges(form: TripFormData, categories: seq<RoomCategory>, staff: seq<Staff>,
                             activities: seq<Activity>, timeOf: string -> int, k: nat)
    requires DistinctIds(StaffPrices(staff)) && k < |staff|
    requires staff[k].id !in form.selectedStaffIds
    ensures var before := Calculate(form, categories, staff, activities, timeOf);
            var after := Calculate(ToggleStaff(form, staff[k].id), categories, staff, activities, timeOf);
            && after.financials.netProfit == before.financials.netProfit - SalaryValue(staff[k].salary)
            && after.financials.ticketRevenue == before.financials.ticketRevenue
            && after.totalPassengers == before.totalPassengers
  {
    SelectedTotalToggleOn(StaffPrices(staff), form.selectedStaffIds, k);
  }

  /** Deselecting staff member `k` gives back exactly that member's salary. */
  lemma ToggleStaffOffRefunds(form: TripFormData, categories: seq<RoomCategory>, staff: seq<Staff>,
                              activities: seq<Activity>, timeOf: string -> int, k: nat)
    requires DistinctIds(StaffPrices(staff)) && k < |staff|
    requires staff[k].id in form.selectedStaffIds
    ensures var before := Calculate(form, categories, staff, activities, timeOf);
            var after := Calculate(ToggleStaff(form, staff[k].id), categories, staff, activities, timeOf);
            after.financials.netProfit == before.financials.netProfit + SalaryValue(staff[k].salary)
  {
    SelectedTotalToggleOff(StaffPrices(staff), form.selectedStaffIds, k);
  }

  /** Selecting activity `k` (ids distinct) lowers the previewed net profit by its cost. */
  lemma ToggleActivityOnCharges(form: TripFormData, categories: seq<RoomCategory>, staff: seq<Staff>,
                                activities: seq<Activity>, timeOf: string -> int, k: nat)
    requires DistinctIds(ActivityPrices(activities)) && k < |activities|
    requires activities[k].id !in form.selectedActivityIds
    ensures var before := Calculate(form, categories, staff, activities, timeOf);
            var after := Calculate(ToggleActivity(form, activities[k].id), categories, staff, activities, timeOf);
            after.financials.netProfit == before.financials.netProfit - activities[k].cost
  {
    SelectedTotalToggleOn(ActivityPrices(activities), form.selectedActivityIds, k);
  }

  /** Listing an already selected staff id a second time does not charge it twice. */
  lemma RepeatedStaffIdChargedOnce(staff: seq<Staff>, selected: seq<string>, id: string)
    requires id in selected
    ensures StaffCost(staff, selected + [id]) == StaffCost(staff, selected)
  {
    SelectedTotalSameIds(StaffPrices(staff), selected + [id], selected);
  }

  /** Selecting an id that is not on the staff list costs nothing. */
  lemma UnknownStaffIdCostsNothing(staff: seq<Staff>, selected: seq<string>, id: string)
    requires forall i :: 0 <= i < |staff| ==> staff[i].id != id
    ensures StaffCost(staff, selected + [id]) == StaffCost(staff, selected)
  {
    SelectedTotalUnknownId(StaffPrices(staff), selected, id);
  }
}
