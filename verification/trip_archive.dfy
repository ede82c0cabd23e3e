/**
 * The "archive past trip" form. It shares the booking arithmetic and the
 * toggles with the trip planner but charges staff per day: each selected
 * member costs salary / 30 per day of the trip. Division is exact (`real`);
 * a salary that is not a number turns the staff cost, the expenses and the
 * net profit into NaN, modelled as `None`.
 */
module TripArchive {
  import opened Common
  import opened Catalog
  import opened Booking
  import Selection
  import TripForm

  /** The archive form has exactly the planner form's fields. */
  type ArchiveFormData = TripForm.TripFormData

  /** True when some selected staff member's salary is not a number. */
  predicate SomeSelectedSalaryNaN(staff: seq<Staff>, selected: seq<string>)
  {
    exists i :: 0 <= i < |staff| && staff[i].id in selected && staff[i].salary.NotANumber?
  }

  /**
   * `selectedStaff.reduce((acc, s) => acc + s.salary / 30, 0)`. Per day, the
   * selection costs a thirtieth of what the planner charges for it.
   */
  function StaffCostPerDay(staff: seq<Staff>, selected: seq<string>): (r: Option<real>)
    ensures r.None? <==> SomeSelectedSalaryNaN(staff, selected)
    ensures r.Some? ==> r.value == TripForm.StaffCost(staff, selected) as real / 30.0
    decreases |staff|
  {
    if |staff| == 0 then Some(0.0)
    else
      var init := staff[..|staff| - 1];
      var s := staff[|staff| - 1];
      var rest := StaffCostPerDay(init, selected);
      assert forall i :: 0 <= i < |init| ==> init[i] == staff[i];
      assert StaffPrices(staff)[..|staff| - 1] == StaffPrices(init);
      if s.id !in selected then rest
      else if rest.None? || s.salary.NotANumber? then None
      else Some(rest.value + s.salary.n as real / 30.0)
  }

  /** `staffCostPerDay * durationDays`. */
  function StaffCost(staff: seq<Staff>, selected: seq<string>, days: int): (r: Option<real>)
    ensures r.None? <==> SomeSelectedSalaryNaN(staff, selected)
    ensures r.Some? ==> r.value == TripForm.StaffCost(staff, selected) as real / 30.0 * days as real
    ensures |selected| == 0 ==> r == Some(0.0)
    ensures days == 0 && r.Some? ==> r == Some(0.0)
  {
    var perDay := StaffCostPerDay(staff, selected);
    assert |selected| == 0 ==> perDay == Some(0.0) by {
      if |selected| == 0 {
        assert TripForm.StaffCost(staff, selected) == 0;
      }
    }
    if perDay.Some? then Some(perDay.value * days as real) else None
  }

  datatype ArchiveFinancials = ArchiveFinancials(
    ticketRevenue: int,
    staffCost: Option<real>,
    activityCost: int,
    totalExpenses: Option<real>,
    netProfit: Option<real>)

  datatype ArchiveCalculations = ArchiveCalculations(
    durationDays: int,
    totalPassengers: int,
    breakdown: PerTier,
    financials: ArchiveFinancials)

  /**
   * The `financials` part of the memo for a trip of `days` days: revenue and
   * activity cost as in the planner, staff charged per day, and NaN flowing
   * from the staff cost into the expenses and the net profit.
   */
  function Financials(form: ArchiveFormData, categories: seq<RoomCategory>, staff: seq<Staff>,
                      activities: seq<Activity>, days: int): (f: ArchiveFinancials)
    ensures f.ticketRevenue == TicketRevenue(categories, form.roomsBooked)
    ensures f.activityCost == TripForm.ActivityCost(activities, form.selectedActivityIds)
    ensures f.staffCost == StaffCost(staff, form.selectedStaffIds, days)
    ensures f.netProfit.Some? <==> f.staffCost.Some?
    ensures f.totalExpenses.Some? <==> f.staffCost.Some?
    ensures f.netProfit.Some? ==>
              && f.totalExpenses.value == f.staffCost.value + f.activityCost as real
              && f.netProfit.value == f.ticketRevenue as real - f.totalExpenses.value
  {
    var revenue := TicketRevenue(categories, form.roomsBooked);
    var staffCost := StaffCost(staff, form.selectedStaffIds, days);
    var activityCost := TripForm.ActivityCost(activities, form.selectedActivityIds);
    var expenses := if staffCost.Some? then Some(staffCost.value + activityCost as real) else None;
    var net := if expenses.Some? then Some(revenue as real - expenses.value) else None;
    ArchiveFinancials(revenue, staffCost, activityCost, expenses, net)
  }

  /** The `calculations` memo of the archive form. */
  function Calculate(form: ArchiveFormData, categories: seq<RoomCategory>, staff: seq<Staff>,
                     activities: seq<Activity>, timeOf: string -> int): (c: ArchiveCalculations)
    ensures c.durationDays == DurationDays(form.startDate, form.endDate, timeOf)
    ensures c.breakdown == Passengers(categories, form.roomsBooked)
    ensures c.totalPassengers == c.breakdown.Total()
    ensures c.financials == Financials(form, categories, staff, activities, c.durationDays)
  {
    var days := DurationDays(form.startDate, form.endDate, timeOf);
    var pax := Passengers(categories, form.roomsBooked);
    ArchiveCalculations(
      days,
      pax.deluxe + pax.premiumGold + pax.premiumSilver + pax.normal,
      pax,
      Financials(form, categories, staff, activities, days))
  }

  /**
   * The two forms price the same staff selection differently: the archive
   * charges the planner's full-salary figure scaled by days / 30, so they
   * agree only for a 30-day trip or a zero-salary selection.
   */
  lemma ArchiveVersusPlannerStaffCost(staff: seq<Staff>, selected: seq<string>, days: int)
    requires !SomeSelectedSalaryNaN(staff, selected)
    ensures StaffCost(staff, selected, days)
            == Some(TripForm.StaffCost(staff, selected) as real * days as real / 30.0)
    ensures days == 30 ==> StaffCost(staff, selected, days) == Some(TripForm.StaffCost(staff, selected) as real)
  {
    var full := TripForm.StaffCost(staff, selected) as real;
    var perDay := StaffCostPerDay(staff, selected);
    assert perDay == Some(full / 30.0);
    ScaleByDays(full, days as real);
  }

  lemma ScaleByDays(x: real, d: real)
    ensures x / 30.0 * d == x * d / 30.0
  {
  }

  /**
   * `toggleStaff` on the archive form: selecting member `k` (ids distinct,
   * numeric salary) raises the per-day staff cost by exactly salary / 30.
   */
  lemma ToggleStaffOnPerDay(staff: seq<Staff>, selected: seq<string>, k: nat)
    requires DistinctIds(StaffPrices(staff)) && k < |staff|
    requires staff[k].id !in selected && staff[k].salary.Num?
    requires !SomeSelectedSalaryNaN(staff, selected)
    ensures var after := Selection.Toggle(selected, staff[k].id);
            && StaffCostPerDay(staff, after).Some?
            && StaffCostPerDay(staff, after).value
               == StaffCostPerDay(staff, selected).value + staff[k].salary.n as real / 30.0
  {
    var after := Selection.Toggle(selected, staff[k].id);
    SelectingNumericSalaryKeepsNumbers(staff, selected, k);
    SelectedTotalToggleOn(StaffPrices(staff), selected, k);
    assert StaffPrices(staff)[k].amount == staff[k].salary.n;
    var before := TripForm.StaffCost(staff, selected);
    assert TripForm.StaffCost(staff, after) == before + staff[k].salary.n;
    ThirtiethOfSum(before, staff[k].salary.n);
  }

  /** Selecting a member whose salary is a number keeps every selected salary a number. */
  lemma SelectingNumericSalaryKeepsNumbers(staff: seq<Staff>, selected: seq<string>, k: nat)
    requires DistinctIds(StaffPrices(staff)) && k < |staff|
    requires staff[k].id !in selected && staff[k].salary.Num?
    requires !SomeSelectedSalaryNaN(staff, selected)
    ensures !SomeSelectedSalaryNaN(staff, Selection.Toggle(selected, staff[k].id))
  {
    var after := Selection.Toggle(selected, staff[k].id);
    forall i | 0 <= i < |staff| && staff[i].id in after
      ensures staff[i].salary.Num?
    {
      assert StaffPrices(staff)[i].id == staff[i].id;
    }
  }

  lemma ThirtiethOfSum(a: int, b: int)
    ensures (a + b) as real / 30.0 == a as real / 30.0 + b as real / 30.0
  {
  }

  /** The body posted to `/cruises/history`: the form plus its passenger figures. */
  datatype HistoryPost = HistoryPost(form: ArchiveFormData, totalPassengers: int, passengers: PerTier)

  /**
   * `handleSubmit`: always posts (this form has no capacity check), with the
   * total passengers equal to the sum of the four per-tier counts.
   */
  function HandleSubmit(form: ArchiveFormData, categories: seq<RoomCategory>, staff: seq<Staff>,
                        activities: seq<Activity>, timeOf: string -> int): (body: HistoryPost)
    ensures body.form == form
    ensures forall t :: body.passengers.Get(t) == form.roomsBooked.Get(t) * Details(categories, t).capacity
    ensures body.totalPassengers == body.passengers.Total()
  {
    var c := Calculate(form, categories, staff, activities, timeOf);
    HistoryPost(form, c.totalPassengers, c.breakdown)
  }
}
