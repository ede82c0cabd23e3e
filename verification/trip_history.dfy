/**
 * The trip history page: the "add trip history" modal with its passenger-sum
 * guard and reset, the search/month/year filter of the table, and the status
 * badge style.
 */
module TripHistory {
  import opened Common
  import Decimal

  /** The modal's form state; every count is a number, every other field a string. */
  datatype HistoryForm = HistoryForm(
    name: string,
    startDate: string,
    endDate: string,
    totalPassengers: int,
    passengersDeluxe: int,
    roomsBookedDeluxe: int,
    passengersPremiumGold: int,
    roomsBookedPremiumGold: int,
    passengersPremiumSilver: int,
    roomsBookedPremiumSilver: int,
    passengersNormal: int,
    roomsBookedNormal: int,
    cleaningStaffCost: int,
    foodStaffCost: int,
    externalActivityCost: int)

  /** The state the modal starts in and returns to after a successful add. */
  const EmptyForm: HistoryForm := HistoryForm("", "", "", 0, 0, 0, 0, 0, 0, 0, 0, 0, 0, 0, 0)

  /** Every string field is empty and every numeric field is zero. */
  predicate IsBlank(f: HistoryForm)
  {
    && f.name == "" && f.startDate == "" && f.endDate == ""
    && f.totalPassengers == 0
    && f.passengersDeluxe == 0 && f.roomsBookedDeluxe == 0
    && f.passengersPremiumGold == 0 && f.roomsBookedPremiumGold == 0
    && f.passengersPremiumSilver == 0 && f.roomsBookedPremiumSilver == 0
    && f.passengersNormal == 0 && f.roomsBookedNormal == 0
    && f.cleaningStaffCost == 0 && f.foodStaffCost == 0 && f.externalActivityCost == 0
  }

  function PassengerSum(f: HistoryForm): int
  {
    f.passengersDeluxe + f.passengersPremiumGold + f.passengersPremiumSilver + f.passengersNormal
  }

  const MismatchLead: string := "Passenger count mismatch! Total: "
  const MismatchMiddle: string := ", Breakdown Sum: "
  const MismatchTail: string := ". Please correct the counts."

  /** The alert shown on a mismatch; it names the declared total and the breakdown sum. */
  function MismatchMessage(total: int, sum: int): (m: string)
    ensures Contains(m, Decimal.IntToString(total))
    ensures Contains(m, Decimal.IntToString(sum))
  {
    var t := Decimal.IntToString(total);
    var s := Decimal.IntToString(sum);
    ContainsBoth(MismatchLead, t, MismatchMiddle, s, MismatchTail);
    MismatchLead + t + MismatchMiddle + s + MismatchTail
  }

  /** What one press of "save" does. */
  datatype SubmitOutcome =
    | Rejected(message: string)                        // alert shown, nothing posted
    | Saved(posted: HistoryForm, next: HistoryForm)      // posted, modal closed, form reset
    | PostFailed(posted: HistoryForm, next: HistoryForm) // posted, server refused, form kept

  /**
   * `handleSubmit`: a breakdown that does not add up to the declared total is
   * refused before any request, with a message naming both numbers; otherwise
   * the form is posted as is, and reset only when the post succeeds.
   * `postSucceeds` stands for the server's answer.
   */
  function HandleSubmit(form: HistoryForm, postSucceeds: bool): (r: SubmitOutcome)
    ensures r.Rejected? <==> PassengerSum(form) != form.totalPassengers
    ensures r.Rejected? ==> Contains(r.message, Decimal.IntToString(form.totalPassengers))
    ensures r.Rejected? ==> Contains(r.message, Decimal.IntToString(PassengerSum(form)))
    ensures r.Saved? <==> PassengerSum(form) == form.totalPassengers && postSucceeds
    ensures r.Saved? ==> r.posted == form && IsBlank(r.next)
    ensures r.PostFailed? ==> r.posted == form && r.next == form
  {
    var sum := PassengerSum(form);
    if sum != form.totalPassengers then
      Rejected(MismatchMessage(form.totalPassengers, sum))
    else if postSucceeds then Saved(form, EmptyForm)
    else PostFailed(form, form)
  }

  /** One row of the history table, with its start date's local month (0-11) and year. */
  datatype CruiseRow = CruiseRow(name: string, startMonth: int, startYear: int, status: string)

  /** `toLowerCase` on ASCII letters. */
  function LowerChar(c: char): char
  {
    if 'A' <= c <= 'Z' then (c as int + 32) as char else c
  }

  function Lower(s: string): (r: string)
    ensures |r| == |s|
    ensures forall i :: 0 <= i < |s| ==> r[i] == LowerChar(s[i])
  {
    seq(|s|, i requires 0 <= i < |s| => LowerChar(s[i]))
  }

  /** The predicate of `filteredCruises`. */
  predicate Matches(c: CruiseRow, search: string, month: string, year: string)
  {
    && Contains(Lower(c.name), Lower(search))
    && (month == "" || Decimal.IntToString(c.startMonth) == month)
    && (year == "" || Decimal.IntToString(c.startYear) == year)
  }

  /** With an empty search box and no month or year chosen, every row matches. */
  lemma EmptyFiltersMatch(c: CruiseRow)
    ensures Matches(c, "", "", "")
  {
    assert Lower("") <= Lower(c.name)[0..];
  }

  /**
   * `filteredCruises`: exactly the rows that match, in their original order.
   */
  function FilterCruises(cruises: seq<CruiseRow>, search: string, month: string, year: string): (r: seq<CruiseRow>)
    ensures IsSubsequence(r, cruises)
    ensures forall c :: c in r ==> Matches(c, search, month, year)
    ensures forall c :: c in cruises && Matches(c, search, month, year) ==> c in r
    decreases |cruises|
  {
    if |cruises| == 0 then []
    else
      var init := cruises[..|cruises| - 1];
      var last := cruises[|cruises| - 1];
      var rest := FilterCruises(init, search, month, year);
      assert cruises == init + [last];
      if Matches(last, search, month, year) then
        assert (rest + [last])[..|rest|] == rest;
        rest + [last]
      else
        SubsequenceOfInit(rest, cruises);
        rest
  }

  /** Every matching row is kept as often as it occurs, and no other row is kept. */
  lemma {:induction false} FilterKeepsMultiplicity(cruises: seq<CruiseRow>, search: string, month: string, year: string)
    ensures forall c :: multiset(FilterCruises(cruises, search, month, year))[c]
                        == if Matches(c, search, month, year) then multiset(cruises)[c] else 0
    decreases |cruises|
  {
    if |cruises| > 0 {
      var init := cruises[..|cruises| - 1];
      var last := cruises[|cruises| - 1];
      FilterKeepsMultiplicity(init, search, month, year);
      assert cruises == init + [last];
      assert multiset(cruises) == multiset(init) + multiset{last};
    }
  }

  /** With an empty search box and no month or year chosen, every row is shown. */
  lemma {:induction false} NoFilterShowsAll(cruises: seq<CruiseRow>)
    ensures FilterCruises(cruises, "", "", "") == cruises
    decreases |cruises|
  {
    if |cruises| > 0 {
      NoFilterShowsAll(cruises[..|cruises| - 1]);
      var name := Lower(cruises[|cruises| - 1].name);
      assert Lower("") <= name[0..];
      assert cruises == cruises[..|cruises| - 1] + [cruises[|cruises| - 1]];
    }
  }

  /** Filtering the filtered table again changes nothing. */
  lemma {:induction false} FilterIdempotent(cruises: seq<CruiseRow>, search: string, month: string, year: string)
    ensures FilterCruises(FilterCruises(cruises, search, month, year), search, month, year)
            == FilterCruises(cruises, search, month, year)
    decreases |cruises|
  {
    if |cruises| > 0 {
      var init := cruises[..|cruises| - 1];
      var last := cruises[|cruises| - 1];
      FilterIdempotent(init, search, month, year);
      var rest := FilterCruises(init, search, month, year);
      if Matches(last, search, month, year) {
        var r := rest + [last];
        assert r[..|r| - 1] == rest;
      }
    }
  }

  /** Choosing month `m` in the month filter keeps exactly the rows that start in month `m`. */
  lemma MonthFilterSelectsMonth(c: CruiseRow, m: int)
    ensures Matches(c, "", Decimal.IntToString(m), "") <==> c.startMonth == m
  {
    assert Lower("") <= Lower(c.name)[0..];
    if Decimal.IntToString(c.startMonth) == Decimal.IntToString(m) {
      Decimal.IntToStringInjective(c.startMonth, m);
    }
  }

  const CompletedStyle: string := "bg-gray-100 text-gray-600 border-gray-200"
  const CancelledStyle: string := "bg-gray-50 text-gray-400 border-gray-100 line-through"
  const UpcomingStyle: string := "bg-black text-white border-black"
  const DefaultStyle: string := "bg-gray-50 text-gray-500 border-gray-100"

  /**
   * `getStatusStyle`: COMPLETED, CANCELLED and UPCOMING each get a class of
   * their own; every other status gets the default one.
   */
  function StatusStyle(status: string): (r: string)
    ensures status == "COMPLETED" <==> r == CompletedStyle
    ensures status == "CANCELLED" <==> r == CancelledStyle
    ensures status == "UPCOMING" <==> r == UpcomingStyle
    ensures status != "COMPLETED" && status != "CANCELLED" && status != "UPCOMING" <==> r == DefaultStyle
  {
    if status == "COMPLETED" then CompletedStyle
    else if status == "CANCELLED" then CancelledStyle
    else if status == "UPCOMING" then UpcomingStyle
    else DefaultStyle
  }
}
