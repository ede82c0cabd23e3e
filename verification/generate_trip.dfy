/**
 * The trip management page: how a stored trip pre-fills the planner form for
 * editing, and when a trip is offered for archiving.
 */
module GenerateTrip {
  import opened Common
  import opened Booking
  import TripForm

  /** One activity link of a stored trip; either identifier may be missing or empty. */
  datatype ActivityLink = ActivityLink(activityId: Option<string>, id: Option<string>)

  /** A stored trip as the page receives it; `staff` may be absent. */
  datatype Cruise = Cruise(
    id: string,
    name: string,
    startDate: string,
    endDate: string,
    boardingLocation: string,
    destination: string,
    status: string,
    totalPassengers: int,
    roomsBooked: PerTier,
    staff: Option<seq<string>>,
    activities: Option<seq<ActivityLink>>)

  /** `s.split('T')[0]`: everything before the first `'T'`, or all of `s`. */
  function BeforeT(s: string): (r: string)
    ensures r <= s
    ensures 'T' !in r
    ensures |r| < |s| ==> s[|r|] == 'T'
    decreases |s|
  {
    if |s| == 0 || s[0] == 'T' then []
    else [s[0]] + BeforeT(s[1..])
  }

  /** A string with no `'T'` followed by `'T'` and anything: the part before is recovered. */
  lemma {:induction false} BeforeTOfTimestamp(date: string, time: string)
    requires 'T' !in date
    ensures BeforeT(date + "T" + time) == date
    decreases |date|
  {
    if |date| > 0 {
      assert (date + "T" + time)[1..] == date[1..] + "T" + time;
      BeforeTOfTimestamp(date[1..], time);
      assert date == [date[0]] + date[1..];
    }
  }

  /** Cutting an already cut date changes nothing. */
  lemma BeforeTIdempotent(s: string)
    ensures BeforeT(BeforeT(s)) == BeforeT(s)
  {
    BeforeTNoT(BeforeT(s));
  }

  lemma {:induction false} BeforeTNoT(s: string)
    requires 'T' !in s
    ensures BeforeT(s) == s
    decreases |s|
  {
    if |s| > 0 {
      BeforeTNoT(s[1..]);
      assert s == [s[0]] + s[1..];
    }
  }

  /** JavaScript truthiness of an optional string: present and non-empty. */
  predicate Truthy(s: Option<string>)
  {
    s.Some? && s.value != ""
  }

  /** `a.activityId || a.id || ''`. */
  function LinkId(a: ActivityLink): (r: string)
    ensures Truthy(a.activityId) ==> r == a.activityId.value
    ensures !Truthy(a.activityId) && Truthy(a.id) ==> r == a.id.value
    ensures !Truthy(a.activityId) && !Truthy(a.id) ==> r == ""
  {
    if Truthy(a.activityId) then a.activityId.value
    else if Truthy(a.id) then a.id.value
    else ""
  }

  /** `getInitialFormData(trip)`. */
  function InitialFormData(trip: Cruise): (f: TripForm.TripFormData)
    ensures f.name == trip.name && f.boardingLocation == trip.boardingLocation
    ensures f.destination == trip.destination
    ensures f.roomsBooked == trip.roomsBooked
    ensures f.startDate <= trip.startDate && 'T' !in f.startDate
    ensures |f.startDate| < |trip.startDate| ==> trip.startDate[|f.startDate|] == 'T'
    ensures f.endDate <= trip.endDate && 'T' !in f.endDate
    ensures |f.endDate| < |trip.endDate| ==> trip.endDate[|f.endDate|] == 'T'
    ensures trip.staff.None? ==> f.selectedStaffIds == []
    ensures trip.staff.Some? ==> f.selectedStaffIds == trip.staff.value
    ensures trip.activities.None? ==> f.selectedActivityIds == []
    ensures trip.activities.Some? ==>
              && |f.selectedActivityIds| == |trip.activities.value|
              && forall i :: 0 <= i < |trip.activities.value| ==>
                   f.selectedActivityIds[i] == LinkId(trip.activities.value[i])
  {
    var acts := if trip.activities.Some? then trip.activities.value else [];
    TripForm.TripFormData(
      trip.name,
      trip.boardingLocation,
      trip.destination,
      BeforeT(trip.startDate),
      BeforeT(trip.endDate),
      trip.roomsBooked,
      if trip.staff.Some? then trip.staff.value else [],
      seq(|acts|, i requires 0 <= i < |acts| => LinkId(acts[i])))
  }

  /**
   * A trip stored with ISO timestamps opens in the editor with just their
   * date parts.
   */
  lemma PrefillKeepsDateParts(trip: Cruise, startDay: string, startTime: string, endDay: string, endTime: string)
    requires 'T' !in startDay && 'T' !in endDay
    requires trip.startDate == startDay + "T" + startTime && trip.endDate == endDay + "T" + endTime
    ensures InitialFormData(trip).startDate == startDay
    ensures InitialFormData(trip).endDate == endDay
  {
    BeforeTOfTimestamp(startDay, startTime);
    BeforeTOfTimestamp(endDay, endTime);
  }

  /**
   * `isCompleted`: "Move to History" is offered once the trip's end lies
   * strictly before `now`. `timeOf` stands for date parsing and `now` for the
   * clock.
   */
  predicate IsCompleted(trip: Cruise, timeOf: string -> int, now: int)
  {
    timeOf(trip.endDate) < now
  }

  /** Once offered, the archive action stays offered as time goes on. */
  lemma ArchiveOfferStaysOpen(trip: Cruise, timeOf: string -> int, now: int, later: int)
    requires now <= later && IsCompleted(trip, timeOf, now)
    ensures IsCompleted(trip, timeOf, later)
  {
  }
}
