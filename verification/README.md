# Cruise management: the computational core in Dafny

This project models the parts of the cruise back office that compute
something, rather than only moving records between the browser and the
database:

- the trip planner form (`TripForm`) and the archive form (`TripArchive`).
  Between them they look up room categories, preview passengers, ticket
  revenue, staff and activity costs and net profit, toggle selections,
  refuse an over-capacity booking and build the submitted payload. The
  planner charges the full salary; the archive charges salary / 30 per day.
- the trip history page (`TripHistory`): the passenger-sum guard, the form
  reset, the search/month/year filter and the status badge.
- the dashboard statistics (`Dashboard`): the profit/loss fold, the
  loss-making trip alerts and the per-trip revenue series.
- the table pager (`Pagination`): the "showing X to Y" range, the page
  list with ellipses and the disabled buttons.
- the trip management page (`GenerateTrip`): pre-filling the editor from a
  stored trip, and when "Move to History" is offered.
- the voyage planner (`CreateCruise`): the room and staff toggles, adding
  activities and the posted body.
- the room endpoints (`RoomController`): field resolution in `createRoom`,
  the optional-field patch of `updateCategory` and the booking cleanup of
  `deleteRoom`.
- the two seed scripts (`SeedRooms`, `SeedVerification`, with the shared
  rules in `Seeding`): upserting categories by name, topping rooms up to 25,
  generating room numbers, and inserting records only if they are absent.

Shared modules:

- `Common`: optional values, substring containment and
  subsequences.
- `Decimal`: how integers are written in decimal, with its round trip.
- `Selection`: the "toggle an id in a list" rule that three pages share.
- `Catalog`: the entities, `getCategoryDetails`, and the "sum over the
  selected ids" rule.
- `Booking`: the four cabin tiers, the passenger and revenue arithmetic, and
  the trip duration in days.

Database reads become input sequences or maps, and writes become returned
values. The following are parameters:

- the time of a date string (`timeOf`), which stands for
  `new Date(s).getTime()`;
- the current time (`now`);
- the ids the store assigns to new records (`newId`);
- whether a POST succeeds (`postSucceeds`).

## Model

| member | source | states |
|---|---|---|
| Catalog.CountAvailable | src/components/TripForm.tsx:101 | the available count never exceeds the room count |
| Catalog.CountAvailableExtremes | src/components/TripForm.tsx:101 | the count is 0 exactly when no room has the exact status `AVAILABLE`, and equals the room count exactly when every room has it |
| Catalog.GetCategoryDetails | src/components/TripForm.tsx:95-104 | a name no category carries reports price, capacity, available and total all 0; available never exceeds total |
| Catalog.DetailsOfFirstNamed | src/components/TripForm.tsx:96-103 | when a category has the name, the first such category supplies the price, the capacity, its count of `AVAILABLE` rooms and its room count |
| Catalog.SelectedTotal | src/components/TripForm.tsx:130-138 | an empty selection costs 0, and non-negative amounts give a non-negative total |
| Catalog.SelectedTotalSameIds | src/components/TripForm.tsx:130-135 | the cost depends only on which ids are selected: neither order nor repetition changes it |
| Catalog.SelectedTotalUnknownId | src/components/TripForm.tsx:130-135 | selecting an id that no catalogue entry carries adds nothing |
| Catalog.SelectedTotalToggleOn | src/components/TripForm.tsx:130-135 | with distinct ids, toggling on entry k raises the total by exactly its amount |
| Catalog.SelectedTotalToggleOff | src/components/TripForm.tsx:130-135 | with distinct ids, toggling off entry k lowers the total by exactly its amount, however often it was listed |
| Catalog.SelectedTotalOthersUnchanged | src/components/TripForm.tsx:130-135 | removing an id that no entry carries leaves the total unchanged |
| Catalog.SalaryValue | src/components/TripForm.tsx:132 | `Number(s.salary) \|\| 0`: the charged salary is 0 exactly when the salary is NaN or 0, and otherwise the salary itself |
| Catalog.StaffPrices | src/components/TripForm.tsx:130-134 | each staff member contributes their salary, with NaN counted as 0 |
| Catalog.ActivityPrices | src/components/TripForm.tsx:138 | each activity contributes its cost |
| Booking.Passengers | src/components/TripForm.tsx:117-120 | passengers in every tier are the rooms booked times that tier's category capacity |
| Booking.Prices | src/components/TripForm.tsx:122-125 | every tier's price is its category's price, or 0 without one |
| Booking.RevenueAdditive | src/components/TripForm.tsx:122-128 | ticket revenue is additive in the bookings: two bookings together earn exactly what they earn apart |
| Booking.RevenueNonNegative | src/components/TripForm.tsx:122-128 | with non-negative room counts and prices the ticket revenue is never negative |
| Booking.BookOneMore | src/components/TripForm.tsx:117-128 | one more room in tier t adds exactly t's price to revenue and t's capacity to passengers |
| Booking.MissingTierCountsNothing | src/components/TripForm.tsx:95-104 | rooms booked in a tier with no category add no passengers and no revenue |
| Booking.CeilDiv | src/pages/AddTripArchive.tsx:111 | the result is the least integer c with a <= c * b, i.e. `Math.ceil(a / b)` |
| Booking.DurationDays | src/pages/AddTripArchive.tsx:110-111 | 0 while either date is empty; otherwise at least 1, exactly 1 for a span of at most one day, and for a positive span the least whole number of days covering it |
| TripForm.StaffCost | src/components/TripForm.tsx:130-135 | nothing selected costs 0, and non-negative salaries never give a negative staff cost |
| TripForm.ActivityCost | src/components/TripForm.tsx:137-138 | nothing selected costs 0, and non-negative activity costs never give a negative total |
| TripForm.Calculate | src/components/TripForm.tsx:106-141 | passengers per tier and their total, ticket revenue as `TicketRevenue` of the bookings, full-salary staff cost and activity cost of the selections, net profit as revenue minus both, and the duration in days |
| TripForm.ToggleStaff | src/components/TripForm.tsx:158-165 | only the staff selection changes; the id's membership flips; an absent id is appended at the end; removing a present id keeps the other ids in their order, each as often as before |
| TripForm.ToggleActivity | src/components/TripForm.tsx:167-174 | only the activity selection changes; the id's membership flips; an absent id is appended at the end; removing a present id keeps the other ids in their order, each as often as before |
| TripForm.IsCapacityExceeded | src/components/TripForm.tsx:176-188 | true exactly when some tier asks for more rooms than its category has available |
| TripForm.HandleSubmit | src/components/TripForm.tsx:190-206 | refused exactly when capacity is exceeded; otherwise the form goes out unchanged, every tier's passengers are rooms times capacity, the total is their sum, and no tier is over its available count |
| TripForm.ToggleStaffOnCharges | src/components/TripForm.tsx:130-141 | selecting staff member k lowers the previewed net profit by exactly their salary and leaves revenue and passengers alone |
| TripForm.ToggleStaffOffRefunds | src/components/TripForm.tsx:130-141 | deselecting staff member k gives back exactly their salary |
| TripForm.ToggleActivityOnCharges | src/components/TripForm.tsx:137-141 | selecting activity k lowers the previewed net profit by exactly its cost |
| TripForm.RepeatedStaffIdChargedOnce | src/components/TripForm.tsx:133-135 | listing a selected staff id again is not charged twice |
| TripForm.UnknownStaffIdCostsNothing | src/components/TripForm.tsx:133-135 | selecting an id that is not on the staff list costs nothing |
| TripArchive.StaffCostPerDay | src/pages/AddTripArchive.tsx:133-134 | NaN exactly when a selected salary is not a number; otherwise exactly one thirtieth of the planner's full-salary cost |
| TripArchive.StaffCost | src/pages/AddTripArchive.tsx:133-135 | the per-day cost times the days; 0 with no staff selected or with zero days, and NaN exactly when a selected salary is NaN |
| TripArchive.Financials | src/pages/AddTripArchive.tsx:124-143 | revenue and activity cost as in the planner, staff charged per day, expenses and net profit NaN exactly when the staff cost is, and otherwise their sum and difference |
| TripArchive.Calculate | src/pages/AddTripArchive.tsx:107-158 | duration in days, passengers per tier and their total, and the financials for that duration |
| TripArchive.ArchiveVersusPlannerStaffCost | src/pages/AddTripArchive.tsx:133-135 | the archive's staff cost is the planner's full-salary figure times days / 30, so the two agree on a 30-day trip |
| TripArchive.ToggleStaffOnPerDay | src/pages/AddTripArchive.tsx:168-175 | selecting a member with a numeric salary raises the per-day staff cost by exactly salary / 30 |
| TripArchive.SelectingNumericSalaryKeepsNumbers | src/pages/AddTripArchive.tsx:133-134 | selecting a member with a numeric salary cannot make the staff cost NaN |
| TripArchive.HandleSubmit | src/pages/AddTripArchive.tsx:186-196 | always posts the form unchanged, with every tier's passengers equal to rooms times capacity and the total equal to their sum |
| Selection.RemoveAll | src/components/TripForm.tsx:162 | exactly the ids other than `id` remain, each as often as before, in their original order |
| Selection.Toggle | src/components/TripForm.tsx:158-165 | the id's membership flips; an absent id is appended; a present id is filtered out, leaving a subsequence of the list (the other ids in their order); every other id keeps its number of occurrences |
| Selection.RemoveAbsent | src/components/TripForm.tsx:162 | filtering out an id that is not there changes nothing |
| Selection.ToggleTwiceRestores | src/components/TripForm.tsx:158-165 | toggling an id twice, starting from a list without it, restores the list |
| Selection.RemoveAllKeepsDistinct | src/components/TripForm.tsx:162 | filtering keeps a duplicate-free list duplicate-free |
| Selection.ToggleKeepsDistinct | src/components/TripForm.tsx:158-165 | toggling never introduces a duplicate |
| TripHistory.MismatchMessage | src/pages/TripHistory.tsx:84 | the alert contains both the declared total and the breakdown sum in decimal |
| TripHistory.HandleSubmit | src/pages/TripHistory.tsx:74-105 | rejected with a message naming both numbers exactly when the four counts do not add up to the total; otherwise the form is posted unchanged, then reset to blank on success and kept on failure |
| TripHistory.Lower | src/pages/TripHistory.tsx:110 | same length, each letter lower-cased |
| TripHistory.EmptyFiltersMatch | src/pages/TripHistory.tsx:108-114 | with an empty search, month and year, the filter predicate accepts every row |
| TripHistory.FilterCruises | src/pages/TripHistory.tsx:108-114 | an order-preserving subsequence of the rows holding exactly the rows that match search, month and year |
| TripHistory.FilterKeepsMultiplicity | src/pages/TripHistory.tsx:108-114 | every matching row is kept as often as it occurs, including equal duplicate rows, and no other row is kept |
| TripHistory.NoFilterShowsAll | src/pages/TripHistory.tsx:108-114 | with an empty search, month and year every row is shown, in order |
| TripHistory.FilterIdempotent | src/pages/TripHistory.tsx:108-114 | filtering the filtered rows again changes nothing |
| TripHistory.MonthFilterSelectsMonth | src/pages/TripHistory.tsx:111 | choosing month m keeps a row exactly when it starts in month m |
| TripHistory.StatusStyle | src/pages/TripHistory.tsx:51-58 | COMPLETED, CANCELLED and UPCOMING each get a class of their own, and every other status gets the default one |
| Dashboard.LossAlerts | backend/src/controllers/dashboard.controller.ts:23-35 | one alert per loss-making row, each with a positive loss |
| Dashboard.LossAlertsAppend | backend/src/controllers/dashboard.controller.ts:23-35 | the alerts follow the rows in order: those of a concatenation are the alerts of each part, one after the other, and a single row raises the alert with its cruise id, cruise name and `Math.abs(profit)` exactly when its profit is negative |
| Dashboard.AlertsMatchLosingRows | backend/src/controllers/dashboard.controller.ts:23-35 | every alert carries the cruise id, cruise name and loss of some row with negative profit, and every such row has its alert |
| Dashboard.ProfitMinusLossIsNet | backend/src/controllers/dashboard.controller.ts:25-37 | total profit minus total loss is the sum of every trip's net result, and both totals are non-negative |
| Dashboard.AlertsAddUpToLoss | backend/src/controllers/dashboard.controller.ts:29-35 | the losses in the alert list add up to the total loss |
| Dashboard.NonLossRowRaisesNoAlert | backend/src/controllers/dashboard.controller.ts:27-28 | a break-even or profitable trip adds its net result to profit and raises no alert |
| Dashboard.ProfitAndLoss | backend/src/controllers/dashboard.controller.ts:21-37 | the loop yields the profit and loss sums, both non-negative and differing by the net sum, and the alert list of loss-making trips in input order, whose losses add up to the total loss |
| Dashboard.RevenuePerTrip | backend/src/controllers/dashboard.controller.ts:58-62 | one point per revenue row in the same order, carrying the cruise name, the revenue and revenue minus expenses |
| Dashboard.PlottedProfitsMatchTotals | backend/src/controllers/dashboard.controller.ts:21-62 | the profits plotted per trip add up to total profit minus total loss |
| Pagination.PageNumbers | src/components/Pagination.tsx:24-47 | at most seven entries, the first page 1 and the last the last page |
| Pagination.Pages | src/components/Pagination.tsx:29-31 | pages 1 to `last`, in order |
| Pagination.FewPagesListedInFull | src/components/Pagination.tsx:28-31 | with at most five pages the list is exactly 1..totalPages, with no ellipsis |
| Pagination.CoverageImpliesIncreasing | src/components/Pagination.tsx:24-51 | a list that accounts for every page lists its page numbers in strictly increasing order |
| Pagination.WindowShape | src/components/Pagination.tsx:24-51 | for 1 <= current <= total: at most 7 entries, the current page among them, from page 1 to the last page with every page listed or behind an ellipsis, strictly increasing |
| Pagination.HeadWindow | src/components/Pagination.tsx:33-36 | near the start the list covers every page and contains the current page |
| Pagination.TailWindow | src/components/Pagination.tsx:37-40 | near the end the list covers every page and contains the current page |
| Pagination.MiddleWindow | src/components/Pagination.tsx:41-46 | in the middle the list covers every page and contains the current page |
| Pagination.Render | src/components/Pagination.tsx:19-22 | nothing for a single page; otherwise the start item is (current - 1) * perPage + 1, the end item is the lesser of current * perPage and the item count, the page list is `getPageNumbers`, first and previous are disabled exactly on page 1, and next and last exactly on the last page |
| Pagination.ShowingRangeFitsPage | src/components/Pagination.tsx:21-22 | on a page that has items, 1 <= start <= end <= total items, spanning at most one page |
| GenerateTrip.BeforeT | src/pages/GenerateTrip.tsx:176-177 | a prefix of the input with no 'T', followed in the input by a 'T' when it is shorter |
| GenerateTrip.BeforeTOfTimestamp | src/pages/GenerateTrip.tsx:176-177 | cutting `date + "T" + time` recovers `date` |
| GenerateTrip.BeforeTIdempotent | src/pages/GenerateTrip.tsx:176-177 | cutting an already cut date changes nothing |
| GenerateTrip.LinkId | src/pages/GenerateTrip.tsx:183 | the activity id when it is non-empty, else the link id when non-empty, else '' |
| GenerateTrip.InitialFormData | src/pages/GenerateTrip.tsx:172-184 | name, locations and the four room counts are copied; the dates are cut before 'T'; the staff ids are copied or empty when absent; each activity id follows `LinkId` |
| GenerateTrip.PrefillKeepsDateParts | src/pages/GenerateTrip.tsx:176-177 | a trip stored with ISO timestamps opens in the editor with just their date parts |
| GenerateTrip.IsCompleted | src/pages/GenerateTrip.tsx:216 | "Move to History" is offered when the trip's end time lies strictly before now |
| GenerateTrip.ArchiveOfferStaysOpen | src/pages/GenerateTrip.tsx:216 | once "Move to History" is offered for a trip, it stays offered as time goes on |
| CreateCruise.ToggleRoom | src/pages/CreateCruise.tsx:55-62 | only the room selection changes; the id's membership flips; an absent id is appended at the end; removing a present id keeps the other ids in their order, each as often as before |
| CreateCruise.ToggleStaff | src/pages/CreateCruise.tsx:64-71 | only the staff selection changes; the id's membership flips; an absent id is appended at the end; removing a present id keeps the other ids in their order, each as often as before |
| CreateCruise.AddActivity | src/pages/CreateCruise.tsx:73-78 | appends one day-1 entry for the id and keeps the earlier entries, so one more copy of that entry is scheduled |
| CreateCruise.AddActivityTwiceKeepsBoth | src/pages/CreateCruise.tsx:73-78 | adding the same activity twice schedules it twice |
| CreateCruise.ToggleRoomTwiceRestores | src/pages/CreateCruise.tsx:55-62 | toggling a room twice from a plan without it restores the plan |
| CreateCruise.ToggleStaffTwiceRestores | src/pages/CreateCruise.tsx:64-71 | toggling a staff member twice from a plan without them restores the plan |
| CreateCruise.SubmitBody | src/pages/CreateCruise.tsx:40-48 | the body carries the name, dates, capacity and the three selections unchanged |
| CreateCruise.SubmitBodyInjective | src/pages/CreateCruise.tsx:40-48 | different forms post different bodies |
| CreateCruise.FreshPlanPostsChoices | src/pages/CreateCruise.tsx:15-23 | from the initial state, choosing one room and one staff member posts capacity 100 with exactly those choices and no activities |
| RoomController.OrElse | backend/src/controllers/room.controller.ts:67-68 | a truthy number wins; zero or a missing value gives the fallback |
| RoomController.RequestCategory | backend/src/controllers/room.controller.ts:62-66 | a category is found exactly when the request names a non-empty id that exists |
| RoomController.CreateRoom | backend/src/controllers/room.controller.ts:55-86 | the status is the supplied one or AVAILABLE; a truthy price or capacity wins, then the category's value, then 0; the type is the category name, or '' without a category |
| RoomController.BareRoomInheritsCategory | backend/src/controllers/room.controller.ts:62-81 | a room created with only a number in an existing category is available and takes its type, price and capacity from the category |
| RoomController.ZeroPriceTakesCategoryPrice | backend/src/controllers/room.controller.ts:67-78 | a supplied price of 0 behaves as no price |
| RoomController.Patched | backend/src/controllers/room.controller.ts:42-43 | a defined field replaces the stored value; an undefined one leaves it |
| RoomController.ApplyPatch | backend/src/controllers/room.controller.ts:37-44 | id, name and rooms are kept; images, features, price and capacity are patched field by field |
| RoomController.UpdateCategory | backend/src/controllers/room.controller.ts:33-53 | fails exactly when the id is unknown; otherwise only that category changes, by the patch |
| RoomController.UpdateCategoryIdempotent | backend/src/controllers/room.controller.ts:33-53 | sending the same update twice has the effect of sending it once |
| RoomController.EmptyPatchChangesNothing | backend/src/controllers/room.controller.ts:40-43 | an update that defines no field changes nothing |
| RoomController.DeleteBookingsOf | backend/src/controllers/room.controller.ts:103 | exactly the bookings of other rooms remain, in their original order |
| RoomController.DeleteUnbookedIsIdentity | backend/src/controllers/room.controller.ts:92-104 | for a room nobody booked, the booking step changes nothing |
| RoomController.DeleteRoom | backend/src/controllers/room.controller.ts:88-108 | succeeds exactly when the room exists; afterwards no booking refers to it, every other booking is kept in order, and the room is gone while every other room stays |
| RoomController.DeleteRoomTwice | backend/src/controllers/room.controller.ts:88-108 | a second delete of the same room fails and changes nothing |
| RoomController.DeleteKeepsOtherBookings | backend/src/controllers/room.controller.ts:92-104 | a booking of another room survives the delete |
| Decimal.NatToString | backend/scripts/seedRooms.ts:96 | at least one digit, all digits, and no leading zero except for 0 itself |
| Decimal.IntToString | backend/scripts/seedRooms.ts:96 | non-empty, and it starts with '-' exactly for negative numbers |
| Decimal.NatToStringRoundTrip | backend/scripts/seedRooms.ts:96 | reading the written digits back gives the number |
| Decimal.IntToStringInjective | backend/scripts/seedRooms.ts:96 | different integers are written differently |
| Seeding.UpsertCategory | backend/scripts/seedRooms.ts:41-51 | an existing category of that name is returned and nothing changes; otherwise a new category built from the seed is appended and returned |
| Seeding.UpsertCategoryIdempotent | backend/scripts/seedRooms.ts:41-51 | a second upsert leaves the categories as the first left them |
| Seeding.InsertIfAbsent | backend/src/seed_verification.ts:77-82 | the store is unchanged when the key is present; otherwise the item is appended |
| Seeding.InsertAllIfAbsent | backend/src/seed_verification.ts:77-82 | the existing records are kept as a prefix, at most as many records as there are items are added, afterwards every item's key is present, and every added record's key was absent from all records before it |
| Seeding.AddedKeysAreNew | backend/src/seed_verification.ts:77-82 | no added record shares its key with a stored record or with another added record: an item whose key exists, or was added earlier in the loop, is skipped |
| Seeding.AllPresentInsertsNothing | backend/src/seed_verification.ts:77-82 | when every item's key is present the loop inserts nothing |
| Seeding.InsertAllIdempotent | backend/src/seed_verification.ts:77-82 | a second run of the insert-if-absent loop adds nothing |
| Seeding.InsertedComeFromItems | backend/src/seed_verification.ts:77-82 | every added record is one of the seed items |
| SeedRooms.Prefix | backend/scripts/seedRooms.ts:67-69 | D exactly for Deluxe, PG exactly for Premium Gold, PS exactly for Premium Silver, N for every other name |
| SeedRooms.RoomNumber | backend/scripts/seedRooms.ts:94-97 | a room number is the category prefix followed by a non-empty number |
| SeedRooms.RoomNumberInjective | backend/scripts/seedRooms.ts:94-97 | under one prefix, different indexes give different room numbers |
| SeedRooms.CountInCategory | backend/scripts/seedRooms.ts:56-58 | the count never exceeds the number of rooms |
| SeedRooms.NewRooms | backend/scripts/seedRooms.ts:63-82 | nothing for a category with 25 or more rooms; otherwise exactly enough rooms to reach 25, each AVAILABLE, with the category's name, price, capacity and id |
| SeedRooms.NewRoomNumbersDistinct | backend/scripts/seedRooms.ts:72-73 | the i-th new room is numbered prefix + (100 + existing + i), so the numbers of one top-up are pairwise distinct |
| SeedRooms.TopUp | backend/scripts/seedRooms.ts:63-88 | the existing rooms are kept as a prefix |
| SeedRooms.TopUpReachesTarget | backend/scripts/seedRooms.ts:63-88 | afterwards the category holds 25 rooms, or as many as before if that was more |
| SeedRooms.FullCategoryGetsNothing | backend/scripts/seedRooms.ts:63 | a category with 25 or more rooms gets no rooms |
| SeedRooms.TopUpIdempotent | backend/scripts/seedRooms.ts:56-88 | a second top-up adds nothing |
| SeedRooms.TopUpLeavesOthers | backend/scripts/seedRooms.ts:72-86 | a top-up leaves every other category's room count as it was |
| SeedRooms.SeedCategory | backend/scripts/seedRooms.ts:39-88 | an existing category is not overwritten, and the existing rooms are kept as a prefix |
| SeedRooms.SeedCategoryIdempotent | backend/scripts/seedRooms.ts:39-88 | seeding a category twice leaves what seeding it once left |
| SeedRooms.FirstNamedIsStable | backend/scripts/seedRooms.ts:41-51 | a repeated upsert returns the same category as the first one |
| SeedVerification.CandidateRooms | backend/src/seed_verification.ts:44-58 | one candidate per i in 1..count, numbered prefix + (100 + i), carrying the given status and the category's id, name, price and capacity |
| SeedVerification.CreateRoomsWithStatus | backend/src/seed_verification.ts:38-61 | the existing rooms are kept as a prefix, the added rooms carry the status and the category id, and no added room reuses a number already taken before it |
| SeedVerification.CreateRoomsCoversNumbers | backend/src/seed_verification.ts:44-48 | afterwards every number from prefix + 101 to prefix + (100 + count) is taken by some room |
| SeedVerification.CreateRooms | backend/src/seed_verification.ts:38-61 | the existing rooms are kept, every added room carries the mixed-case status `Available`, and no added room reuses a number already taken |
| SeedVerification.CreateRoomsIdempotent | backend/src/seed_verification.ts:47-48 | a second run creates no room |
| SeedVerification.AddedRoomsCount | backend/src/seed_verification.ts:53 | the available count grows by the number of added rooms when their status is exactly AVAILABLE, and not at all otherwise |
| SeedVerification.SeededRoomsNeverCounted | backend/src/seed_verification.ts:53 | the rooms this script adds never raise the available count that the trip forms read |
| SeedVerification.SeededDeluxeBookingRefused | backend/src/seed_verification.ts:53 | a Deluxe category holding only the rooms this script created has rooms but none available, so booking even one Deluxe room trips the planner's capacity check |
| SeedVerification.CreateAvailableRooms | backend/src/seed_verification.ts:38-61 | `createRooms` with the status AVAILABLE: the existing rooms are kept, every added room is AVAILABLE, and no added room reuses a number already taken |
| SeedVerification.SeededAvailableRoomsCounted | backend/src/seed_verification.ts:53 | with status AVAILABLE every added room counts as available |
| SeedVerification.SeedStaff | backend/src/seed_verification.ts:69-82 | the existing staff are kept as a prefix, at most five are added, every seed name is present afterwards, and no added member's name was already present |
| SeedVerification.SeedActivities | backend/src/seed_verification.ts:85-104 | the existing activities are kept as a prefix, at most two are added, every seed name is present afterwards, and no added activity's name was already present |
| SeedVerification.StaffAndActivitiesIdempotent | backend/src/seed_verification.ts:77-104 | running the staff and activity loops again adds nothing |

## Left out

- Money amounts (category and room prices, staff salaries, activity costs,
  the dashboard's revenue and expenses, and the trip history's cost fields)
  are integers, so their sums and differences are exact. JavaScript's
  `number` also allows fractional amounts and rounds them under IEEE-754,
  losing precision above 2^53; neither is modelled, nor is the `Math.round`
  applied when the planner displays its totals.
- Rendering, styling, charts, the dashboard page's fixed figures, and the
  loading and error states of every page. These are user interface.
- Authentication, tokens, local storage and the HTTP client. These are
  foreign library calls and browser I/O.
- The thin store wrappers: the activity, staff and cruise controllers, and
  in the room controller `getAllRooms` and `updateRoom`, which passes the
  request body to the store's update unchanged. They only pass data through.
- The seed scripts' data lists (category names, prices, features, images and
  the per-category room plans) are not written out: the seeding rules are
  modelled for any list, and the findings use the Deluxe plan (prefix D,
  20 rooms).
- The server-side trip history, archive and delete handlers. Their source is
  not part of this model.
- The dashboard's record counts, its six-month bucket loop and the random
  `getMonthlyRevenue`. They depend on the clock or on randomness, or only
  count stored rows.
- The dashboard's `maintenanceRooms` list: a plain store query for rooms with
  status `MAINTENANCE`, returned as it is read.
- Pagination.Render: takes the page size as a parameter, so the
  `itemsPerPage = 10` default of the pager's props is not modelled.
- GenerateTrip.IsCompleted: the parsed end time is an integer parameter, so an
  unparsable end date (`NaN < now` is false, so no offer) is not modelled.
- Console logging in the seed scripts. Their `main` loop over the four
  categories is modelled one category at a time, as `SeedRooms.SeedCategory`.
- The `!deluxe || !gold || ...` guard of the verification seed. After the
  upserts above it, it cannot fire.
- The rooms' `orderBy` in the category update response. It only orders the
  output.
- Booking.Passengers: room counts typed into the forms are strings converted
  with `Number()` in the source. The model takes them as integers, so
  non-numeric input and fractions are not modelled. This also applies to
  `TripForm.Calculate`, `TripForm.IsCapacityExceeded` and
  `TripArchive.Calculate`.
- TripHistory.HandleSubmit: the modal's counts are taken as integers. The
  source compares them after `Number()`, and its message shows the total as
  typed.
- Booking.DurationDays: date parsing is the total function `timeOf`. An
  unparsable date, which gives NaN in the source, is not modelled.
- TripArchive.StaffCostPerDay: salary / 30 is exact `real` division, not an
  IEEE double.
- TripHistory.Lower: only ASCII letters are lower-cased. Unicode case
  mapping is not modelled.
- TripHistory.FilterCruises: a row's start month and year arrive already
  computed. Local-time date parsing is not modelled.
- Decimal.IntToString: JavaScript's exponent notation for numbers of 1e21
  and above is not modelled.
- RoomController.CreateRoom: request prices and capacities arrive as
  optional integers. `Number()` of a non-numeric string and a truthy string
  such as "0" are not modelled. The store's foreign-key check on
  `categoryId` is not modelled either.
- RoomController.UpdateCategory: `Number(price)` is applied to an
  already-numeric value.
- SeedRooms.TopUp: room-number uniqueness in the store is not modelled. The
  top-up numbers new rooms from the current count, so after deletions a new
  number can repeat an existing one. The database schema that would decide
  what happens then is not part of this model.
- The price table of the ticket revenue: the code falls back to price 0 for
  a missing category (`cat?.price || 0`). It has no hard-coded per-tier
  default price. The model follows the code.

## Findings

| source | as written | input that shows it | evidently intended | confidence | as-written member | corrected member |
|---|---|---|---|---|---|---|
| backend/src/seed_verification.ts:53 | rooms are created with status `'Available'`, while the trip forms count only the exact status `'AVAILABLE'` (src/components/TripForm.tsx:101, src/pages/AddTripArchive.tsx:101), which every other writer uses (backend/src/controllers/room.controller.ts:76, backend/scripts/seedRooms.ts:79) | an empty Deluxe category seeded by this script: 20 rooms are created, and the planner reports 0 available, so booking any Deluxe room is refused as over capacity | the seeded rooms are bookable, that is, they carry status `AVAILABLE` | not executed | SeedVerification.SeededRoomsNeverCounted, SeedVerification.SeededDeluxeBookingRefused | SeedVerification.SeededAvailableRoomsCounted |
