# Proofs about the booking engine

These Dafny files model the core of the booking engine: how free slots are
computed, how bookings and sessions are made, moved, cancelled and deleted, how
jobs are queued and claimed, how mail is kept from being sent twice, and the
histories of templates and refresh tokens. `dafny verify dfyconfig.toml` checks
all of them.

## How the model is built

* An instant is a whole number of nanoseconds since 1970-01-01 UTC, a date a
  number of days. A time zone is a base offset and a list of changes; looking up
  a wall-clock time gives an instant only if the clock shows it exactly once.
  `now`, the zone, and the success of a fallible write are parameters.
* `Store.dfy` holds the tables of one event as values and each repository call
  as a function from tables to tables. `Handlers.dfy` states what each booking
  handler replies and writes, given what it read. A query may return its rows in
  any order.
* `Server.dfy` is the imperative side: a class with the tables as fields, the
  queries as loops over them, and the handlers in the order in which they read,
  check and write. Every method is proved to reply and to leave the tables
  exactly as the functions of `Handlers.dfy` and `ManualSchedule.dfy` say.
  `Availability.dfy` does the same for the slot computation with its array of
  saturating counters and its cursor loop; `JobQueue.dfy`, `Mail.dfy`,
  `Templates.dfy` and `Tokens.dfy` hold the classes of their own components.
* Protocols are state machines over these functions; their theorems are about
  every run, and where requests interleave, about every interleaving.

| file | content |
|---|---|
| `Time.dfy`, `Rfc3339.dfy`, `Sorting.dfy`, `Counting.dfy`, `Results.dfy`, `Runs.dfy` | zones, the text form of instants, sorting, counting, invariants of runs |
| `Models.dfy`, `Store.dfy`, `Handlers.dfy`, `RequestText.dfy`, `Integrity.dfy`, `Server.dfy` | records, tables, handlers, the time field of a request |
| `Availability.dfy`, `SlotTheory.dfy`, `DateListing.dfy` | slots and available dates |
| `Interleaving.dfy`, `Overbooking.dfy`, `Filling.dfy`, `Tightness.dfy`, `SerialBookings.dfy` | how far concurrent requests overbook, and that they can |
| `ManualSchedule.dfy`, `SoundSessions.dfy`, `ManualOverbooking.dfy`, `ManualTightness.dfy` | sessions of MANUAL events |
| `Invitations.dfy`, `Undo.dfy` | invitation tokens, what a call undoes |
| `JobQueue.dfy`, `Reminders.dfy`, `Mail.dfy` | jobs, reminders, mail |
| `Templates.dfy`, `Tokens.dfy` | version history, token rotation |
| `Witnesses.dfy` | inputs on which bounds are met and properties fail |

## What the proofs found

* Counters run by elapsed minutes and the cursor by the clock. The capacity check
  of a slot agrees with the interval definition, for all bookings on whole
  minutes and all capacities up to 255, if and only if the slot lies its clock
  minutes after the start of the day and ends by 23:59:59
  (`SlotTheory.CheckExact`). On a date with one offset that fails only for slots
  until midnight (`SlotTheory.SteadyCheckIsRight`); on a date on which the offset
  changes, a fully booked slot can be offered again
  (`SlotTheory.ChangedDayOverbooks`, `SlotTheory.ChangedDayCheckIsWrong`). Minute
  23:59 is never counted, and a capacity above 255 is never reached.
* With k requests between read and write, for whatever dates, a minute of a date
  with one offset can hold k - 1 bookings more than its capacity, and besides them
  only bookings that last into the date from one on which the clock changes
  (`Overbooking.OverbookingBound`); edits that write back the times they read are
  included. Such a booking is one whose last instant shows the date
  (`Overbooking.SpillExact`); it can take a minute outside all windows
  (`Witnesses.SlotSpills`), and where accepted slots end on their date there is
  none (`Overbooking.ContainedRunBound`). The bound asks for capacities up to 255
  of the windows over that minute, and at 23:59 for slots longer than a minute;
  where a slot breaks this rule, serial requests book it any number of times
  (`Tightness.UncountedFills`). From an empty calendar the bound is met for every
  capacity and every k (`Tightness.BoundIsMet`, `Witnesses.PlainBoundIsMet`).
* The same bound holds for the sessions of MANUAL events and is met
  (`ManualOverbooking.SessionOverbookingBound`,
  `ManualTightness.SessionBoundIsMet`).
* A session works as one if and only if it lasts at least a minute and the read of
  its date lists the bookings on it: then an accepted creation for its last place
  is on that session alone and the next one is refused, otherwise not
  (`SoundSessions.SoundExact`). Where a clock jumps by seconds, a session can be
  shorter than a minute (`Witnesses.BriefSession`) and never fills
  (`ManualSchedule.BriefSessionNeverFills`); where it jumps more often, one place
  can be given away twice (`Witnesses.PlaceTakenTwice`), and a session can end
  before it starts (`Witnesses.InvertedSession`).
* The batch listing of dates has a test of the active range that the query for
  one date lacks. It lists a date if and only if that query has slots and the day
  meets the range (`DateListing.BatchExact`); for RECURRING events the second
  part follows (`DateListing.BatchIsPerDay`), for MANUAL ones it does not
  (`Witnesses.ManualDateSkipped`).
* An admin edit keeps pending reminders fresh if and only if each of them is due
  for the new start as well (`Reminders.EditExact`); moving a booking can leave
  one behind (`Witnesses.EditLeavesReminder`).
* A cancellation that read its booking before another one wrote can hand out an
  invitation whose holder has rebooked (`Invitations.StaleCancel`); the exact
  condition is `Invitations.CancelExact`.
* A custom reminder made together with a booking is sent under the 24-hour or
  the 1-hour rule, not its own; one made by a reschedule keeps its rule
  (`Reminders.ReminderResolution`).
* w workers record the same message at most w times (`Mail.AtMostOnePerWorker`),
  and for every w they can (`Mail.EveryWorkerRepeats`).
* Two refreshes that found the same token leave two live tokens in its family
  (`Tokens.TwoRefreshesFork`); the exact condition is `Tokens.RotateExact`.
* A template update that fails after logging its version leaves log and template
  apart unless it changed nothing (`Templates.HalfAnUpdate`).

## Model

| member | source | states |
|---|---|---|
| Time.Zone.SingleExact | src/api/handlers/booking.rs:69-72 | looking up a wall-clock time succeeds exactly for the times the local clock shows once, with that instant |
| Time.Zone.OrderKept | src/api/handlers/event.rs:249-253 | where segments outlast the jumps around them, wall-clock times shown once come in the order of their instants |
| Models.WeekConfig.WeekdaysFollow | src/domain/services/availability.rs:114-122 | from Thursday 1970-01-01 on, the weekdays follow each other week after week |
| Rfc3339.CalendarClosedForm | src/domain/services/availability.rs:172 | walking the years one by one finds the date that the closed form of the Gregorian calendar names, and day 0 is 1970-01-01 |
| Rfc3339.StringOrderIsTimeOrder | src/domain/services/availability.rs:172 | for all instants of the years 0000 to 9999, fractions of a second included, string order is time order and equal strings mean equal instants |
| Rfc3339.TextIdentifies | src/domain/services/availability.rs:172 | equal strings mean equal instants in every year, those written with a sign included |
| Sorting.SortDedup | src/domain/services/availability.rs:181-183 | sort and dedup give a strictly ascending list with exactly the same strings |
| Sorting.Sort | src/domain/services/availability.rs:181 | an ascending permutation of the strings |
| Sorting.StrictUnique | src/domain/services/availability.rs:181-183 | a set of strings has one strictly ascending list |
| Availability.CountMinutes | src/domain/services/availability.rs:66-100 | every counter equals the saturated number of bookings that count towards its minute, all indices are in range, and the running minimum answers whether a booking of the day starts before t |
| Availability.IncrementRange | src/domain/services/availability.rs:96-98 | exactly the counters of the range grow by one, stopping at 255 |
| Availability.CheckRoom | src/domain/services/availability.rs:158-165 | true exactly when every minute of the slot before 24:00 is below the capacity |
| Availability.WalkWindow | src/domain/services/availability.rs:138-176 | the cursor loop ends and finds exactly the instants that some step of the window offers |
| Availability.RecurringStarts | src/domain/services/availability.rs:66-179 | finds exactly the slots of a RECURRING date, none for zero duration or interval |
| Availability.ManualStarts | src/domain/services/availability.rs:20-37 | finds exactly the starts of sessions on the date with fewer overlapping bookings than places |
| Availability.CalculateSlots | src/domain/services/availability.rs:11-184 | panics exactly when a day bound is skipped or repeated; otherwise returns the strictly ascending list of the slots' strings |
| SlotTheory.CountsMeaning | src/domain/services/availability.rs:76-98 | a booking counts towards a minute when it starts before the minute ends and lasts until then, within the day up to 23:59:59 |
| SlotTheory.AlignedCounts | src/domain/services/availability.rs:90-98 | on a 24-hour date a minute-aligned booking counts towards exactly the minutes it covers before 23:59 |
| SlotTheory.SlotsExact | src/domain/services/availability.rs:66-184 | on a date with one offset and minute-aligned bookings, an instant is a slot if and only if some window has it on its grid, every minute before 23:59 is covered by fewer bookings than the capacity (any capacity above 255 counts as room), and cutoff and active range admit it |
| SlotTheory.CheckExact | src/domain/services/availability.rs:90-165 | on any date of any zone, the capacity check of a slot agrees with the interval definition for all aligned bookings and all capacities up to 255 if and only if the slot lies its clock minutes after the start of the day and ends by 23:59:59 |
| SlotTheory.SteadyCheckIsRight | src/domain/services/availability.rs:90-165 | on a date with one offset the check of a slot is right if and only if the slot ends before midnight |
| SlotTheory.OffersOnAnyDate | src/domain/services/availability.rs:138-176 | on any date, a step whose slot lies its clock minutes after the start of the day and ends by 23:59:59 is offered exactly by the interval definition |
| SlotTheory.SettingsOrder | src/domain/services/availability.rs:47-64 | the window's capacity wins over the override's and that over the event's, an override's windows win over the event's, and a window until 23:59 lasts until midnight |
| SlotTheory.ChangedDayOverbooks | src/domain/services/availability.rs:90-94 | a date with an offset change on which a slot of capacity 1 that is fully booked is offered |
| SlotTheory.ChangedDayCheckIsWrong | src/domain/services/availability.rs:90-94 | on that date the check of that slot disagrees with the interval definition |
| SlotTheory.SlotIsServed | src/domain/services/availability.rs:172 | every slot of a date within the years 0000 to 9999 lies in those years |
| SlotTheory.ContainsIsMembership | src/api/handlers/booking.rs:118-120 | the string is in the list exactly when the instant is a slot |
| SlotTheory.ListIsChronological | src/domain/services/availability.rs:181-183 | positions in the list follow time |
| SlotTheory.OrderIndependence | src/infra/repositories/postgres_booking_repo.rs:58-60 | two listings with the same multiset of bookings give the same slot list |
| SlotTheory.OneMoreBooking | src/domain/services/availability.rs:73-104 | a booking can add a slot only if the general notice is the shorter one, and then only a slot strictly after the booking, after the general and not after the first cutoff |
| Store.CountListing | src/infra/repositories/postgres_booking_repo.rs:84-87 | counting listed rows counts the matching rows of the table, in whatever order they come |
| Handlers.ListedExact | src/api/handlers/booking_management.rs:131-134 | the handlers' string test is slot membership |
| Handlers.ThreeHandlersAgree | src/api/handlers/booking.rs:76-123 | for RECURRING events, admin update and reschedule accept the same requested times with the same placement, and create accepts those not in the past, which are all of them when notices are non-negative |
| Handlers.ManualHandlersAgree | src/api/handlers/booking.rs:76-138 | for MANUAL events, admin update and reschedule accept the same times, starts of sessions with places left until the session's end at its location; create accepts those not in the past and within the active range |
| Handlers.SlotPassesGuards | src/api/handlers/booking.rs:76-102 | for a slot of a RECURRING event the other guards of creation come down to "not in the past" |
| Handlers.StartOnDate | src/api/handlers/booking.rs:58-72 | a requested time gives a start on the requested date |
| Handlers.SessionAt | src/api/handlers/booking.rs:106 | a listed session with that start, or none has it |
| Handlers.AccessExact | src/api/handlers/booking.rs:32-53 | access is granted exactly to anyone for OPEN events and to the holder of an active invitation for RESTRICTED ones, and conflicts exactly for a known token that is not active |
| Handlers.ReadsAgree | src/api/handlers/event.rs:314-336 | two answers to the same queries offer the same slots |
| Handlers.OneSlotList | src/api/handlers/event.rs:297-342 | and give the same list |
| Handlers.SlotRoundTrip | src/api/handlers/booking.rs:58-72 | a slot's own text names its instant again in any zone |
| Handlers.OfferedIsAccepted | src/api/handlers/booking.rs:14-181 | a slot listed for an OPEN RECURRING event, sent back as its instant, is accepted on the same tables: the new row has that start and the event's duration, all other rows stay |
| RequestText.ReadsBack | src/api/handlers/booking.rs:58-61 | reading the RFC 3339 text of an instant of the years 0000 to 9999 gives back that instant |
| RequestText.DateOfFields | src/api/handlers/booking.rs:59 | year, month and day of a date from the year 0000 on name that date |
| RequestText.OfferedTextIsAccepted | src/api/handlers/booking.rs:14-181 | a string of the slot list, sent back as it is, is accepted and books the slot it was written for |
| Handlers.CreateEffect | src/api/handlers/booking.rs:91-180 | an accepted creation adds one confirmed row at the requested instant, which was a listed slot |
| Handlers.RescheduleEffect | src/api/handlers/booking_management.rs:101-146 | an accepted reschedule changes one live row to the requested instant, which was a listed slot, until the end of its session if there is one |
| Handlers.UpdateEffect | src/api/handlers/booking.rs:216-313 | an accepted edit changes one row only, keeps its status and invitee, writes customer, label, payout and token as asked, and moves it only to a listed slot |
| Undo.CreateWrites | src/infra/repositories/postgres_booking_repo.rs:23-45 | creation adds one row and uses up the invitee it names, nothing else |
| Undo.DeleteUndoesCreate | src/api/handlers/booking.rs:315-324 | deleting a new booking gives back the old rows |
| Undo.CancelUndoesCreate | src/api/handlers/booking_management.rs:34-66 | cancelling a new booking gives back its invitation, and every date offers exactly the slots it offered before |
| Integrity.CreateKeepsValid | src/domain/models/booking.rs:39-68 | creation keeps ids, management tokens, invitation tokens and override dates unique |
| Integrity.RescheduleKeepsValid | src/api/handlers/booking_management.rs:141-177 | so does a reschedule with all the jobs it makes |
| Integrity.CancelKeepsValid | src/api/handlers/booking_management.rs:52-63 | so does a cancellation with its notices |
| Integrity.UpdateKeepsValid | src/api/handlers/booking.rs:310 | so does an admin edit |
| Integrity.Replaced | src/infra/repositories/postgres_event_override_repo.rs:17-41 | replacing the row of a date changes the lookup at that date only |
| Integrity.Removed | src/infra/repositories/postgres_event_override_repo.rs:66-78 | removing the row of a date leaves no override there and changes no other date |
| Integrity.InsertKeepsOrder | src/infra/repositories/postgres_session_repo.rs:58-68 | rows stay in the order of their starts |
| Server.AppState.ListByRange | src/infra/repositories/postgres_booking_repo.rs:58-60 | returns each live row that meets the range, once |
| Server.AppState.ListSessions | src/infra/repositories/postgres_session_repo.rs:58-68 | returns the sessions that meet the range in the order of their starts |
| Server.AppState.CountOverlaps | src/infra/repositories/postgres_booking_repo.rs:84-87 | the number of live bookings that meet the interval |
| Server.AppState.FindByToken | src/infra/repositories/postgres_booking_repo.rs:49-51 | finds the row with the management token or tells that there is none |
| Server.AppState.FindInvitee | src/api/handlers/booking.rs:38-39 | finds the invitee with the token or tells that there is none |
| Server.AppState.FindByDate | src/infra/repositories/postgres_event_override_repo.rs:43-52 | finds the override of the date |
| Server.AppState.ListOverrides | src/infra/repositories/postgres_event_override_repo.rs:54-64 | returns the overrides of the range, one per date |
| Server.AppState.FindOverlap | src/infra/repositories/postgres_session_repo.rs:96-106 | true exactly when some session meets the interval |
| Server.AppState.GetRulesByTrigger | src/infra/repositories/postgres_communication_repo.rs:109-118 | each rule of the event and its tenant for the trigger once, those of the event first, so that the first one is a rule of the event if there is one |
| Server.AppState.UpsertOverride | src/infra/repositories/postgres_event_override_repo.rs:17-41 | afterwards the date looks up the new override, every other date what it did; one row per date |
| Server.AppState.DeleteOverride | src/infra/repositories/postgres_event_override_repo.rs:66-78 | afterwards the date looks up nothing, every other date what it did; not found exactly when there was none |
| Server.AppState.CreateWithToken | src/infra/repositories/postgres_booking_repo.rs:23-45 | burns the token, inserts the booking and its jobs; on an error invitees, bookings and jobs are unchanged |
| Server.AppState.UpdateRow | src/infra/repositories/postgres_booking_repo.rs:61-71 | writes times, customer, location, label, token and payout, not the status |
| Server.AppState.CancelRow | src/infra/repositories/postgres_booking_repo.rs:72-78 | cancels the row and frees its invitee |
| Server.AppState.CheckInvitation | src/api/handlers/booking.rs:32-53 | the access check |
| Server.AppState.ReadDay | src/api/handlers/event.rs:314-334 | the rows, override and sessions of one date |
| Server.AppState.CheckSlots | src/api/handlers/booking.rs:116-120 | the string test against the computed slots |
| Server.AppState.PlaceNew | src/api/handlers/booking.rs:58-128 | the time guards of creation in order, on a read of the requested date |
| Server.AppState.PlaceMoved | src/api/handlers/booking_management.rs:91-139 | the time guards of a reschedule, with its panics on skipped or repeated times |
| Server.AppState.PlaceEdited | src/api/handlers/booking.rs:258-307 | the time guards of an admin edit |
| Server.AppState.BuildCreationJobs | src/api/handlers/booking.rs:142-173 | the jobs of a new booking, one per rule that asks for one |
| Server.AppState.CreateReminders | src/api/handlers/booking_management.rs:156-177 | the renewed reminders of a moved booking |
| Server.AppState.CreateNotices | src/api/handlers/booking_management.rs:58-63 | one notice for each rule |
| Server.AppState.MoveBooking | src/api/handlers/booking_management.rs:146-177 | the row, then cancelled jobs, notices and reminders |
| Server.AppState.RenewJobs | src/api/handlers/booking_management.rs:148-177 | pending jobs of the booking are cancelled, notices and reminders for its new start inserted |
| Server.AppState.ReleaseBooking | src/api/handlers/booking_management.rs:52-63 | the row and its invitee, then cancelled jobs and notices |
| Server.AppState.InsertBooking | src/api/handlers/booking.rs:142-176 | the jobs and the insert of a new booking |
| Server.AppState.CreateBooking | src/api/handlers/booking.rs:14-181 | replies and leaves the tables as specified, keeps them valid, and changes nothing on an error |
| Server.AppState.RescheduleBooking | src/api/handlers/booking_management.rs:68-181 | the same for a reschedule by management token |
| Server.AppState.RescheduleFound | src/api/handlers/booking_management.rs:76-181 | replies and leaves the tables as specified once the booking is found |
| Server.AppState.CancelBooking | src/api/handlers/booking_management.rs:34-66 | the same for a cancellation, which is a no-op the second time |
| Server.AppState.UpdateBooking | src/api/handlers/booking.rs:216-313 | the same for an admin edit of customer, label, payout, token and time |
| Server.AppState.EditFields | src/api/handlers/booking.rs:226-247 | the fields that the request names, an empty label or token as none |
| Server.AppState.NewTimes | src/api/handlers/booking.rs:249-307 | the times of the booking, moved only if both date and time are given |
| Server.AppState.DeleteBooking | src/api/handlers/booking.rs:315-324 | the row goes, or not found |
| Server.AppState.GetSlots | src/api/handlers/event.rs:297-342 | forbidden for closed events; otherwise the slot list of the date, or a panic if its bounds are skipped or repeated |
| Server.AppState.GetAvailableDates | src/api/handlers/event.rs:232-295 | panics exactly when a bound of the range is skipped or repeated; otherwise lists the available dates of one range query in order |
| Server.AppState.CreateSession | src/api/handlers/session.rs:12-62 | the session handler's guards in order, then one new session |
| Server.AppState.UpdateSession | src/api/handlers/session.rs:77-113 | refuses a capacity below the bookings there are, otherwise changes capacity, location and host of one session |
| Server.AppState.DeleteSession | src/api/handlers/session.rs:116-140 | refuses while bookings overlap the session |
| DateListing.WalkDates | src/api/handlers/event.rs:270-292 | the date loop keeps, in order, exactly the dates with slots |
| DateListing.DayRows | src/api/handlers/event.rs:278-281 | exactly the listed bookings that meet the day |
| DateListing.OverrideAgrees | src/infra/repositories/postgres_event_override_repo.rs:43-64 | the search in the listed overrides finds what the query for the date finds |
| DateListing.RangeReadsDay | src/api/handlers/event.rs:275-281 | the rows kept for a day are an answer to the query for that day |
| DateListing.PruneLosesNothing | src/api/handlers/event.rs:277 | a date with slots meets the active range |
| DateListing.BatchExact | src/api/handlers/event.rs:249-336 | the batch lists a date if and only if the query for that date alone has slots and the day meets the active range, on the same tables at the same time, for both kinds of schedule |
| DateListing.BatchIsPerDay | src/api/handlers/event.rs:249-336 | for RECURRING events the batch lists a date exactly when the query for that date alone has slots |
| Witnesses.ManualDateSkipped | src/api/handlers/event.rs:277 | a MANUAL event and a date with a free session that the batch skips |
| Overbooking.ReadSeesRoom | src/api/handlers/booking.rs:91-123 | a slot that is offered on a date with one offset lies in a window with more places than the bookings of the date on any of its minutes, 23:59 included |
| Overbooking.StepKeepsInv | src/api/handlers/booking_management.rs:109-146 | reads for any date, writes, failures, cancellations, deletions and edits, with new times or with those read, keep bookings and waiting requests together within the bound |
| Overbooking.OverbookingBound | src/api/handlers/booking.rs:91-176 | in every interleaving with at most k requests between read and write, for whatever dates, a minute of a date with one offset holds at most its largest window capacity plus k - 1 bookings, none outside all windows with room, and besides them only bookings that last into the date from one on which the clock changes |
| Overbooking.ContainedRunBound | src/api/handlers/booking.rs:91-176 | where accepted slots of dates on which the clock changes end on their date, the bound holds of all bookings |
| Overbooking.SpillExact | src/api/handlers/booking.rs:91-94 | a slot of at most a day that starts on another date covers a minute of a date with one offset if and only if its last instant shows that date |
| Witnesses.SlotSpills | src/api/handlers/booking.rs:14-181 | for every date on which the clock is put forward, an accepted slot that takes 00:00 of the next date, which is closed |
| Interleaving.BlindKeeps | src/api/handlers/booking.rs:223-310 | no step but the read of a free time adds to the bookings that hold a place or may come to hold it |
| Tightness.BoundIsMet | src/api/handlers/booking.rs:91-176 | from an empty calendar, any slot of the widest window over a minute can be booked until the minute holds its largest capacity plus k - 1 bookings |
| Tightness.UncountedFills | src/domain/services/availability.rs:90-165 | a slot of a capacity above 255, or of the one minute 23:59, can be booked any number of times, one request after the other |
| Witnesses.PlainBoundIsMet | src/api/handlers/booking.rs:91-176 | for every capacity and every k there is an event with a run that meets the bound |
| Overbooking.SerialRunsRespectCapacity | src/api/handlers/booking.rs:91-176 | serial requests, for whatever dates, never exceed capacity but for bookings that last into the date |
| SerialBookings.HandlerIsTwoSteps | src/api/handlers/booking.rs:91-176 | every handler call is at most two steps of the machine of interleaved requests, with one request at a time |
| SerialBookings.HandlersRespectCapacity | src/api/handlers/booking_management.rs:109-146 | over every serial run of creation, reschedule, admin edit, cancellation and deletion, for whatever dates, no minute of a date with one offset exceeds the largest capacity of a window covering it but for bookings that last into the date, of which there are none if the live bookings end on their dates |
| Witnesses.CapacityIsReached | src/api/handlers/booking.rs:14-181 | on an empty day the one place of a window is booked, and the minute is then as full as its capacity |
| SoundSessions.SoundExact | src/api/handlers/session.rs:37-58 | an accepted creation takes the last place of a session, being on that session alone and leaving no request for its start acceptable, if and only if the session lasts a minute and the read of its date lists the bookings on it |
| SoundSessions.FullIsRefused | src/domain/services/availability.rs:20-37 | no creation is accepted for the start of a sound session without places left |
| SoundSessions.UnseenIsBookedAgain | src/domain/services/availability.rs:29-34 | where the read of the date does not list the bookings on a session, the same request is accepted again, however few places there are |
| ManualSchedule.RegularSessionIsVisible | src/api/handlers/session.rs:37-47 | where segments outlast their jumps, the read of the date lists the bookings on a session that lasts a minute |
| ManualSchedule.OrdinarySessionLasts | src/api/handlers/session.rs:30-47 | where besides the clock jumps by whole minutes between its ends, a new session lasts whole minutes, at least one |
| ManualSchedule.BriefSessionNeverFills | src/api/handlers/booking.rs:124-138 | a booking on a shorter session has no length and never counts against its places |
| Witnesses.BriefSession | src/api/handlers/session.rs:30-58 | a zone and a session from 01:00 to 01:01 that lasts 30 seconds |
| Witnesses.UnseenSession | src/api/handlers/session.rs:30-58 | for every date, a zone and a session from 00:10 to 00:20 whose bookings end as their date begins |
| Witnesses.PlaceTakenTwice | src/api/handlers/booking.rs:14-181 | the one place of such a session is given to two bookings, one after the other |
| Witnesses.InvertedSession | src/api/handlers/session.rs:30-58 | a zone and a session from 05:30 to 11:30 that ends before it starts |
| ManualSchedule.UpdateSessionKeepsInv | src/api/handlers/session.rs:94-110 | capacity stays at or above attendance |
| ManualSchedule.DeleteSessionKeepsInv | src/api/handlers/session.rs:132-137 | no attended session is deleted |
| ManualSchedule.OverlapIsAttendance | src/infra/repositories/postgres_booking_repo.rs:84-87 | the live bookings that overlap a session are those that start with it and end on it |
| ManualSchedule.AcceptedHasPlace | src/domain/services/availability.rs:29-34 | the session found for an accepted start has a place left |
| ManualSchedule.StartNamesSession | src/api/handlers/booking.rs:104-107 | a start time names at most one session |
| ManualSchedule.StepKeepsInv | src/api/handlers/booking_management.rs:119-146 | every booking and session handler keeps sessions apart and bookings on their sessions within capacity |
| ManualSchedule.SessionCapacity | src/api/handlers/session.rs:94-137 | in any zone, over every serial run in which new sessions last a minute and have their bookings listed, sessions never meet, each live booking is on exactly one session, and no session is overlapped by more live bookings than its places |
| ManualOverbooking.SessionOverbookingBound | src/api/handlers/booking.rs:91-176 | in every interleaving with at most k requests between read and write, no session is overlapped by more live bookings than its places plus k - 1 |
| ManualTightness.SessionBoundIsMet | src/api/handlers/booking.rs:91-176 | any session on the timetable that can be asked for comes to be overlapped by its places plus k - 1 live bookings, for every k |
| Witnesses.PlainSessionOverbooked | src/api/handlers/booking.rs:91-176 | for every number of places and every k there is such a session |
| Invitations.BurnsOne | src/infra/repositories/postgres_booking_repo.rs:25-28 | a commit conflicts exactly when no active invitee has the token; otherwise exactly that invitee turns from active to used |
| Invitations.CancelExact | src/infra/repositories/postgres_booking_repo.rs:72-78 | a cancellation keeps one booking per invitation if and only if the invitee holds no other live booking when it writes |
| Invitations.StaleCancel | src/api/handlers/booking_management.rs:38-52 | a second cancellation, read before the first wrote, breaks it |
| Invitations.ReactivationExact | src/api/handlers/invitee.rs:51-56 | reactivating an invitee is safe if and only if no live booking is held |
| Invitations.TokenBacksOneBooking | src/api/handlers/booking.rs:34-50 | in every interleaving of creations with atomic cancellations, an invitation backs at most one live booking and an active one none |
| JobQueue.JobRepo.SelectPending | src/infra/repositories/postgres_job_repo.rs:39-46 | selects due jobs up to the limit, none later than a due job left out |
| JobQueue.JobRepo.FindPending | src/infra/repositories/postgres_job_repo.rs:33-57 | claims that selection and nothing else |
| JobQueue.JobRepo.UpdateStatus | src/infra/repositories/postgres_job_repo.rs:69-78 | writes the status whatever it was |
| JobQueue.JobRepo.CancelJobsForBooking | src/infra/repositories/postgres_job_repo.rs:80-87 | cancels the pending jobs of the booking only |
| JobQueue.JobRepo.PollOnce | src/background.rs:17-56 | one poll claims exactly a batch of due jobs and marks each as completed or failed; those whose status write fails stay in processing |
| JobQueue.PollsPartition | src/infra/repositories/postgres_job_repo.rs:33-57 | after any polls the due jobs are those not claimed |
| JobQueue.StepKeepsOwned | src/background.rs:18-55 | every step of any number of workers keeps each claimed job in one hand, in processing |
| JobQueue.FinalStaysFinal | src/infra/repositories/sqlite_job_repo.rs:55-64 | completed, failed and cancelled jobs never change, although the status write is unconditional |
| JobQueue.ExactlyOnceClaiming | src/infra/repositories/sqlite_job_repo.rs:33-73 | in every interleaving no job is claimed twice and a job that was cancelled at any time is never claimed |
| JobQueue.QueueDrains | src/infra/repositories/sqlite_job_repo.rs:33-43 | n due jobs are all claimed exactly when there were at least n / limit polls, rounded up; batches are disjoint and with the rest make up the due jobs |
| JobQueue.EarliestAreClaimed | src/infra/repositories/postgres_job_repo.rs:39-46 | with the Postgres order no claimed job is later than one left behind |
| Reminders.CreateMakesJobs | src/api/handlers/booking.rs:142-173 | a new booking has a confirmation if and only if a rule asks for one, and a reminder at a time if and only if some rule puts one there and it lies ahead; one job per such rule |
| Reminders.RescheduleRenewsReminders | src/api/handlers/booking_management.rs:148-177 | after a reschedule the pending reminders are exactly those the rules ask for at the new start that lie ahead |
| Reminders.RescheduleMakesNotices | src/api/handlers/booking_management.rs:148-154 | a reschedule makes one notice at once for each rule, and besides these only reminders |
| Reminders.CancelMakesNotices | src/api/handlers/booking_management.rs:55-63 | a cancellation leaves one pending notice for each rule and no other pending job of the booking |
| Reminders.StepKeepsInv | src/api/handlers/booking_management.rs:52-63 | creation, reschedule, cancellation, deletion, claims, marks, campaigns, rule changes and edits after which the pending reminders are still on time keep reminders fresh |
| Reminders.EditExact | src/api/handlers/booking.rs:249-310 | an accepted admin edit keeps reminders fresh if and only if each pending reminder of the booking is on time for its new start |
| Witnesses.EditLeavesReminder | src/api/handlers/booking.rs:249-310 | an accepted edit that moves a booking away from its reminder |
| Reminders.NoStaleReminders | src/infra/repositories/postgres_job_repo.rs:80-87 | between handler calls every pending reminder of an existing booking is for a live one and due at its current start minus the lead of a rule in force when it was made |
| Reminders.ReminderResolution | src/background.rs:217-225 | the worker resolves a reminder to its own rule if and only if it carries the rule's name or the rule is the 24-hour or 1-hour one |
| Reminders.JobResolution | src/background.rs:217-225 | jobs of a new booking resolve to the rule they were made for, except exactly the custom reminders; jobs of a reschedule always do |
| Mail.Mailer.HasMailBeenSent | src/infra/repositories/postgres_communication_repo.rs:142-150 | true exactly when a SENT row has the same recipient, template and hash |
| Mail.Mailer.LogMail | src/infra/repositories/postgres_communication_repo.rs:131-140 | appends one row or fails |
| Mail.Mailer.RecordSuccess | src/domain/services/communication_service.rs:67-87 | appends one SENT row with the hash of template name and context |
| Mail.Mailer.ProcessJob | src/background.rs:94-291 | fails when tenant, booking, event or template is missing and ends at once when no rule asks for the mail; otherwise sends and records, or skips and logs, and success means the message has a SENT row |
| Mail.NoSecondSending | src/background.rs:235-285 | over every run of one worker, a SENT row of a standard job is the first with its recipient, template and hash |
| Mail.AtMostOnePerWorker | src/background.rs:243-285 | in every interleaving of w workers, standard jobs record a message at most w times |
| Mail.EveryWorkerRepeats | src/background.rs:243-285 | for every w, w workers can record the message w times |
| Templates.TemplateStore.CreateTemplate | src/api/handlers/communication.rs:73-98 | a new template and its first version, and what remains when a write fails |
| Templates.TemplateStore.UpdateTemplate | src/api/handlers/communication.rs:100-129 | version first, template second, and what remains when a write fails |
| Templates.TemplateStore.RestoreVersion | src/api/handlers/communication.rs:180-219 | template first, version second; a version of another template is refused |
| Templates.TemplateStore.GetTemplateVersion | src/infra/repositories/postgres_communication_repo.rs:83-90 | finds the version with the id |
| Templates.StepKeepsInv | src/api/handlers/communication.rs:79-128 | creation, update, restore and deletion keep the newest version equal to the content |
| Templates.StepGrowsLog | src/api/handlers/communication.rs:131-146 | no step shortens or rewrites the log of a template that stays |
| Templates.HistoryKept | src/api/handlers/communication.rs:186-218 | over every run the log of a template only grows, its newest entry is the current content, and restoring any recorded version gives back exactly that content |
| Templates.HalfAnUpdate | src/api/handlers/communication.rs:119-127 | a failed write after the log keeps both in step if and only if the content did not change |
| Templates.HalfARestore | src/api/handlers/communication.rs:209-216 | the same for a restore whose version is not logged |
| Tokens.AuthService.Refresh | src/domain/services/auth_service.rs:33-46 | accepts a stored token that has not expired, spends it either way, and issues the next generation |
| Tokens.AuthService.Login | src/domain/services/auth_service.rs:28-31 | a new family with one token of generation 1 |
| Tokens.AuthService.Logout | src/domain/services/auth_service.rs:48-51 | the token goes, nothing else |
| Tokens.AuthService.IssueTokenPair | src/domain/services/auth_service.rs:53-91 | one fresh record with a lifetime of seven days |
| Tokens.OneLiveToken | src/domain/services/auth_service.rs:28-91 | over every serial run a family has at most one live token, whose generation counts the tokens issued for it |
| Tokens.SpentStaysSpent | src/domain/services/auth_service.rs:44-51 | a token that was refreshed or logged out is never accepted again |
| Tokens.RotateIsRefresh | src/domain/services/auth_service.rs:33-46 | the read half and the write half of a refresh, run without a pause, are the refresh |
| Tokens.RotateExact | src/domain/services/auth_service.rs:36-45 | the delayed write of a refresh keeps one live token if and only if the family has no other by then |
| Tokens.TwoRefreshesFork | src/domain/services/auth_service.rs:36-45 | two refreshes that found the same token leave two live tokens of one generation |

## Left out

- Availability.CalculateSlots: durations and intervals are natural numbers; the
  casts of negative 32-bit values to `usize` are not modelled, nor is the cast
  of a booking count to `i32`.
- Overbooking.OverbookingBound: the event and its overrides do not change during
  the run; minutes of a date on which the clock changes have no bound, since the
  check itself can be wrong there (`SlotTheory.CheckExact`).
- ManualSchedule.SessionCapacity: new sessions last at least a minute and have
  their bookings listed on their date; `SoundSessions.SoundExact` shows that both
  are needed.
- ManualOverbooking.SessionOverbookingBound: the sessions do not change during
  the run; a capacity lowered while requests are between read and write, or two
  handlers editing one session at once, are not modelled.
- DateListing.BatchExact: zones whose segments outlast their jumps, and for
  MANUAL events sessions that last and start at a clock minute that is shown
  once, as the session handler makes them.
- Reminders.NoStaleReminders: handler calls run to their end, and edits that
  leave a reminder behind are no steps; `Reminders.EditExact` tells which do.
- Mail.Mailer.ProcessJob: what the lookup of tenant, booking, event, rule and
  template finds is a parameter, as is the success of rendering, sending and
  logging.
- Invitations.TokenBacksOneBooking: cancellations read and write at once; what
  happens otherwise is stated by `Invitations.CancelExact`.
- RequestText.ReadsBack: the grammar of section 5.6 of RFC 3339 with capital
  letters and no leap seconds, of which `chrono` accepts a little more; the
  reading of "HH:MM" is a parameter.
- Server.AppState.PlaceNew: the sessions are read and the slots computed before
  the override and session guards are looked at; so in `PlaceMoved`. Neither has
  an effect on the tables, and the reply is that of the handler's order.
- Windows and configurations start parsed: text that is no "HH:MM" time or no
  JSON is one malformed case.
- The time zone database, leap seconds and the range limits of date types.
- Tables hold the rows of one event; events, tenants, users and notes are not
  modelled, nor are edits of an event's own fields.
- Failing queries and connections: a repository call either answers or, where a
  failed write matters, has a flag that says so.
- Locked rows that SKIP LOCKED passes over; a poll takes what it may take.
- Generation numbers of refresh tokens are unbounded; the hash of a token is
  taken to name it; access tokens, cookies, passwords and CSRF are not modelled.
- Campaigns beyond their jobs and their rows in the ledger; rendering of templates, calendar
  files, the mail service, the assistant client, HTTP routing and extraction.
- Plain reads and single-row edits of labels, members, tenants and campaigns,
  which would only add easy members.
