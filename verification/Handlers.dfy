// What the booking handlers decide and write, as functions of what they read:
// src/api/handlers/booking.rs and src/api/handlers/booking_management.rs.
module Handlers {
  import opened Results
  import opened Time
  import opened Models
  import Counting
  import Sorting
  import opened Rfc3339
  import opened Availability
  import opened SlotTheory
  import opened Store

  // The `time` field of a request: an RFC 3339 instant, "HH:MM", or neither.
  datatype RequestedTime = Iso(at: Instant) | Clock(minute: ClockMinute) | Malformed

  // Times of day are taken from the request, the date from its own field.
  function WallTimeOf(zone: Zone, d: Date, time: RequestedTime): Option<WallTime> {
    match time
    case Iso(at) => Some(Midnight(d) + TimeOfDay(zone.Local(at)))
    case Clock(minute) => Some(ClockTime(d, minute))
    case Malformed => None
  }

  // Where a handler puts a booking.
  datatype Placement = Placement(start: Instant, end: Instant, location: Option<string>)

  // `sessions.iter().find(|s| s.start_time == t)`
  function SessionAt(sessions: seq<Session>, t: Instant): (r: Option<Session>)
    ensures r.Some? ==> r.value in sessions && r.value.start == t
    ensures r.None? ==> forall s :: s in sessions ==> s.start != t
  {
    if sessions == [] then None
    else if sessions[0].start == t then Some(sessions[0])
    else SessionAt(sessions[1..], t)
  }

  // The read that a handler for date d at time `now` may have made. A day
  // without bounds ends the request before the read.
  ghost predicate MayRead(q: SlotQuery, db: Db, ev: Event, d: Date, now: Instant) {
    && q.event == ev && q.date == d && q.now == now
    && (BoundsOf(ev.zone, d).Some? ==> Reads(q, db))
  }

  // The same for the date and the time of the read.
  ghost predicate ReadsFor(q: SlotQuery, db: Db, ev: Event) {
    MayRead(q, db, ev, q.date, q.now)
  }

  // The session of an accepted start.
  function SessionFor(q: SlotQuery, t: Instant): Option<Session> {
    if q.sessions.Some? then SessionAt(q.sessions.value, t) else None
  }

  function LocationAt(q: SlotQuery, t: Instant): Option<string> {
    if q.rule.Some? && q.rule.value.location.Some? then q.rule.value.location
    else if SessionFor(q, t).Some? then SessionFor(q, t).value.location
    else None
  }

  // `valid_slots.contains(&t.to_rfc3339())`
  ghost predicate ListsStart(q: SlotQuery, t: Instant) {
    exists u :: q.IsSlot(u) && ToRfc3339(u) == ToRfc3339(t)
  }

  // `num_minutes` cuts towards zero.
  function MinutesBetween(s: Instant, e: Instant): int {
    if s <= e then (e - s) / Minutes(1) else -((s - e) / Minutes(1))
  }

  // ---------- Time guards, in the order of each handler ----------

  // The requested instant: Malformed text or a wall-clock time that is not
  // shown exactly once gives none.
  function StartOf(q: SlotQuery, time: RequestedTime): Option<Instant> {
    var wall := WallTimeOf(q.event.zone, q.date, time);
    if wall.Some? then q.event.zone.Single(wall.value) else None
  }

  // The guards of `create_booking` on a start; `listed` is the string test.
  function CreateGuards(q: SlotQuery, start: Instant, listed: bool): Result<Placement> {
    var end := start + Minutes(q.event.duration);
    if start < q.now then Err(Validation)
    else if start < q.event.activeStart || end > q.event.activeEnd then Err(Validation)
    else if BoundsOf(q.event.zone, q.date).None? then Err(Panic)
    else if q.Unavailable() then Err(Conflict)
    else if q.event.schedule == Manual && SessionFor(q, start).None? then Err(Conflict)
    else if !listed then Err(Conflict)
    else
      var until := if q.event.schedule == Manual then SessionFor(q, start).value.end else end;
      Ok(Placement(start, start + Minutes(MinutesBetween(start, until)), LocationAt(q, start)))
  }

  function RescheduleGuards(q: SlotQuery, start: Instant, listed: bool): Result<Placement> {
    if BoundsOf(q.event.zone, q.date).None? then Err(Panic)
    else if q.Unavailable() then Err(Conflict)
    else if q.event.schedule == Manual && SessionFor(q, start).None? then Err(Conflict)
    else if !listed then Err(Conflict)
    else
      var until :=
        if q.event.schedule == Manual then SessionFor(q, start).value.end else start + Minutes(q.event.duration);
      Ok(Placement(start, until, LocationAt(q, start)))
  }

  // The location stays that of the booking.
  function UpdateGuards(q: SlotQuery, start: Instant, listed: bool, location: Option<string>): Result<Placement> {
    if BoundsOf(q.event.zone, q.date).None? then Err(Panic)
    else if !listed then Err(Conflict)
    else
      var until :=
        if SessionFor(q, start).Some? then SessionFor(q, start).value.end else start + Minutes(q.event.duration);
      Ok(Placement(start, until, location))
  }

  ghost function CreateTime(q: SlotQuery, time: RequestedTime): Result<Placement> {
    var start := StartOf(q, time);
    if start.None? then Err(Validation) else CreateGuards(q, start.value, ListsStart(q, start.value))
  }

  // A time of day the clock does not show exactly once is unwrapped.
  ghost function RescheduleTime(q: SlotQuery, time: RequestedTime): Result<Placement> {
    var start := StartOf(q, time);
    if time.Malformed? then Err(Validation)
    else if start.None? then Err(Panic)
    else RescheduleGuards(q, start.value, ListsStart(q, start.value))
  }

  ghost function UpdateTime(q: SlotQuery, time: RequestedTime, location: Option<string>): Result<Placement> {
    var start := StartOf(q, time);
    if start.None? then Err(Validation) else UpdateGuards(q, start.value, ListsStart(q, start.value), location)
  }

  // ---------- Jobs made by the handlers ----------

  // Time between a reminder and the start of the booking.
  function ReminderLead(trigger: Trigger): Option<int> {
    match trigger
    case Reminder24H => Some(Minutes(24 * 60))
    case Reminder1H => Some(Minutes(60))
    case ReminderMinutes(m) => Some(Minutes(m))
    case _ => None
  }

  // The job for one active rule of the event when a booking is made.
  function CreationJob(trigger: Trigger, b: Booking, now: Instant, id: JobId): Option<Job> {
    if trigger == OnBooking then
      Some(Job(id, ConfirmationJob, b.id, now, Pending))
    else
      var lead := ReminderLead(trigger);
      if lead.Some? && b.start - lead.value > now
      then Some(Job(id, ReminderJob, b.id, b.start - lead.value, Pending))
      else None
  }

  // The job for one active rule of the event after a reschedule.
  function RenewedReminder(trigger: Trigger, b: Booking, now: Instant, id: JobId): Option<Job> {
    var lead := ReminderLead(trigger);
    if lead.Some? && b.start - lead.value > now
    then Some(Job(id, TriggerJob(trigger), b.id, b.start - lead.value, Pending))
    else None
  }

  function Append(jobs: seq<Job>, more: Option<Job>): seq<Job> {
    if more.Some? then jobs + [more.value] else jobs
  }

  // Jobs for the rules in order, with consecutive ids.
  function CreationJobs(rules: seq<Trigger>, b: Booking, now: Instant, first: JobId): seq<Job> {
    if rules == [] then []
    else
      var jobs := CreationJobs(rules[..|rules| - 1], b, now, first);
      Append(jobs, CreationJob(rules[|rules| - 1], b, now, first + |jobs|))
  }

  function RenewedReminders(rules: seq<Trigger>, b: Booking, now: Instant, first: JobId): seq<Job> {
    if rules == [] then []
    else
      var jobs := RenewedReminders(rules[..|rules| - 1], b, now, first);
      Append(jobs, RenewedReminder(rules[|rules| - 1], b, now, first + |jobs|))
  }

  // `get_rules_by_trigger`: rules of the event, then rules of the tenant.
  function RulesFor(db: Db, trigger: Trigger): nat {
    Counting.Count(Is(trigger), db.eventRules) + Counting.Count(Is(trigger), db.tenantRules)
  }

  function Is(trigger: Trigger): Trigger -> bool {
    (t: Trigger) => t == trigger
  }

  function NoticeJobs(n: nat, kind: JobType, booking: BookingId, now: Instant, first: JobId): (jobs: seq<Job>)
    ensures |jobs| == n
  {
    if n == 0 then []
    else NoticeJobs(n - 1, kind, booking, now, first) + [Job(first + n - 1, kind, booking, now, Pending)]
  }

  // ---------- The handlers ----------

  datatype CreateRequest = CreateRequest(
    date: Option<Date>, time: RequestedTime, name: string, email: string, token: Option<Token>)

  datatype UpdateRequest = UpdateRequest(
    name: Option<string>, email: Option<string>, labelId: Option<string>, token: Option<string>, payout: Option<int>,
    when: Option<(Option<Date>, RequestedTime)>)

  function EditDetails(details: Details, req: UpdateRequest): Details {
    Details(
      EditText(details.labelId, req.labelId), EditText(details.token, req.token),
      if req.payout.Some? then req.payout else details.payout)
  }

  ghost function InviteeWith(invitees: map<InviteeId, Invitee>, token: Token): Option<Invitee> {
    if exists i :: i in invitees && invitees[i].token == token
    then var i :| i in invitees && invitees[i].token == token; Some(invitees[i])
    else None
  }

  // The access check of `create_booking`; Some invitee when a token is used.
  ghost function CheckAccess(db: Db, access: AccessMode, token: Option<Token>): Result<Option<InviteeId>> {
    match access
    case Closed => Err(Forbidden)
    case Unknown => Err(Internal)
    case Open => Ok(None)
    case Restricted =>
      if token.None? then Err(Forbidden)
      else
        var invitee := InviteeWith(db.invitees, token.value);
        if invitee.None? then Err(Forbidden)
        else if invitee.value.status != Active then Err(Conflict)
        else Ok(Some(invitee.value.id))
  }

  function NewBooking(id: BookingId, invitee: Option<InviteeId>, p: Placement, req: CreateRequest): Booking {
    Booking(id, invitee, p.start, p.end, req.name, req.email, p.location, Confirmed, id, Details(None, None, None))
  }

  // The insert at the end of `create_booking`.
  function Commit(db: Db, b: Booking, burn: Option<Token>, now: Instant): Result<(Db, Booking)> {
    var jobs := CreationJobs(db.eventRules, b, now, db.nextId + 1);
    match CreateWithToken(db, b, burn, jobs)
    case Err(e) => Err(e)
    case Ok(after) => Ok((after.(nextId := db.nextId + 1 + |jobs|), b))
  }

  ghost function CreateBooking(db: Db, q: SlotQuery, req: CreateRequest): Result<(Db, Booking)> {
    match CheckAccess(db, q.event.access, req.token)
    case Err(e) => Err(e)
    case Ok(invitee) =>
      if req.date.None? then Err(Validation) else
      match CreateTime(q, req.time)
      case Err(e) => Err(e)
      case Ok(p) =>
        Commit(db, NewBooking(db.nextId, invitee, p, req), if invitee.Some? then req.token else None, q.now)
  }

  // Old pending jobs go, notices and reminders for the new start come.
  function RescheduleJobs(db: Db, b: Booking, now: Instant): Db {
    var notices := NoticeJobs(RulesFor(db, OnReschedule), RescheduleJob, b.id, now, db.nextId);
    var reminders := RenewedReminders(db.eventRules, b, now, db.nextId + |notices|);
    db.(jobs := AddJobs(AddJobs(CancelJobs(db.jobs, b.id), notices), reminders),
        nextId := db.nextId + |notices| + |reminders|)
  }

  ghost function RescheduleBooking(db: Db, q: SlotQuery, id: BookingId, time: RequestedTime): Result<(Db, Booking)>
    requires id in db.bookings
  {
    var b := db.bookings[id];
    if b.status == Cancelled then Err(Validation)
    else if !q.event.allowReschedule then Err(Forbidden)
    else
      match RescheduleTime(q, time)
      case Err(e) => Err(e)
      case Ok(p) =>
        var moved := b.(start := p.start, end := p.end, location := p.location);
        match UpdateRow(db, moved)
        case Err(e) => Err(e)
        case Ok(after) => Ok((RescheduleJobs(after, moved, q.now), moved))
  }

  function CancelBooking(db: Db, ev: Event, id: BookingId, now: Instant): Result<(Db, Booking)>
    requires id in db.bookings
  {
    var b := db.bookings[id];
    if b.status == Cancelled then Ok((db, b))
    else if !ev.allowCancel then Err(Forbidden)
    else
      match CancelRow(db, b)
      case Err(e) => Err(e)
      case Ok(after) =>
        var notices := NoticeJobs(RulesFor(db, OnCancel), CancellationJob, id, now, db.nextId);
        Ok((after.(jobs := AddJobs(CancelJobs(db.jobs, id), notices), nextId := db.nextId + |notices|),
            b.(status := Cancelled)))
  }

  function Edited(b: Booking, req: UpdateRequest): Booking {
    b.(name := if req.name.Some? then req.name.value else b.name,
       email := if req.email.Some? then req.email.value else b.email,
       details := EditDetails(b.details, req))
  }

  // `when` None: only the customer's name and email and the details change.
  ghost function EditTimes(q: SlotQuery, b: Booking, when: Option<(Option<Date>, RequestedTime)>): Result<Placement> {
    if when.None? then Ok(Placement(b.start, b.end, b.location))
    else if when.value.0.None? then Err(Validation)
    else UpdateTime(q, when.value.1, b.location)
  }

  ghost function UpdateBooking(db: Db, q: SlotQuery, id: BookingId, req: UpdateRequest): Result<(Db, Booking)> {
    if id !in db.bookings then Err(NotFound) else
    match EditTimes(q, db.bookings[id], req.when)
    case Err(e) => Err(e)
    case Ok(p) =>
      var moved := Edited(db.bookings[id], req).(start := p.start, end := p.end);
      match UpdateRow(db, moved)
      case Err(e) => Err(e)
      case Ok(after) => Ok((after, moved))
  }

  // ---------- Effects of accepted requests ----------

  lemma CreateEffect(db: Db, q: SlotQuery, req: CreateRequest, after: Db, b: Booking)
    requires MayRead(q, db, q.event, q.date, q.now) && CreateBooking(db, q, req) == Ok((after, b))
    ensures Reads(q, db) && StartOf(q, req.time) == Some(b.start) && ListsStart(q, b.start)
    ensures b.id == db.nextId && Live(b) && after.bookings == db.bookings[b.id := b]
    ensures after.sessions == db.sessions && after.nextId > db.nextId
    ensures q.event.schedule == Manual ==>
              SessionFor(q, b.start).Some?
              && b.end == b.start + Minutes(MinutesBetween(b.start, SessionFor(q, b.start).value.end))
  {
  }

  lemma RescheduleEffect(db: Db, q: SlotQuery, id: BookingId, time: RequestedTime, after: Db, b: Booking)
    requires MayRead(q, db, q.event, q.date, q.now) && id in db.bookings
    requires db.bookings[id].id == id && RescheduleBooking(db, q, id, time) == Ok((after, b))
    ensures Reads(q, db) && StartOf(q, time) == Some(b.start) && ListsStart(q, b.start)
    ensures Live(db.bookings[id]) && b.id == id && Live(b) && after.bookings == db.bookings[id := b]
    ensures after.sessions == db.sessions && after.nextId >= db.nextId
    ensures b.invitee == db.bookings[id].invitee
    ensures q.event.schedule == Manual ==> SessionFor(q, b.start).Some? && b.end == SessionFor(q, b.start).value.end
  {
  }

  lemma UpdateEffect(db: Db, q: SlotQuery, id: BookingId, req: UpdateRequest, after: Db, b: Booking)
    requires MayRead(q, db, q.event, q.date, q.now) && (id in db.bookings ==> db.bookings[id].id == id)
    requires UpdateBooking(db, q, id, req) == Ok((after, b))
    ensures id in db.bookings && b.id == id && b.status == db.bookings[id].status
              && b.invitee == db.bookings[id].invitee
    ensures after == db.(bookings := db.bookings[id := b])
    ensures b == Edited(db.bookings[id], req).(start := b.start, end := b.end)
    ensures var (was, now) := (db.bookings[id].details, b.details);
            && (req.labelId.None? ==> now.labelId == was.labelId)
            && (req.labelId.Some? ==> (now.labelId == None <==> req.labelId.value == ""))
            && (req.payout.None? ==> now.payout == was.payout)
    ensures req.when.None? ==> b.start == db.bookings[id].start && b.end == db.bookings[id].end
    ensures req.when.Some? ==>
              Reads(q, db) && StartOf(q, req.when.value.1) == Some(b.start) && ListsStart(q, b.start)
    ensures req.when.Some? && SessionFor(q, b.start).Some? ==> b.end == SessionFor(q, b.start).value.end
  {
  }

  // Without two invitees of one token, access is granted exactly to anyone
  // for an OPEN event, and to the holder of an active invitation for a
  // RESTRICTED one; the booking then names that invitee.
  lemma AccessExact(db: Db, access: AccessMode, token: Option<Token>, i: InviteeId)
    requires db.Valid()
    ensures CheckAccess(db, access, token) == Ok(None) <==> access == AccessMode.Open
    ensures CheckAccess(db, access, token) == Ok(Some(i)) <==>
              && access == Restricted && token.Some?
              && i in db.invitees && db.invitees[i].token == token.value && db.invitees[i].status == Active
    ensures CheckAccess(db, access, token) == Err(Conflict) <==>
              && access == Restricted && token.Some?
              && exists j :: j in db.invitees && db.invitees[j].token == token.value && db.invitees[j].status != Active
  {
  }

  // ---------- Slots and acceptance ----------

  // The string test of the handlers is slot membership.
  lemma ListedExact(q: SlotQuery, t: Instant)
    ensures ListsStart(q, t) <==> q.IsSlot(t)
  {
    if ListsStart(q, t) {
      var u :| q.IsSlot(u) && ToRfc3339(u) == ToRfc3339(t);
      TextIdentifies(t, u);
    }
  }

  lemma StartOnDate(q: SlotQuery, time: RequestedTime)
    requires StartOf(q, time).Some?
    ensures DateOf(q.event.zone.Local(StartOf(q, time).value)) == q.date
  {
    var wall := WallTimeOf(q.event.zone, q.date, time).value;
    q.event.zone.SingleExact(wall, StartOf(q, time).value);
    assert DateOf(wall) == q.date;
  }

  lemma RecurringSlotBounds(q: SlotQuery, t: Instant)
    requires q.RecurringSlot(t)
    ensures BoundsOf(q.event.zone, q.date).Some? && !q.Unavailable()
    ensures t >= q.event.activeStart && t + Minutes(q.event.duration) <= q.event.activeEnd
    ensures t > q.now + Minutes(q.event.noticeGeneral) || t > q.now + Minutes(q.event.noticeFirst)
  {
    var day := BoundsOf(q.event.zone, q.date).value;
    var w, k: nat :| w in q.Windows() && q.Offers(day, w, k, t);
  }

  // For a start of a RECURRING event that passes the slot test, the other
  // guards of create come down to "not in the past".
  lemma SlotPassesGuards(q: SlotQuery, t: Instant)
    requires q.event.schedule == Recurring && q.sessions == None && q.RecurringSlot(t)
    ensures CreateGuards(q, t, true).Ok? <==> t >= q.now
    ensures q.event.noticeGeneral >= 0 && q.event.noticeFirst >= 0 ==> t >= q.now
    ensures RescheduleGuards(q, t, true) == Ok(Placement(t, t + Minutes(q.event.duration), LocationAt(q, t)))
    ensures CreateGuards(q, t, true).Ok? ==> CreateGuards(q, t, true) == RescheduleGuards(q, t, true)
    ensures forall l :: UpdateGuards(q, t, true, l) == Ok(Placement(t, t + Minutes(q.event.duration), l))
  {
    RecurringSlotBounds(q, t);
    assert Minutes(MinutesBetween(t, t + Minutes(q.event.duration))) == Minutes(q.event.duration);
  }

  // One acceptance test: for a RECURRING event, admin update accepts what
  // reschedule accepts, and create accepts just those starts that are not in
  // the past; with non-negative notices none of them is.
  lemma ThreeHandlersAgree(q: SlotQuery, time: RequestedTime, location: Option<string>)
    requires q.event.schedule == Recurring && q.sessions == None
    ensures UpdateTime(q, time, location).Ok? <==> RescheduleTime(q, time).Ok?
    ensures CreateTime(q, time).Ok? <==> RescheduleTime(q, time).Ok? && RescheduleTime(q, time).value.start >= q.now
    ensures q.event.noticeGeneral >= 0 && q.event.noticeFirst >= 0 ==>
              (CreateTime(q, time).Ok? <==> RescheduleTime(q, time).Ok?)
    ensures CreateTime(q, time).Ok? ==> CreateTime(q, time) == RescheduleTime(q, time)
    ensures UpdateTime(q, time, location).Ok? ==>
              UpdateTime(q, time, location) == Ok(RescheduleTime(q, time).value.(location := location))
    ensures RescheduleTime(q, time).Ok? ==>
              var p := RescheduleTime(q, time).value;
              && p.end == p.start + Minutes(q.event.duration)
              && p.location == if q.rule.Some? then q.rule.value.location else None
  {
    var start := StartOf(q, time);
    if start.Some? {
      StartOnDate(q, time);
      ListedExact(q, start.value);
      if ListsStart(q, start.value) {
        SlotPassesGuards(q, start.value);
      }
    }
  }

  // What create asks of a start beyond membership in the slot list.
  predicate Bookable(q: SlotQuery, start: Instant) {
    start >= q.now && start >= q.event.activeStart && start + Minutes(q.event.duration) <= q.event.activeEnd
  }

  lemma ManualSlotGuards(q: SlotQuery, t: Instant)
    requires q.event.schedule == Manual && q.rule == None && BoundsOf(q.event.zone, q.date).Some? && q.ManualSlot(t)
    ensures SessionFor(q, t).Some? && SessionFor(q, t).value in q.sessions.value && SessionFor(q, t).value.start == t
    ensures var s := SessionFor(q, t).value;
            && RescheduleGuards(q, t, true) == Ok(Placement(t, s.end, s.location))
            && (CreateGuards(q, t, true).Ok? <==> Bookable(q, t))
            && (CreateGuards(q, t, true).Ok? ==> CreateGuards(q, t, true).value.location == s.location)
            && forall l :: UpdateGuards(q, t, true, l) == Ok(Placement(t, s.end, l))
  {
  }

  lemma ManualGuardsAgree(q: SlotQuery, t: Instant, listed: bool, location: Option<string>)
    requires q.event.schedule == Manual && q.rule == None && BoundsOf(q.event.zone, q.date).Some?
    requires listed <==> q.ManualSlot(t)
    ensures UpdateGuards(q, t, listed, location).Ok? <==> listed
    ensures RescheduleGuards(q, t, listed).Ok? <==> listed
    ensures CreateGuards(q, t, listed).Ok? <==> listed && Bookable(q, t)
    ensures listed ==>
              && SessionFor(q, t).Some?
              && var p := Placement(t, SessionFor(q, t).value.end, SessionFor(q, t).value.location);
              && RescheduleGuards(q, t, listed) == Ok(p)
              && UpdateGuards(q, t, listed, location) == Ok(p.(location := location))
              && var c := CreateGuards(q, t, listed);
              && (c.Ok? ==> c.value.start == t && c.value.location == p.location)
  {
    if listed {
      ManualSlotGuards(q, t);
    }
  }

  // For a MANUAL event, admin update and reschedule accept the same times:
  // the starts of sessions with places left, until the end of the session.
  // Create accepts those of them that its own time guards let through.
  lemma ManualHandlersAgree(q: SlotQuery, time: RequestedTime, location: Option<string>)
    requires q.event.schedule == Manual && q.rule == None
    ensures UpdateTime(q, time, location).Ok? <==> RescheduleTime(q, time).Ok?
    ensures CreateTime(q, time).Ok? <==> RescheduleTime(q, time).Ok? && Bookable(q, RescheduleTime(q, time).value.start)
    ensures RescheduleTime(q, time).Ok? ==>
              var p := RescheduleTime(q, time).value;
              && q.ManualSlot(p.start) && SessionFor(q, p.start).Some?
              && p == Placement(p.start, SessionFor(q, p.start).value.end, SessionFor(q, p.start).value.location)
              && UpdateTime(q, time, location) == Ok(p.(location := location))
              && (CreateTime(q, time).Ok? ==>
                    CreateTime(q, time).value.start == p.start && CreateTime(q, time).value.location == p.location)
  {
    if StartOf(q, time).Some? && BoundsOf(q.event.zone, q.date).Some? {
      var start := StartOf(q, time).value;
      StartOnDate(q, time);
      assert ListsStart(q, start) <==> q.ManualSlot(start) by {
        ListedExact(q, start);
      }
      ManualGuardsAgree(q, start, ListsStart(q, start), location);
    }
  }

  // Two answers to the same queries offer the same slots.
  lemma ReadsAgree(p: SlotQuery, q: SlotQuery, db: Db, t: Instant)
    requires db.Valid() && Reads(p, db) && Reads(q, db)
    requires p.event == q.event && p.date == q.date && p.now == q.now
    ensures p.IsSlot(t) <==> q.IsSlot(t)
  {
    RowsAgree(p, q, db.bookings, db.bookings, t);
    var r := p.(rows := q.rows);
    if p.event.schedule == Manual {
      SessionsAgree(r, q, t);
    } else {
      assert r == q;
    }
  }

  // The live rows of both tables are the same.
  ghost predicate SameLive(a: map<BookingId, Booking>, b: map<BookingId, Booking>) {
    && (forall id :: id in a ==> a[id].id == id)
    && (forall id :: id in b ==> b[id].id == id)
    && (forall id :: id in a && Live(a[id]) ==> id in b && b[id] == a[id])
    && (forall id :: id in b && Live(b[id]) ==> id in a && a[id] == b[id])
  }

  lemma RowsAgree(p: SlotQuery, q: SlotQuery, a: map<BookingId, Booking>, b: map<BookingId, Booking>, t: Instant)
    requires SameLive(a, b) && BoundsOf(p.event.zone, p.date).Some?
    requires var day := BoundsOf(p.event.zone, p.date).value;
             IsListing(p.rows, a, day.start, day.end) && IsListing(q.rows, b, day.start, day.end)
    ensures p.IsSlot(t) <==> p.(rows := q.rows).IsSlot(t)
  {
    var day := BoundsOf(p.event.zone, p.date).value;
    assert IsListing(q.rows, a, day.start, day.end);
    forall f: Booking -> bool ensures Counting.Count(f, p.rows) == Counting.Count(f, q.rows) {
      CountListing(f, p.rows, a, day.start, day.end);
      CountListing(f, q.rows, a, day.start, day.end);
    }
    SlotsFollowCounts(p, q.rows, t);
  }

  lemma SessionsAgree(p: SlotQuery, q: SlotQuery, t: Instant)
    requires p.event == q.event && p.date == q.date && p.rows == q.rows && p.event.schedule == Manual
    requires p.sessions.Some? && q.sessions.Some? && forall s :: s in p.sessions.value <==> s in q.sessions.value
    ensures p.IsSlot(t) <==> q.IsSlot(t)
  {
    forall s ensures p.Open(s) == q.Open(s) {}
  }

  // Whatever order the rows come in, the day has one slot list.
  lemma OneSlotList(p: SlotQuery, q: SlotQuery, db: Db, a: seq<string>, b: seq<string>)
    requires db.Valid() && Reads(p, db) && Reads(q, db)
    requires p.event == q.event && p.date == q.date && p.now == q.now
    requires IsSlotList(p, a) && IsSlotList(q, b)
    ensures a == b
  {
    forall t ensures p.IsSlot(t) <==> q.IsSlot(t) {
      ReadsAgree(p, q, db, t);
    }
    Sorting.StrictUnique(a, b);
  }

  lemma SlotShownOnce(q: SlotQuery, t: Instant)
    requires q.RecurringSlot(t)
    ensures q.event.zone.Single(q.event.zone.Local(t)) == Some(t)
  {
    var day := BoundsOf(q.event.zone, q.date).value;
    var w, k: nat :| w in q.Windows() && q.Offers(day, w, k, t);
    q.event.zone.SingleExact(ClockTime(q.date, q.Cursor(w, k)), t);
  }

  lemma WallTimeSplit(w: WallTime)
    ensures Midnight(DateOf(w)) + TimeOfDay(w) == w
  {
  }

  // A slot's own instant, read on the local clock, names the slot again.
  lemma SlotRoundTrip(q: SlotQuery, t: Instant)
    requires q.event.schedule == Recurring && q.RecurringSlot(t)
    ensures StartOf(q, Iso(t)) == Some(t)
  {
    SlotShownOnce(q, t);
    SlotOnDate(q, t);
    WallTimeSplit(q.event.zone.Local(t));
  }

  lemma SlotIsListed(q: SlotQuery, t: Instant)
    requires q.IsSlot(t)
    ensures ListsStart(q, t)
  {
  }

  // Offer and acceptance: a slot listed for a date, sent back as it was
  // written, is accepted for the same instant, on any day of any zone.
  lemma OfferedIsAccepted(offer: SlotQuery, q: SlotQuery, db: Db, t: Instant, req: CreateRequest)
    requires db.Valid() && Reads(offer, db) && offer.IsSlot(t)
    requires offer.event.schedule == Recurring && offer.event.access == Open
    requires offer.event.noticeGeneral >= 0 && offer.event.noticeFirst >= 0
    requires MayRead(q, db, offer.event, offer.date, offer.now)
    requires req.date == Some(q.date) && req.time == Iso(t)
    ensures var r := CreateBooking(db, q, req);
            && r.Ok?
            && r.value.1.start == t && r.value.1.end == t + Minutes(q.event.duration)
            && r.value.0.bookings == db.bookings[db.nextId := r.value.1]
  {
    ReadsAgree(offer, q, db, t);
    SlotRoundTrip(q, t);
    SlotIsListed(q, t);
    SlotPassesGuards(q, t);
    assert CreateTime(q, req.time) == CreateGuards(q, t, true);
    assert CheckAccess(db, q.event.access, req.token) == Ok(None);
  }
}
