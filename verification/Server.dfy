// The repositories over their tables, and the handlers of src/api/handlers in
// the order in which they read, check and write.
module Server {
  import opened Results
  import opened Time
  import opened Models
  import Counting
  import Rfc3339
  import opened Availability
  import opened Store
  import opened Handlers
  import JobQueue
  import opened ManualSchedule
  import opened DateListing
  import opened Integrity

  // The reply and the new tables are those of the specification.
  ghost predicate Outcome<T>(spec: Result<(Db, T)>, r: Result<T>, before: Db, after: Db) {
    match spec
    case Err(e) => r == Err(e) && after == before
    case Ok((db, value)) => r == Ok(value) && after == db
  }

  ghost predicate Replied<T>(spec: Result<Db>, value: T, r: Result<T>, before: Db, after: Db) {
    match spec
    case Err(e) => r == Err(e) && after == before
    case Ok(db) => r == Ok(value) && after == db
  }

  // The reply to a reschedule, whose date may be malformed.
  ghost function RescheduleReply(db: Db, q: SlotQuery, id: BookingId, date: Option<Date>, time: RequestedTime):
    Result<(Db, Booking)>
    requires id in db.bookings
  {
    if date.None? && Live(db.bookings[id]) && q.event.allowReschedule then Err(Validation)
    else Handlers.RescheduleBooking(db, q, id, time)
  }

  function DateOrZero(when: Option<(Option<Date>, RequestedTime)>): Date {
    if when.Some? && when.value.0.Some? then when.value.0.value else 0
  }

  // A rule by its place among those of the event or of the tenant.
  datatype RuleRow = RuleRow(own: bool, index: nat)

  function RuleTable(db: Db, own: bool): seq<Trigger> {
    if own then db.eventRules else db.tenantRules
  }

  class AppState {
    const jobRepo: JobQueue.JobRepo
    var bookings: map<BookingId, Booking>
    var sessions: map<SessionId, Session>
    var overrides: seq<Override>
    var invitees: map<InviteeId, Invitee>
    var eventRules: seq<Trigger>
    var tenantRules: seq<Trigger>
    var nextId: nat

    constructor ()
      ensures Valid() && fresh(jobRepo)
      ensures View() == Db(map[], map[], [], map[], map[], [], [], 0)
    {
      jobRepo := new JobQueue.JobRepo();
      bookings, sessions, overrides, invitees := map[], map[], [], map[];
      eventRules, tenantRules, nextId := [], [], 0;
    }

    function View(): Db
      reads this, jobRepo
    {
      Db(bookings, sessions, overrides, invitees, jobRepo.jobs, eventRules, tenantRules, nextId)
    }

    ghost predicate Valid()
      reads this, jobRepo
    {
      View().Valid()
    }

    // ---------- Queries ----------

    method ListByRange(from: Instant, to: Instant) returns (rows: seq<Booking>)
      requires Valid()
      ensures IsListing(rows, bookings, from, to)
    {
      rows := [];
      var left := bookings.Keys;
      while left != {}
        invariant left <= bookings.Keys && IsListingOf(rows, bookings, bookings.Keys - left, from, to)
        decreases left
      {
        var id :| id in left;
        ListingGrows(rows, bookings, bookings.Keys - left, id, from, to);
        left := left - {id};
        assert bookings.Keys - left == bookings.Keys - (left + {id}) + {id};
        if Listed(bookings[id], from, to) {
          rows := rows + [bookings[id]];
        }
      }
    }

    method FindByToken(token: Token) returns (r: Option<Booking>)
      requires Valid()
      ensures r.Some? ==> FoundByToken(View(), token, r.value.id) && bookings[r.value.id] == r.value
      ensures r.None? ==> forall id :: !FoundByToken(View(), token, id)
    {
      var left := bookings.Keys;
      while left != {}
        invariant forall id :: id in bookings && id !in left ==> bookings[id].managementToken != token
        decreases left
      {
        var id :| id in left;
        if id in bookings && bookings[id].managementToken == token {
          return Some(bookings[id]);
        }
        left := left - {id};
      }
      r := None;
    }

    method FindInvitee(token: Token) returns (r: Option<Invitee>)
      requires Valid()
      ensures r == InviteeWith(invitees, token)
    {
      var left := invitees.Keys;
      while left != {}
        invariant forall id :: id in invitees && id !in left ==> invitees[id].token != token
        decreases left
      {
        var id :| id in left;
        if id in invitees && invitees[id].token == token {
          return Some(invitees[id]);
        }
        left := left - {id};
      }
      r := None;
    }

    method FindByDate(d: Date) returns (r: Option<Override>)
      ensures r == OverrideOn(overrides, d)
    {
      for n := 0 to |overrides|
        invariant OverrideOn(overrides[n..], d) == OverrideOn(overrides, d)
      {
        if overrides[n].date == d {
          return Some(overrides[n]);
        }
        assert overrides[n..][1..] == overrides[n + 1..];
      }
      r := None;
    }

    method ListOverrides(from: Date, to: Date) returns (rows: seq<Override>)
      requires Valid()
      ensures IsOverrideListing(rows, overrides, from, to)
    {
      rows := [];
      for n := 0 to |overrides|
        invariant IsOverrideListing(rows, overrides[..n], from, to)
      {
        OverrideListingGrows(rows, overrides, n, from, to);
        if from <= overrides[n].date <= to {
          rows := rows + [overrides[n]];
        }
      }
      assert overrides[..|overrides|] == overrides;
    }

    method ListSessions(from: Instant, to: Instant) returns (rows: seq<Session>)
      requires Valid()
      ensures IsSessionListing(rows, sessions, from, to)
    {
      rows := [];
      var left := sessions.Keys;
      while left != {}
        invariant left <= sessions.Keys && IsSessionListingOf(rows, sessions, sessions.Keys - left, from, to)
        decreases left
      {
        var id :| id in left;
        SessionListingGrows(rows, sessions, sessions.Keys - left, id, from, to);
        left := left - {id};
        assert sessions.Keys - left == sessions.Keys - (left + {id}) + {id};
        if Overlap(sessions[id].start, sessions[id].end, from, to) {
          rows := InsertByStart(sessions[id], rows);
        }
      }
    }

    method CountOverlaps(start: Instant, end: Instant) returns (count: nat)
      requires Valid()
      ensures count == CountOverlap(View(), start, end)
    {
      count := 0;
      var left := bookings.Keys;
      ghost var counted: set<BookingId> := {};
      while left != {}
        invariant left <= bookings.Keys && counted !! left
        invariant counted == set id | id in bookings.Keys - left && Listed(bookings[id], start, end)
        invariant count == |counted|
        decreases left
      {
        var id :| id in left;
        left := left - {id};
        if Listed(bookings[id], start, end) {
          count := count + 1;
          counted := counted + {id};
        }
      }
      assert counted == OverlapIds(View(), start, end);
    }

    // `get_rules_by_trigger`: each active rule for the trigger once, those of
    // the event before those of its tenant.
    method GetRulesByTrigger(trigger: Trigger) returns (rules: seq<RuleRow>)
      ensures |rules| == RulesFor(View(), trigger)
      ensures forall r :: r in rules <==>
                r.index < |RuleTable(View(), r.own)| && RuleTable(View(), r.own)[r.index] == trigger
      ensures forall i, j :: 0 <= i < j < |rules| ==> rules[i] != rules[j] && (rules[j].own ==> rules[i].own)
    {
      var own := RulesMatching(eventRules, trigger, true);
      var general := RulesMatching(tenantRules, trigger, false);
      rules := own + general;
    }

    static method RulesMatching(rules: seq<Trigger>, trigger: Trigger, own: bool) returns (found: seq<RuleRow>)
      ensures |found| == Counting.Count(Is(trigger), rules)
      ensures forall r :: r in found <==> r.own == own && r.index < |rules| && rules[r.index] == trigger
      ensures forall i, j :: 0 <= i < j < |found| ==> found[i].index < found[j].index
    {
      found := [];
      for n := 0 to |rules|
        invariant |found| == Counting.Count(Is(trigger), rules[..n])
        invariant forall r :: r in found <==> r.own == own && r.index < n && rules[r.index] == trigger
        invariant forall i, j :: 0 <= i < j < |found| ==> found[i].index < found[j].index
      {
        Counting.CountSnoc(Is(trigger), rules, n);
        if rules[n] == trigger {
          assert forall i :: 0 <= i < |found| ==> found[i] in found;
          found := found + [RuleRow(own, n)];
        }
      }
      assert rules[..|rules|] == rules;
    }

    // ---------- Writes ----------

    // One transaction: on an error nothing is written.
    method CreateWithToken(b: Booking, burn: Option<Token>, jobs: seq<Job>) returns (r: Result<Booking>)
      modifies this`bookings, this`invitees, jobRepo
      ensures Replied(Store.CreateWithToken(old(View()), b, burn, jobs), b, r, old(View()), View())
    {
      var burnt := invitees;
      if burn.Some? {
        if !exists i :: i in invitees && invitees[i].token == burn.value && invitees[i].status == Active {
          return Err(Conflict);
        }
        burnt := MarkUsed(invitees, burn.value);
      }
      if b.id in bookings {
        return Err(AppError.Database);
      }
      invitees := burnt;
      bookings := bookings[b.id := b];
      CreateJobs(jobs);
      r := Ok(b);
    }

    method CreateJobs(jobs: seq<Job>)
      modifies jobRepo
      ensures jobRepo.jobs == AddJobs(old(jobRepo.jobs), jobs)
    {
      for n := 0 to |jobs|
        invariant jobRepo.jobs == AddJobs(old(jobRepo.jobs), jobs[..n])
      {
        assert jobs[..n + 1][..n] == jobs[..n];
        jobRepo.Create(jobs[n]);
      }
      assert jobs[..|jobs|] == jobs;
    }

    method UpdateRow(b: Booking) returns (r: Result<Booking>)
      modifies this`bookings
      ensures var row := if b.id in bookings then bookings[b.id] else b;
              Replied(Store.UpdateRow(old(View()), b), row, r, old(View()), View())
    {
      if b.id !in bookings {
        return Err(AppError.Database);
      }
      var row := bookings[b.id].(
        start := b.start, end := b.end, name := b.name, email := b.email, location := b.location, details := b.details);
      bookings := bookings[b.id := row];
      r := Ok(row);
    }

    method CancelRow(b: Booking) returns (r: Result<Booking>)
      modifies this`bookings, this`invitees
      ensures var row := if b.id in bookings then bookings[b.id] else b;
              Replied(Store.CancelRow(old(View()), b), row, r, old(View()), View())
    {
      if b.id !in bookings {
        return Err(AppError.Database);
      }
      bookings := bookings[b.id := bookings[b.id].(status := Cancelled)];
      if b.invitee.Some? && b.invitee.value in invitees {
        invitees := invitees[b.invitee.value := invitees[b.invitee.value].(status := Active)];
      }
      r := Ok(bookings[b.id]);
    }

    // `upsert` on the unique (event, date).
    method UpsertOverride(o: Override)
      requires Valid()
      modifies this`overrides
      ensures Valid()
      ensures LooksUp(old(overrides), overrides, o.date, Some(o))
    {
      ghost var before := overrides;
      for n := 0 to |overrides|
        invariant overrides == before
        invariant forall i :: 0 <= i < n ==> overrides[i].date != o.date
      {
        if overrides[n].date == o.date {
          overrides := overrides[n := o];
          Replaced(before, n, o);
          return;
        }
      }
      overrides := overrides + [o];
      Inserted(before, o);
    }

    method DeleteOverride(d: Date) returns (r: Result<()>)
      requires Valid()
      modifies this`overrides
      ensures Valid()
      ensures r == if OverrideOn(old(overrides), d).Some? then Ok(()) else Err(NotFound)
      ensures LooksUp(old(overrides), overrides, d, None)
    {
      OverrideOnExact(overrides, d);
      for n := 0 to |overrides|
        invariant overrides == old(overrides)
        invariant forall i :: 0 <= i < n ==> overrides[i].date != d
      {
        if overrides[n].date == d {
          Removed(overrides, n);
          overrides := overrides[..n] + overrides[n + 1..];
          return Ok(());
        }
      }
      r := Err(NotFound);
    }

    // ---------- Placing a booking ----------

    // The reads about one date, after its bounds were found.
    method ReadDay(ev: Event, d: Date, now: Instant) returns (q: SlotQuery)
      requires Valid() && BoundsOf(ev.zone, d).Some?
      ensures MayRead(q, View(), ev, d, now)
    {
      var day := BoundsOf(ev.zone, d).value;
      var rows := ListByRange(day.start, day.end);
      var rule := None;
      var listed := None;
      if ev.schedule == Manual {
        var found := ListSessions(day.start, day.end);
        listed := Some(found);
      } else {
        rule := FindByDate(d);
      }
      q := SlotQuery(ev, d, rows, rule, listed, now);
    }

    // `valid_slots.contains(&start.to_rfc3339())`
    static method CheckSlots(q: SlotQuery, start: Instant) returns (listed: bool)
      requires !q.Panics()
      ensures listed <==> ListsStart(q, start)
    {
      var slots := CalculateSlots(q);
      listed := Rfc3339.ToRfc3339(start) in slots.value;
    }

    // `create_booking` from the override to the location; `listed` is the
    // outcome of the slot test.
    static method AcceptNew(day: SlotQuery, start: Instant, listed: bool) returns (r: Result<Placement>)
      requires start >= day.now && day.event.activeStart <= start
                 && start + Minutes(day.event.duration) <= day.event.activeEnd
      requires BoundsOf(day.event.zone, day.date).Some? && (day.event.schedule == Manual ==> day.sessions.Some?)
      ensures r == CreateGuards(day, start, listed)
    {
      if day.Unavailable() {
        return Err(Conflict);
      }
      var end := start + Minutes(day.event.duration);
      if day.event.schedule == Manual {
        var session := SessionAt(day.sessions.value, start);
        if session.None? {
          return Err(Conflict);
        }
        end := session.value.end;
      }
      if !listed {
        return Err(Conflict);
      }
      r := Ok(Placement(start, start + Minutes(MinutesBetween(start, end)), LocationAt(day, start)));
    }

    // `reschedule_booking` from the override to the location.
    static method AcceptMoved(day: SlotQuery, start: Instant, listed: bool) returns (r: Result<Placement>)
      requires BoundsOf(day.event.zone, day.date).Some? && (day.event.schedule == Manual ==> day.sessions.Some?)
      ensures r == RescheduleGuards(day, start, listed)
    {
      if day.Unavailable() {
        return Err(Conflict);
      }
      var end := start + Minutes(day.event.duration);
      if day.event.schedule == Manual {
        var session := SessionAt(day.sessions.value, start);
        if session.None? {
          return Err(Conflict);
        }
        end := session.value.end;
      }
      if !listed {
        return Err(Conflict);
      }
      r := Ok(Placement(start, end, LocationAt(day, start)));
    }

    // `update_booking` from the slots to the new times.
    static method AcceptEdited(day: SlotQuery, start: Instant, listed: bool,
        location: Option<string>) returns (r: Result<Placement>)
      requires BoundsOf(day.event.zone, day.date).Some?
      ensures r == UpdateGuards(day, start, listed, location)
    {
      if !listed {
        return Err(Conflict);
      }
      var end := start + Minutes(day.event.duration);
      if day.sessions.Some? {
        var session := SessionAt(day.sessions.value, start);
        if session.Some? {
          end := session.value.end;
        }
      }
      r := Ok(Placement(start, end, location));
    }

    // The time guards of `create_booking`.
    method PlaceNew(ev: Event, d: Date, time: RequestedTime, now: Instant) returns (r: Result<Placement>,
        ghost q: SlotQuery)
      requires Valid()
      ensures MayRead(q, View(), ev, d, now) && r == CreateTime(q, time)
    {
      q := SomeRead(View(), ev, d, now);
      var wall := WallTimeOf(ev.zone, d, time);
      if wall.None? {
        return Err(Validation), q;
      }
      var start := ev.zone.Single(wall.value);
      if start.None? {
        return Err(Validation), q;
      }
      if start.value < now {
        return Err(Validation), q;
      }
      if start.value < ev.activeStart || start.value + Minutes(ev.duration) > ev.activeEnd {
        return Err(Validation), q;
      }
      if BoundsOf(ev.zone, d).None? {
        return Err(Panic), q;
      }
      var day := ReadDay(ev, d, now);
      q := day;
      var listed := CheckSlots(day, start.value);
      r := AcceptNew(day, start.value, listed);
    }

    // The time guards of `reschedule_booking`.
    method PlaceMoved(ev: Event, d: Date, time: RequestedTime, now: Instant) returns (r: Result<Placement>,
        ghost q: SlotQuery)
      requires Valid()
      ensures MayRead(q, View(), ev, d, now) && r == RescheduleTime(q, time)
    {
      q := SomeRead(View(), ev, d, now);
      var wall := WallTimeOf(ev.zone, d, time);
      if wall.None? {
        return Err(Validation), q;
      }
      var start := ev.zone.Single(wall.value);
      if start.None? || BoundsOf(ev.zone, d).None? {
        return Err(Panic), q;
      }
      var day := ReadDay(ev, d, now);
      q := day;
      var listed := CheckSlots(day, start.value);
      r := AcceptMoved(day, start.value, listed);
    }

    // The time guards of `update_booking`; the location is kept.
    method PlaceEdited(ev: Event, d: Date, time: RequestedTime, location: Option<string>, now: Instant)
      returns (r: Result<Placement>, ghost q: SlotQuery)
      requires Valid()
      ensures MayRead(q, View(), ev, d, now) && r == UpdateTime(q, time, location)
    {
      q := SomeRead(View(), ev, d, now);
      var wall := WallTimeOf(ev.zone, d, time);
      if wall.None? {
        return Err(Validation), q;
      }
      var start := ev.zone.Single(wall.value);
      if start.None? {
        return Err(Validation), q;
      }
      if BoundsOf(ev.zone, d).None? {
        return Err(Panic), q;
      }
      var day := ReadDay(ev, d, now);
      q := day;
      var listed := CheckSlots(day, start.value);
      r := AcceptEdited(day, start.value, listed, location);
    }

    // ---------- Jobs ----------

    static method BuildCreationJobs(rules: seq<Trigger>, b: Booking, now: Instant,
        first: JobId) returns (jobs: seq<Job>)
      ensures jobs == CreationJobs(rules, b, now, first)
    {
      jobs := [];
      for n := 0 to |rules|
        invariant jobs == CreationJobs(rules[..n], b, now, first)
      {
        assert rules[..n + 1][..n] == rules[..n];
        match rules[n]
        case OnBooking => jobs := jobs + [Job(first + |jobs|, ConfirmationJob, b.id, now, Pending)];
        case Reminder24H =>
          var remindAt := b.start - Minutes(24 * 60);
          if remindAt > now {
            jobs := jobs + [Job(first + |jobs|, ReminderJob, b.id, remindAt, Pending)];
          }
        case Reminder1H =>
          var remindAt := b.start - Minutes(60);
          if remindAt > now {
            jobs := jobs + [Job(first + |jobs|, ReminderJob, b.id, remindAt, Pending)];
          }
        case ReminderMinutes(minutes) =>
          var remindAt := b.start - Minutes(minutes);
          if remindAt > now {
            jobs := jobs + [Job(first + |jobs|, ReminderJob, b.id, remindAt, Pending)];
          }
        case _ =>
      }
      assert rules[..|rules|] == rules;
    }

    // One notice for each rule.
    method CreateNotices(rules: seq<RuleRow>, kind: JobType, booking: BookingId, now: Instant)
      modifies this`nextId, jobRepo
      ensures var notices := NoticeJobs(|rules|, kind, booking, now, old(nextId));
              jobRepo.jobs == AddJobs(old(jobRepo.jobs), notices) && nextId == old(nextId) + |notices|
    {
      for n := 0 to |rules|
        invariant jobRepo.jobs == AddJobs(old(jobRepo.jobs), NoticeJobs(n, kind, booking, now, old(nextId)))
        invariant nextId == old(nextId) + n
      {
        ghost var before := NoticeJobs(n, kind, booking, now, old(nextId));
        jobRepo.Create(Job(nextId, kind, booking, now, Pending));
        assert NoticeJobs(n + 1, kind, booking, now, old(nextId))[..n] == before;
        nextId := nextId + 1;
      }
    }

    method CreateReminders(b: Booking, now: Instant)
      modifies this`nextId, jobRepo
      ensures var reminders := RenewedReminders(eventRules, b, now, old(nextId));
              jobRepo.jobs == AddJobs(old(jobRepo.jobs), reminders) && nextId == old(nextId) + |reminders|
    {
      ghost var reminders: seq<Job> := [];
      for n := 0 to |eventRules|
        invariant reminders == RenewedReminders(eventRules[..n], b, now, old(nextId))
        invariant jobRepo.jobs == AddJobs(old(jobRepo.jobs), reminders) && nextId == old(nextId) + |reminders|
      {
        assert eventRules[..n + 1][..n] == eventRules[..n];
        var lead := ReminderLead(eventRules[n]);
        if lead.Some? && b.start - lead.value > now {
          var job := Job(nextId, TriggerJob(eventRules[n]), b.id, b.start - lead.value, Pending);
          jobRepo.Create(job);
          assert (reminders + [job])[..|reminders|] == reminders;
          reminders := reminders + [job];
          nextId := nextId + 1;
        }
      }
      assert eventRules[..|eventRules|] == eventRules;
    }

    // ---------- Booking handlers ----------

    method CheckInvitation(access: AccessMode, token: Option<Token>) returns (r: Result<Option<InviteeId>>)
      requires Valid()
      ensures r == CheckAccess(View(), access, token)
    {
      match access
      case Closed => r := Err(Forbidden);
      case Unknown => r := Err(Internal);
      case Open => r := Ok(None);
      case Restricted =>
        if token.None? {
          return Err(Forbidden);
        }
        var invitee := FindInvitee(token.value);
        if invitee.None? {
          return Err(Forbidden);
        }
        if invitee.value.status != Active {
          return Err(Conflict);
        }
        r := Ok(Some(invitee.value.id));
    }

    method CreateBooking(ev: Event, req: CreateRequest, now: Instant) returns (r: Result<Booking>, ghost q: SlotQuery)
      requires Valid()
      modifies this, jobRepo
      ensures Valid()
      ensures MayRead(q, old(View()), ev, if req.date.Some? then req.date.value else 0, now)
      ensures Outcome(Handlers.CreateBooking(old(View()), q, req), r, old(View()), View())
    {
      q := SomeRead(View(), ev, if req.date.Some? then req.date.value else 0, now);
      var invitee := CheckInvitation(ev.access, req.token);
      if invitee.Err? {
        return Err(invitee.error), q;
      }
      if req.date.None? {
        return Err(Validation), q;
      }
      var placed;
      placed, q := PlaceNew(ev, req.date.value, req.time, now);
      if placed.Err? {
        return Err(placed.error), q;
      }
      var b := NewBooking(nextId, invitee.value, placed.value, req);
      var burn := if invitee.value.Some? then req.token else None;
      r := InsertBooking(b, burn, now);
      if r.Ok? {
        CreateKeepsValid(old(View()), q, req, View(), b);
      }
    }

    method InsertBooking(b: Booking, burn: Option<Token>, now: Instant) returns (r: Result<Booking>)
      modifies this, jobRepo
      ensures Outcome(Commit(old(View()), b, burn, now), r, old(View()), View())
    {
      var jobs := BuildCreationJobs(eventRules, b, now, nextId + 1);
      r := CreateWithToken(b, burn, jobs);
      if r.Ok? {
        nextId := nextId + 1 + |jobs|;
      }
    }

    method RescheduleBooking(ev: Event, token: Token, date: Option<Date>, time: RequestedTime, now: Instant)
      returns (r: Result<Booking>, ghost q: SlotQuery)
      requires Valid()
      modifies this, jobRepo
      ensures Valid()
      ensures MayRead(q, old(View()), ev, if date.Some? then date.value else 0, now)
      ensures (forall id :: !FoundByToken(old(View()), token, id)) ==> r == Err(NotFound) && View() == old(View())
      ensures forall id :: FoundByToken(old(View()), token, id) ==>
                Outcome(RescheduleReply(old(View()), q, id, date, time), r, old(View()), View())
    {
      q := SomeRead(View(), ev, if date.Some? then date.value else 0, now);
      var found := FindByToken(token);
      if found.None? {
        return Err(NotFound), q;
      }
      r, q := RescheduleFound(ev, found.value, date, time, now);
    }

    method RescheduleFound(ev: Event, booking: Booking, date: Option<Date>, time: RequestedTime, now: Instant)
      returns (r: Result<Booking>, ghost q: SlotQuery)
      requires Valid() && booking.id in bookings && bookings[booking.id] == booking
      modifies this, jobRepo
      ensures Valid()
      ensures MayRead(q, old(View()), ev, if date.Some? then date.value else 0, now)
      ensures Outcome(RescheduleReply(old(View()), q, booking.id, date, time), r, old(View()), View())
    {
      q := SomeRead(View(), ev, if date.Some? then date.value else 0, now);
      if booking.status == Cancelled {
        return Err(Validation), q;
      }
      if !ev.allowReschedule {
        return Err(Forbidden), q;
      }
      if date.None? {
        return Err(Validation), q;
      }
      var placed;
      placed, q := PlaceMoved(ev, date.value, time, now);
      if placed.Err? {
        return Err(placed.error), q;
      }
      var moved := booking.(start := placed.value.start, end := placed.value.end, location := placed.value.location);
      MoveBooking(moved, now);
      r := Ok(moved);
      RescheduleKeepsValid(old(View()), q, booking.id, time, View(), moved);
    }

    // The row, then the jobs.
    method MoveBooking(b: Booking, now: Instant)
      requires b.id in bookings && b == bookings[b.id].(start := b.start, end := b.end, location := b.location)
      modifies this, jobRepo
      ensures View() == RescheduleJobs(old(View()).(bookings := old(bookings)[b.id := b]), b, now)
    {
      var updated := UpdateRow(b);
      RenewJobs(b, now);
    }

    // Old pending jobs go, notices and reminders for the new start come.
    method RenewJobs(b: Booking, now: Instant)
      modifies this`nextId, jobRepo
      ensures View() == RescheduleJobs(old(View()), b, now)
    {
      ghost var db := View();
      jobRepo.CancelJobsForBooking(b.id);
      var rules := GetRulesByTrigger(OnReschedule);
      assert |rules| == RulesFor(db, OnReschedule);
      CreateNotices(rules, JobType.RescheduleJob, b.id, now);
      CreateReminders(b, now);
      JobsRenewed(db, b, now, jobRepo.jobs, nextId);
    }

    method CancelBooking(ev: Event, token: Token, now: Instant) returns (r: Result<Booking>)
      requires Valid()
      modifies this, jobRepo
      ensures Valid()
      ensures (forall id :: !FoundByToken(old(View()), token, id)) ==> r == Err(NotFound) && View() == old(View())
      ensures forall id :: FoundByToken(old(View()), token, id) ==>
                Outcome(Handlers.CancelBooking(old(View()), ev, id, now), r, old(View()), View())
    {
      var found := FindByToken(token);
      if found.None? {
        return Err(NotFound);
      }
      var booking := found.value;
      if booking.status == Cancelled {
        return Ok(booking);
      }
      if !ev.allowCancel {
        return Err(Forbidden);
      }
      r := ReleaseBooking(booking, now);
      CancelIsRelease(old(View()), ev, booking.id, now);
      CancelKeepsValid(old(View()), ev, booking.id, now, View(), r.value);
    }

    // The row and its invitee, then the jobs.
    method ReleaseBooking(b: Booking, now: Instant) returns (r: Result<Booking>)
      requires b.id in bookings && bookings[b.id] == b
      modifies this, jobRepo
      ensures r == Ok(b.(status := Cancelled))
      ensures View() == Released(old(View()), b, now)
    {
      r := CancelRow(b);
      jobRepo.CancelJobsForBooking(b.id);
      var rules := GetRulesByTrigger(OnCancel);
      CreateNotices(rules, CancellationJob, b.id, now);
    }

    method UpdateBooking(ev: Event, id: BookingId, req: UpdateRequest, now: Instant)
      returns (r: Result<Booking>, ghost q: SlotQuery)
      requires Valid()
      modifies this, jobRepo
      ensures Valid()
      ensures MayRead(q, old(View()), ev, DateOrZero(req.when), now)
      ensures Outcome(Handlers.UpdateBooking(old(View()), q, id, req), r, old(View()), View())
    {
      q := SomeRead(View(), ev, DateOrZero(req.when), now);
      if id !in bookings {
        return Err(NotFound), q;
      }
      var placed;
      placed, q := NewTimes(ev, bookings[id], req.when, now);
      if placed.Err? {
        return Err(placed.error), q;
      }
      var booking := EditFields(bookings[id], req);
      booking := booking.(start := placed.value.start, end := placed.value.end);
      r := UpdateRow(booking);
      UpdateKeepsValid(old(View()), q, id, req, View(), booking);
    }

    static method EditFields(b: Booking, req: UpdateRequest) returns (edited: Booking)
      ensures edited == Edited(b, req)
    {
      edited := b;
      if req.name.Some? {
        edited := edited.(name := req.name.value);
      }
      if req.email.Some? {
        edited := edited.(email := req.email.value);
      }
      var details := b.details;
      if req.labelId.Some? {
        details := details.(labelId := if req.labelId.value == "" then None else req.labelId);
      }
      if req.payout.Some? {
        details := details.(payout := req.payout);
      }
      if req.token.Some? {
        details := details.(token := if req.token.value == "" then None else req.token);
      }
      edited := edited.(details := details);
    }

    // The times an edit asks for, or those there are.
    method NewTimes(ev: Event, b: Booking, when: Option<(Option<Date>, RequestedTime)>, now: Instant)
      returns (r: Result<Placement>, ghost q: SlotQuery)
      requires Valid()
      ensures MayRead(q, View(), ev, DateOrZero(when), now) && r == EditTimes(q, b, when)
    {
      q := SomeRead(View(), ev, DateOrZero(when), now);
      if when.None? {
        return Ok(Placement(b.start, b.end, b.location)), q;
      }
      if when.value.0.None? {
        return Err(Validation), q;
      }
      r, q := PlaceEdited(ev, when.value.0.value, when.value.1, b.location, now);
    }

    method DeleteBooking(id: BookingId) returns (r: Result<()>)
      requires Valid()
      modifies this`bookings
      ensures Valid()
      ensures Replied(DeleteRow(old(View()), id), (), r, old(View()), View())
    {
      if id !in bookings {
        return Err(NotFound);
      }
      bookings := bookings - {id};
      r := Ok(());
      DeleteKeepsValid(old(View()), id);
    }

    // ---------- Slots and dates ----------

    method GetSlots(ev: Event, date: Option<Date>, now: Instant) returns (r: Result<seq<string>>, ghost q: SlotQuery)
      requires Valid()
      ensures ev.access == Closed ==> r == Err(Forbidden)
      ensures ev.access != Closed && date.None? ==> r == Err(Validation)
      ensures ev.access != Closed && date.Some? ==>
                && MayRead(q, View(), ev, date.value, now)
                && if BoundsOf(ev.zone, date.value).None? then r == Err(Panic) else r.Ok? && IsSlotList(q, r.value)
    {
      q := SomeRead(View(), ev, if date.Some? then date.value else 0, now);
      if ev.access == Closed {
        return Err(Forbidden), q;
      }
      if date.None? {
        return Err(Validation), q;
      }
      if BoundsOf(ev.zone, date.value).None? {
        return Err(Panic), q;
      }
      var day := ReadDay(ev, date.value, now);
      q := day;
      r := CalculateSlots(day);
    }

    method GetAvailableDates(ev: Event, start: Option<Date>, end: Option<Date>, now: Instant)
      returns (r: Result<seq<Date>>, ghost range: RangeReads)
      requires Valid()
      ensures start.None? || end.None? ==> r == Err(Validation)
      ensures start.Some? && end.Some? ==>
                if RangePanics(ev, start.value, end.value) then r == Err(Panic)
                else
                  && ReadsRange(range, View(), ev, start.value, end.value)
                  && r.Ok? && IsDateList(r.value, ev, start.value, end.value + 1, range, now)
    {
      range := RangeReads([], [], None);
      if start.None? || end.None? {
        return Err(Validation), range;
      }
      var from := ev.zone.Single(Midnight(start.value));
      var to := ev.zone.Single(DayEnd(end.value));
      if from.None? || to.None? {
        return Err(Panic), range;
      }
      var rows := ListByRange(from.value, to.value);
      var rules: seq<Override> := [];
      var listed := None;
      if ev.schedule == Manual {
        var found := ListSessions(from.value, to.value);
        listed := Some(found);
      } else {
        rules := ListOverrides(start.value, end.value);
      }
      var read := RangeReads(rows, rules, listed);
      range := read;
      r := WalkDates(ev, start.value, end.value, read, now);
    }

    // ---------- Session handlers ----------

    method FindOverlap(start: Instant, end: Instant) returns (found: bool)
      requires Valid()
      ensures found <==> exists id :: id in sessions && Overlap(sessions[id].start, sessions[id].end, start, end)
    {
      var rows := ListSessions(start, end);
      if rows != [] {
        assert rows[0] in rows;
      }
      found := rows != [];
      if id :| id in sessions && Overlap(sessions[id].start, sessions[id].end, start, end) {
        assert sessions[id] in rows;
      }
    }

    method CreateSession(ev: Event, req: SessionRequest) returns (r: Result<Session>)
      requires Valid()
      modifies this`sessions, this`nextId
      ensures Valid()
      ensures Outcome(ManualSchedule.CreateSession(old(View()), ev, req), r, old(View()), View())
    {
      if ev.schedule != Manual {
        return Err(Validation);
      }
      if req.date.None? || req.start.None? || req.end.None? {
        return Err(Validation);
      }
      if req.end.value <= req.start.value {
        return Err(Validation);
      }
      var start := ev.zone.Single(ClockTime(req.date.value, req.start.value));
      var end := ev.zone.Single(ClockTime(req.date.value, req.end.value));
      if start.None? || end.None? {
        return Err(Validation);
      }
      var taken := FindOverlap(start.value, end.value);
      if taken {
        return Err(Conflict);
      }
      var session := Session.Session(nextId, start.value, end.value, req.capacity, None, None);
      sessions := sessions[session.id := session];
      nextId := nextId + 1;
      r := Ok(session);
      SessionsKeepValid(old(View()), View());
    }

    method UpdateSession(id: SessionId, edit: SessionEdit) returns (r: Result<Session>)
      requires Valid()
      modifies this`sessions
      ensures Valid()
      ensures Outcome(ManualSchedule.UpdateSession(old(View()), id, edit), r, old(View()), View())
    {
      if id !in sessions {
        return Err(NotFound);
      }
      var session := sessions[id];
      if edit.capacity.Some? {
        var count := CountOverlaps(session.start, session.end);
        if count > edit.capacity.value {
          return Err(Conflict);
        }
        session := session.(capacity := edit.capacity.value);
      }
      if edit.location.Some? {
        session := session.(location := if edit.location.value == "" then None else edit.location);
      }
      if edit.host.Some? {
        session := session.(host := if edit.host.value == "" then None else edit.host);
      }
      sessions := sessions[id := session];
      r := Ok(session);
      SessionsKeepValid(old(View()), View());
    }

    method DeleteSession(id: SessionId) returns (r: Result<()>)
      requires Valid()
      modifies this`sessions
      ensures Valid()
      ensures Replied(ManualSchedule.DeleteSession(old(View()), id), (), r, old(View()), View())
      ensures r.Ok? <==>
                && id in old(sessions)
                && forall b :: b in bookings ==> !Listed(bookings[b], old(sessions)[id].start, old(sessions)[id].end)
    {
      if id !in sessions {
        return Err(NotFound);
      }
      var count := CountOverlaps(sessions[id].start, sessions[id].end);
      NoneOverlaps(View(), sessions[id].start, sessions[id].end);
      if count > 0 {
        return Err(Conflict);
      }
      sessions := sessions - {id};
      r := Ok(());
      SessionsKeepValid(old(View()), View());
    }
  }
}
