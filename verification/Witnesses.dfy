// Inputs on which the theorems say something: bounds that are met and
// properties that fail.
module Witnesses {
  import opened Results
  import opened Time
  import opened Models
  import opened Availability
  import opened SlotTheory
  import opened Store
  import opened Handlers
  import opened Interleaving
  import opened Overbooking
  import DateListing
  import ManualSchedule
  import Reminders
  import SerialBookings
  import SoundSessions
  import Filling
  import ManualOverbooking
  import ManualTightness
  import Tightness

  // ---------- A plain day ----------

  // A read of Thursday 1970-01-01 in UTC, with one window from 03:00 to 04:00
  // and nothing booked that day.
  ghost predicate Plain(q: SlotQuery, capacity: int) {
    && q.date == 0 && q.now == 0 && q.rows == [] && q.rule == None && q.sessions == None
    && q.event.schedule == Recurring && q.event.access == AccessMode.Open
    && Utc(q.event.zone)
    && q.event.noticeGeneral == 0 && q.event.noticeFirst == 0
    && q.event.activeStart == 0 && q.event.activeEnd == DAY
    && q.event.duration == 60 && q.event.interval == 60 && q.event.capacity == capacity
    && q.event.config.thursday == [Window(180, 240, None)]
  }

  predicate Utc(z: TimeZone) {
    z.base == 0 && z.changes == []
  }

  const PLAIN_DAY := DayBounds(0, 86_399_000_000_000)
  const PLAIN_WINDOW := Window(180, 240, None)

  lemma UtcSingle(z: TimeZone, w: WallTime)
    requires Utc(z)
    ensures z.Single(w) == Some(w) && z.Local(w) == w
  {
    forall v ensures z.Local(v) == v {}
    z.SingleExact(w, w);
  }

  lemma UtcBounds(z: TimeZone, d: Date, day: DayBounds)
    requires Utc(z) && d == 0 && day == PLAIN_DAY
    ensures BoundsOf(z, d) == Some(day)
  {
    UtcSingle(z, Midnight(d));
    UtcSingle(z, DayEnd(d));
  }

  lemma PlainSlot(q: SlotQuery, capacity: int, day: DayBounds, w: Window, t: Instant)
    requires Plain(q, capacity) && capacity > 0 && day == PLAIN_DAY && w == PLAIN_WINDOW && t == Minutes(180)
    ensures BoundsOf(q.event.zone, q.date) == Some(day) && w in q.Windows()
    ensures q.Offers(day, w, 0, t) && q.IsSlot(t)
  {
    UtcBounds(q.event.zone, q.date, day);
    UtcSingle(q.event.zone, ClockTime(q.date, 180));
    assert w in q.Windows() && q.HasRoom(day, 180, capacity);
    HourOffered(q, day, w, t);
  }

  // Tables without rows on that day.
  ghost predicate FreeThatDay(db: Db) {
    db.overrides == [] && forall id :: id in db.bookings ==>
      db.bookings[id].id == id && !Overlap(db.bookings[id].start, db.bookings[id].end, PLAIN_DAY.start, PLAIN_DAY.end)
  }

  lemma FreeDayRead(q: SlotQuery, db: Db)
    requires q.rows == [] && q.rule == None && q.sessions == None && q.event.schedule == Recurring
    requires q.date == 0 && Utc(q.event.zone) && FreeThatDay(db)
    ensures Reads(q, db)
  {
    UtcBounds(q.event.zone, q.date, PLAIN_DAY);
  }

  lemma UtcSteady(q: SlotQuery)
    requires q.date == 0 && Utc(q.event.zone)
    ensures q.event.zone.Steady(q.date)
  {
    q.event.zone.FixedIsSteady(q.date);
  }

  lemma OnePlace(q: SlotQuery, windows: seq<Window>, w: Window)
    requires windows == [w] && w == PLAIN_WINDOW && q.Capacity(w) >= 0
    ensures PeakOf(q, windows, 180) == q.Capacity(w)
  {
    assert windows[..0] == [];
  }

  lemma OneWindowPeak(q: SlotQuery, capacity: int, w: Window)
    requires q.date == 0 && q.event.capacity == capacity >= 0 && q.event.config.thursday == [w] && w == PLAIN_WINDOW
    ensures Peak(q.event, [], q.date, 180) == capacity
  {
    var config := Config(q.event, [], q.date);
    OnePlace(config, config.Windows(), w);
  }

  ghost predicate Blank(db: Db) {
    db == Db(map[], map[], [], map[], map[], [], [], 0)
  }

  // ---------- The overbooking bound is met ----------

  lemma PlainFillable(q: SlotQuery, capacity: int, db: Db, p: Placement)
    requires Plain(q, capacity) && capacity > 0 && Blank(db)
    requires p == Placement(Minutes(180), Minutes(240), None)
    ensures Tightness.Fillable(q.event, db, q, PLAIN_DAY, PLAIN_WINDOW, 0, p) && q.Capacity(PLAIN_WINDOW) == capacity
  {
    PlainSlot(q, capacity, PLAIN_DAY, PLAIN_WINDOW, p.start);
    FreeDayRead(q, db);
    UtcSteady(q);
  }

  lemma MinuteOnSlot(day: DayBounds, p: Placement)
    requires day == PLAIN_DAY && p.start == Minutes(180) && p.end == Minutes(240)
    ensures MinuteOf(day, 180)(p.start, p.end)
  {
  }

  // On the plain day, for every capacity and every number of requests at
  // once, the minute from 03:00 comes to hold all that the bound allows.
  lemma PlainBoundIsMet(q: SlotQuery, capacity: int, db: Db, k: nat) returns (run: seq<State>)
    requires Plain(q, capacity) && capacity > 0 && Blank(db) && k >= 1
    ensures Run(q.event, k, run) && run[0].db == db
    ensures |Occupants(Filling.Last(run).db, MinuteOf(PLAIN_DAY, 180))| == capacity + k - 1
  {
    var p := Placement(Minutes(180), Minutes(240), None);
    PlainFillable(q, capacity, db, p);
    OneWindowPeak(q, capacity, PLAIN_WINDOW);
    MinuteOnSlot(PLAIN_DAY, p);
    run := Tightness.BoundIsMet(q.event, k, db, q, PLAIN_DAY, PLAIN_WINDOW, 0, p, 180);
  }

  // In UTC a session from 10:00 to 11:00, nobody on it, and a request that is
  // neither too early nor too late.
  ghost predicate PlainSession(q: SlotQuery, db: Db, s: Session) {
    && q.event.schedule == Manual && Utc(q.event.zone) && q.date == 0
    && db.Valid() && db.bookings == map[] && db.sessions == map[s.id := s]
    && s.start == Minutes(600) && s.end == Minutes(660) && s.capacity >= 1
    && Reads(q, db) && Bookable(q, s.start)
  }

  lemma HourLasts(s: Session, zone: TimeZone)
    requires s.end == s.start + Minutes(60)
    ensures ManualSchedule.Lasts(s) && ManualSchedule.SeatEnd(s) == s.end && ManualSchedule.Visible(zone, s)
  {
    ManualSchedule.RoundedEnd(s.start, s.end);
  }

  lemma PlainSessionRead(q: SlotQuery, db: Db, s: Session, day: DayBounds)
    requires PlainSession(q, db, s) && day == PLAIN_DAY
    ensures s in q.sessions.value && SessionFor(q, s.start) == Some(s)
  {
    UtcBounds(q.event.zone, q.date, day);
    assert Overlap(s.start, s.end, day.start, day.end);
    assert s in q.sessions.value;
  }

  lemma PlainSessionFillable(q: SlotQuery, db: Db, s: Session, p: Placement)
    requires PlainSession(q, db, s) && p == Placement(s.start, s.end, s.location)
    ensures ManualTightness.Fillable(q.event, db, q, s, p)
  {
    PlainSessionRead(q, db, s, PLAIN_DAY);
    HourLasts(s, q.event.zone);
    UtcSingle(q.event.zone, s.start);
  }

  // Its places are overbooked by k - 1, for every number of places and every k.
  lemma PlainSessionOverbooked(q: SlotQuery, db: Db, s: Session, k: nat) returns (run: seq<State>)
    requires PlainSession(q, db, s) && k >= 1
    ensures ManualOverbooking.Run(q.event, k, run) && run[0].db == db
    ensures ManualSchedule.CountOverlap(Filling.Last(run).db, s.start, s.end) == s.capacity + k - 1
  {
    var p := Placement(s.start, s.end, s.location);
    PlainSessionFillable(q, db, s, p);
    run := ManualTightness.SessionBoundIsMet(q.event, k, db, q, s, p);
  }

  // ---------- A booking is made ----------

  // A slot of an OPEN event, asked for as it was listed, is booked.
  lemma SlotIsBooked(q: SlotQuery, db: Db, req: CreateRequest, t: Instant) returns (after: Db, b: Booking)
    requires db.Valid() && Reads(q, db) && q.IsSlot(t) && q.event.schedule == Recurring
               && q.event.access == AccessMode.Open
    requires q.event.noticeGeneral >= 0 && q.event.noticeFirst >= 0 && req.date == Some(q.date) && req.time == Iso(t)
    ensures CreateBooking(db, q, req) == Ok((after, b)) && Live(b) && after.bookings == db.bookings[b.id := b]
    ensures b.start == t && b.end == t + Minutes(q.event.duration)
  {
    OfferedIsAccepted(q, q, db, t, req);
    after, b := CreateBooking(db, q, req).value.0, CreateBooking(db, q, req).value.1;
    var burn := Reminders.CreateIsCommit(db, q, req, after, b);
  }

  lemma CreateIsCall(q: SlotQuery, db: Db, req: CreateRequest, after: Db, b: Booking)
    requires ReadsFor(q, db, q.event) && CreateBooking(db, q, req) == Ok((after, b))
    ensures SerialBookings.HandlerStepOf(q.event)(db, after, SerialBookings.Create(q, req))
  {
  }

  lemma FirstCall(q: SlotQuery, capacity: int, db: Db, req: CreateRequest, t: Instant) returns (after: Db, b: Booking)
    requires Plain(q, capacity) && capacity > 0 && Blank(db) && t == Minutes(180)
    requires req.date == Some(q.date) && req.time == Iso(t)
    ensures SerialBookings.HandlerStepOf(q.event)(db, after, SerialBookings.Create(q, req))
    ensures Live(b) && after.bookings == db.bookings[b.id := b] && b.start == t && b.end == t + Minutes(60)
  {
    PlainSlot(q, capacity, PLAIN_DAY, PLAIN_WINDOW, t);
    FreeDayRead(q, db);
    after, b := SlotIsBooked(q, db, req, t);
    CreateIsCall(q, db, req, after, b);
  }

  lemma OneOccupant(db: Db, b: Booking, day: DayBounds)
    requires db.bookings == map[b.id := b] && Live(b) && day.start == 0
    requires b.start == Minutes(180) && b.end == Minutes(240)
    ensures |Occupants(db, MinuteOf(day, 180))| == 1
  {
    assert Occupants(db, MinuteOf(day, 180)) == {b.id};
  }

  // Someone books the one place: the call is accepted, and the minute is then
  // as full as its capacity allows.
  lemma CapacityIsReached(q: SlotQuery, db: Db, req: CreateRequest) returns (after: Db)
    requires Plain(q, 1) && Blank(db) && req.date == Some(q.date) && req.time == Iso(Minutes(180))
    ensures SerialBookings.HandlerStepOf(q.event)(db, after, SerialBookings.Create(q, req))
    ensures |Occupants(after, MinuteOf(PLAIN_DAY, 180))| == Peak(q.event, [], q.date, 180) == 1
  {
    var b;
    after, b := FirstCall(q, 1, db, req, Minutes(180));
    OneOccupant(after, b, PLAIN_DAY);
    OneWindowPeak(q, 1, PLAIN_WINDOW);
  }

  // ---------- A slot that spills into the next date ----------

  // On date d the clock is put forward from 02:00 to 03:00.
  predicate ForwardOn(z: TimeZone, d: Date) {
    z.base == 0 && z.changes == [Change(ClockTime(d, 120), Minutes(60))]
  }

  // The whole of such a date is one window of one place, slots last 24 hours,
  // and the next date is closed.
  ghost predicate ShortDay(q: SlotQuery) {
    && ForwardOn(q.event.zone, q.date) && q.now < Midnight(q.date)
    && q.rows == [] && q.rule == None && q.sessions == None
    && q.event.schedule == Recurring && q.event.access == AccessMode.Open
    && q.event.noticeGeneral == 0 && q.event.noticeFirst == 0
    && q.event.activeStart == Midnight(q.date) && q.event.activeEnd == Midnight(q.date + 1)
    && q.event.duration == 1440 && q.event.interval == 1440 && q.event.capacity == 1
    && q.event.config.On(q.date) == [WHOLE_DAY] && q.event.config.On(q.date + 1) == []
  }

  const WHOLE_DAY := Window(0, 1439, None)

  function ShortBounds(t: Instant): DayBounds {
    DayBounds(t, t + Seconds(82_799))
  }

  lemma ForwardClock(z: TimeZone, d: Date, w: WallTime, u: Instant)
    requires ForwardOn(z, d) && u == (if w < ClockTime(d, 120) then w else w - Minutes(60))
    requires w < ClockTime(d, 120) || w >= ClockTime(d, 180)
    ensures z.Single(w) == Some(u)
  {
    assert z.Offset(0) == 0 && z.Offset(1) == Minutes(60);
    z.SegmentUnique(if u < ClockTime(d, 120) then 0 else 1, u);
    forall v | z.Local(v) == w ensures v == u {
      z.SegmentUnique(if v < ClockTime(d, 120) then 0 else 1, v);
    }
    z.SingleExact(w, u);
  }

  lemma ForwardBounds(z: TimeZone, d: Date)
    requires ForwardOn(z, d)
    ensures BoundsOf(z, d) == Some(ShortBounds(Midnight(d))) && z.Single(ClockTime(d, 0)) == Some(Midnight(d))
  {
    ForwardClock(z, d, Midnight(d), Midnight(d));
    ForwardClock(z, d, DayEnd(d), DayEnd(d) - Minutes(60));
  }

  lemma ForwardNext(z: TimeZone, d: Date, start: Instant)
    requires ForwardOn(z, d) && start == Midnight(d + 1) - Minutes(60)
    ensures z.Steady(d + 1) && DayOf(z, d + 1).start == start
  {
    forall m | Midnight(d + 1) <= m < Midnight(d + 1) + DAY
      ensures z.Single(m) == Some(start + (m - Midnight(d + 1)))
    {
      ForwardClock(z, d, m, m - Minutes(60));
    }
    SteadyFrom(z, d + 1, start);
  }

  lemma SteadyFrom(z: TimeZone, d: Date, start: Instant)
    requires forall m :: Midnight(d) <= m < Midnight(d) + DAY ==> z.Single(m) == Some(start + (m - Midnight(d)))
    ensures z.Steady(d) && DayOf(z, d).start == start
  {
    assert z.Single(Midnight(d)) == Some(start);
    assert Midnight(d) <= DayEnd(d) < Midnight(d) + DAY;
  }

  lemma ShortDate(z: TimeZone, d: Date, t: Instant, day: DayBounds)
    requires z.Single(ClockTime(d, 0)) == Some(t) && BoundsOf(z, d) == Some(day)
               && day.end != day.start + Seconds(86_399)
    ensures StartDate(z, t) == d && !z.Steady(d)
  {
    z.SingleShows(ClockTime(d, 0), t);
    ClockTimeInDate(d, 0);
    if z.Steady(d) {
      SteadyBounds(z, d);
    }
  }

  lemma WholeDayOffered(q: SlotQuery, t: Instant)
    requires q.event.schedule == Recurring && q.rule == None && q.rows == [] && q.now < t
    requires BoundsOf(q.event.zone, q.date).Some? && WHOLE_DAY in q.Windows()
    requires q.event.zone.Single(ClockTime(q.date, 0)) == Some(t)
    requires q.event.duration == 1440 && q.event.interval == 1440 && q.event.capacity == 1
    requires q.event.noticeGeneral == 0 && q.event.noticeFirst == 0
    requires q.event.activeStart <= t && t + Minutes(1440) <= q.event.activeEnd
    ensures q.IsSlot(t)
  {
    assert q.HasRoom(BoundsOf(q.event.zone, q.date).value, 0, 1);
    assert q.Cursor(WHOLE_DAY, 0) == 0;
    assert q.Offers(BoundsOf(q.event.zone, q.date).value, WHOLE_DAY, 0, t);
  }

  lemma ShortDaySlot(q: SlotQuery)
    requires ShortDay(q)
    ensures BoundsOf(q.event.zone, q.date).Some? && q.IsSlot(Midnight(q.date))
  {
    ForwardBounds(q.event.zone, q.date);
    assert q.Windows()[0] == WHOLE_DAY;
    WholeDayOffered(q, Midnight(q.date));
  }

  lemma BlankRead(q: SlotQuery, db: Db)
    requires q.rows == [] && q.rule == None && q.sessions == None && q.event.schedule == Recurring
    requires BoundsOf(q.event.zone, q.date).Some? && Blank(db)
    ensures Reads(q, db) && db.Valid()
  {
  }

  lemma ShortDayBooked(q: SlotQuery, db: Db, req: CreateRequest) returns (after: Db, b: Booking)
    requires ShortDay(q) && Blank(db) && req.date == Some(q.date) && req.time == Iso(Midnight(q.date))
    ensures SerialBookings.HandlerStepOf(q.event)(db, after, SerialBookings.Create(q, req))
    ensures after.bookings == map[b.id := b] && Live(b)
    ensures b.start == Midnight(q.date) && b.end == Midnight(q.date + 1)
  {
    ShortDaySlot(q);
    BlankRead(q, db);
    after, b := SlotIsBooked(q, db, req, Midnight(q.date));
    CreateIsCall(q, db, req, after, b);
  }

  lemma ClosedDate(ev: Event, d: Date)
    requires ev.schedule == Recurring && ev.config.On(d) == []
    ensures Countable(ev, [], d, 0) && Peak(ev, [], d, 0) == 0
  {
    assert Config(ev, [], d).Windows() == [];
  }

  lemma SpillsOnto(z: TimeZone, db: Db, b: Booking, d: Date)
    requires !z.Steady(StartDate(z, b.start)) && StartDate(z, b.start) != d && z.Steady(d)
    requires b.start < DayOf(z, d).start == b.end - Minutes(60)
    requires db.bookings == map[b.id := b] && Live(b)
    ensures Occupants(db, MinuteOf(DayOf(z, d), 0)) == {b.id} == Spilled(z, db, d, 0)
    ensures !Contained(z, b.start, b.end)
  {
    OnlyOccupant(db, b, DayOf(z, d), 0);
    ShowsSteady(z, d, b.end - 1);
  }

  lemma OnlyOccupant(db: Db, b: Booking, day: DayBounds, i: int)
    requires db.bookings == map[b.id := b] && Live(b) && OnMinute(b.start, b.end, day, i)
    ensures Occupants(db, MinuteOf(day, i)) == {b.id}
  {
  }

  lemma ForwardSpills(z: TimeZone, db: Db, b: Booking, d: Date)
    requires ForwardOn(z, d) && b.start == Midnight(d) && b.end == Midnight(d + 1)
    requires db.bookings == map[b.id := b] && Live(b)
    ensures z.Steady(d + 1) && !Contained(z, b.start, b.end)
    ensures Occupants(db, MinuteOf(DayOf(z, d + 1), 0)) == {b.id} == Spilled(z, db, d + 1, 0)
  {
    ForwardBounds(z, d);
    ShortDate(z, d, Midnight(d), ShortBounds(Midnight(d)));
    ForwardNext(z, d, b.end - Minutes(60));
    SpillsOnto(z, db, b, d + 1);
  }

  lemma ShortDaySpills(ev: Event, db: Db, b: Booking, d: Date, next: Date)
    requires ForwardOn(ev.zone, d) && next == d + 1 && b.start == Midnight(d) && b.end == Midnight(next)
    requires db.bookings == map[b.id := b] && Live(b)
    requires ev.schedule == Recurring && ev.config.On(next) == []
    ensures ev.zone.Steady(next) && Countable(ev, [], next, 0) && Peak(ev, [], next, 0) == 0
    ensures Occupants(db, MinuteOf(DayOf(ev.zone, next), 0)) == {b.id} == Spilled(ev.zone, db, next, 0)
    ensures !Contained(ev.zone, b.start, b.end)
  {
    ClosedDate(ev, next);
    ForwardSpills(ev.zone, db, b, d);
  }

  // The whole day is booked, and 00:00 of the next date, which has no window
  // at all, is taken: the booking spills.
  lemma SlotSpills(q: SlotQuery, db: Db, req: CreateRequest) returns (after: Db, b: Booking)
    requires ShortDay(q) && Blank(db) && req.date == Some(q.date) && req.time == Iso(Midnight(q.date))
    ensures SerialBookings.HandlerStepOf(q.event)(db, after, SerialBookings.Create(q, req))
    ensures var (z, d) := (q.event.zone, q.date + 1);
            && z.Steady(d) && Countable(q.event, [], d, 0) && Peak(q.event, [], d, 0) == 0
            && Occupants(after, MinuteOf(DayOf(z, d), 0)) == {b.id} == Spilled(z, after, d, 0)
            && !Contained(z, b.start, b.end)
  {
    after, b := ShortDayBooked(q, db, req);
    ShortDaySpills(q.event, after, b, q.date, q.date + 1);
  }

  // ---------- A stale reminder ----------

  // One booking on another day, with a reminder an hour before it.
  ghost predicate Reminded(s: Reminders.State) {
    && s.db.bookings.Keys == {0} && s.db.bookings[0].id == 0 && Live(s.db.bookings[0])
    && s.db.bookings[0].start == DAY + Minutes(180) && s.db.bookings[0].end == DAY + Minutes(240)
    && s.db.overrides == [] && s.db.nextId == 2
    && s.db.jobs == map[1 := Job(1, ReminderJob, 0, DAY + Minutes(120), Pending)]
    && s.made == map[1 := [Reminder1H]]
  }

  lemma RemindedInTime(s: Reminders.State)
    requires Reminded(s)
    ensures Reminders.Inv(s)
  {
    assert Reminders.For(s.db.jobs[1], s.db.bookings[0].start, Reminder1H);
  }

  lemma PlainUpdate(q: SlotQuery, capacity: int, location: Option<string>)
    requires Plain(q, capacity) && capacity > 0
    ensures UpdateTime(q, Iso(Minutes(180)), location) == Ok(Placement(Minutes(180), Minutes(240), location))
  {
    var t := Minutes(180);
    PlainSlot(q, capacity, PLAIN_DAY, PLAIN_WINDOW, t);
    SlotRoundTrip(q, t);
    SlotIsListed(q, t);
    SlotPassesGuards(q, t);
  }

  lemma UpdateMoves(db: Db, q: SlotQuery, id: BookingId, req: UpdateRequest, time: RequestedTime, p: Placement)
    returns (after: Db, b: Booking)
    requires id in db.bookings && db.bookings[id].id == id && req.when == Some((Some(q.date), time))
    requires UpdateTime(q, time, db.bookings[id].location) == Ok(p)
    ensures UpdateBooking(db, q, id, req) == Ok((after, b)) && b.start == p.start
  {
    after, b := UpdateBooking(db, q, id, req).value.0, UpdateBooking(db, q, id, req).value.1;
  }

  // An admin moves the booking a day ahead: the edit is accepted, and the
  // reminder stays where it was.
  lemma EditLeavesReminder(s: Reminders.State, q: SlotQuery, req: UpdateRequest) returns (after: Db, b: Booking)
    requires Reminded(s) && Plain(q, 1) && req.when == Some((Some(q.date), Iso(Minutes(180))))
    ensures MayRead(q, s.db, q.event, q.date, q.now) && UpdateBooking(s.db, q, 0, req) == Ok((after, b))
    ensures Reminders.Inv(s) && !Reminders.Inv(Reminders.Made(s, after))
  {
    FreeDayRead(q, s.db);
    PlainUpdate(q, 1, s.db.bookings[0].location);
    after, b := UpdateMoves(s.db, q, 0, req, Iso(Minutes(180)),
      Placement(Minutes(180), Minutes(240), s.db.bookings[0].location));
    RemindedInTime(s);
    LeftBehind(s, b);
    Reminders.EditExact(s, q, 0, req, after, b);
  }

  lemma LeftBehind(s: Reminders.State, b: Booking)
    requires Reminded(s) && b.start == Minutes(180)
    ensures !Reminders.RemindersFollow(s, 0, b.start)
  {
    forall t | t in s.made[1] ensures !Reminders.For(s.db.jobs[1], b.start, t) {
      assert t == Reminder1H;
    }
    assert !Reminders.OnTime(s.db.jobs[1], b.start, s.made[1]);
  }

  // ---------- Sessions that do not last ----------

  // The clock is put forward by 30 seconds at 01:00:10.
  ghost predicate HalfMinuteZone(z: TimeZone) {
    z.base == 0 && z.changes == [Change(Minutes(60) + Seconds(10), Seconds(30))]
  }

  lemma HalfMinuteClock(z: TimeZone, w: WallTime, u: Instant)
    requires HalfMinuteZone(z)
    requires u == (if w < Minutes(60) + Seconds(10) then w else w - Seconds(30))
    requires w < Minutes(60) + Seconds(10) || w >= Minutes(60) + Seconds(40)
    ensures z.Single(w) == Some(u)
  {
    assert z.Offset(0) == 0 && z.Offset(1) == Seconds(30);
    z.SegmentUnique(if u < Minutes(60) + Seconds(10) then 0 else 1, u);
    forall v | z.Local(v) == w ensures v == u {
      z.SegmentUnique(if v < Minutes(60) + Seconds(10) then 0 else 1, v);
    }
    z.SingleExact(w, u);
  }

  ghost predicate OneMinuteSession(req: ManualSchedule.SessionRequest) {
    req.date == Some(0) && req.start == Some(60) && req.end == Some(61)
  }

  lemma SessionIsMade(db: Db, ev: Event, req: ManualSchedule.SessionRequest, start: Instant, end: Instant)
    returns (after: Db, s: Session)
    requires ev.schedule == Manual && db.sessions == map[] && req.date.Some? && req.start.Some? && req.end.Some?
    requires req.start.value < req.end.value
    requires ev.zone.Single(ClockTime(req.date.value, req.start.value)) == Some(start)
    requires ev.zone.Single(ClockTime(req.date.value, req.end.value)) == Some(end)
    ensures ManualSchedule.CreateSession(db, ev, req) == Ok((after, s)) && s.start == start && s.end == end
  {
    after, s := ManualSchedule.CreateSession(db, ev, req).value.0, ManualSchedule.CreateSession(db, ev, req).value.1;
  }

  // In a zone whose segments outlast their jumps, a session from 01:00 to
  // 01:01 can last half a minute.
  lemma BriefSession(db: Db, ev: Event, req: ManualSchedule.SessionRequest) returns (after: Db, s: Session)
    requires ev.schedule == Manual && HalfMinuteZone(ev.zone) && db.sessions == map[] && OneMinuteSession(req)
    ensures ev.zone.Regular() && ManualSchedule.CreateSession(db, ev, req) == Ok((after, s))
    ensures s.end == s.start + Seconds(30) && !ManualSchedule.Lasts(s)
  {
    HalfMinuteClock(ev.zone, ClockTime(0, 60), Minutes(60));
    HalfMinuteClock(ev.zone, ClockTime(0, 61), Minutes(61) - Seconds(30));
    after, s := SessionIsMade(db, ev, req, Minutes(60), Minutes(61) - Seconds(30));
  }

  // Three jumps within three hours: the clock shows 11:30 an hour before it
  // shows 05:30, and each of them once.
  ghost predicate JumpyZone(z: TimeZone) {
    z.base == 0
    && z.changes ==
         [Change(Minutes(60), Minutes(600)), Change(Minutes(120), Minutes(180)), Change(Minutes(180), Minutes(570))]
  }

  function JumpySegment(u: Instant): nat {
    if u < Minutes(60) then 0 else if u < Minutes(120) then 1 else if u < Minutes(180) then 2 else 3
  }

  lemma JumpyLocal(z: TimeZone, u: Instant)
    requires JumpyZone(z)
    ensures z.Local(u) == u + [0, Minutes(600), Minutes(180), Minutes(570)][JumpySegment(u)]
  {
    z.SegmentUnique(JumpySegment(u), u);
  }

  lemma JumpyClock(z: TimeZone, w: WallTime, u: Instant)
    requires JumpyZone(z)
    requires (w == Minutes(330) && u == Minutes(150)) || (w == Minutes(690) && u == Minutes(90))
    ensures z.Single(w) == Some(u)
  {
    JumpyLocal(z, u);
    forall v | z.Local(v) == w ensures v == u {
      JumpyLocal(z, v);
    }
    z.SingleExact(w, u);
  }

  // There a session from 05:30 to 11:30 ends before it starts.
  lemma InvertedSession(db: Db, ev: Event, req: ManualSchedule.SessionRequest) returns (after: Db, s: Session)
    requires ev.schedule == Manual && JumpyZone(ev.zone) && db.sessions == map[]
    requires req.date == Some(0) && req.start == Some(330) && req.end == Some(690)
    ensures ManualSchedule.CreateSession(db, ev, req) == Ok((after, s))
    ensures s.end < s.start && !ManualSchedule.Lasts(s)
  {
    JumpyClock(ev.zone, ClockTime(0, 330), Minutes(150));
    JumpyClock(ev.zone, ClockTime(0, 690), Minutes(90));
    after, s := SessionIsMade(db, ev, req, Minutes(150), Minutes(90));
  }

  // ---------- A session whose bookings its date does not list ----------

  // Around midnight of date d the clock jumps to 00:10, two minutes later
  // back to 00:00, and after half a minute to 00:20.
  predicate StutterOn(z: TimeZone, d: Date) {
    z.base == 0
    && z.changes == [
         Change(Midnight(d), Minutes(10)),
         Change(Midnight(d) + Minutes(2), -Minutes(2)),
         Change(Midnight(d) + Seconds(150), Seconds(1050))]
  }

  function StutterSegment(d: Date, u: Instant): nat {
    if u < Midnight(d) then 0
    else if u < Midnight(d) + Minutes(2) then 1
    else if u < Midnight(d) + Seconds(150) then 2
    else 3
  }

  lemma StutterLocal(z: TimeZone, d: Date, u: Instant)
    requires StutterOn(z, d)
    ensures z.Local(u) == u + [0, Minutes(10), -Minutes(2), Seconds(1050)][StutterSegment(d, u)]
  {
    z.SegmentUnique(StutterSegment(d, u), u);
  }

  // What the clock shows from 00:10 for two minutes, for the half minute
  // from 00:00 and from 00:20 on, it shows once.
  lemma StutterClock(z: TimeZone, d: Date, w: WallTime, u: Instant)
    requires StutterOn(z, d) && Midnight(d) <= u
               && w == u + [0, Minutes(10), -Minutes(2), Seconds(1050)][StutterSegment(d, u)]
    ensures z.Single(w) == Some(u)
  {
    StutterLocal(z, d, u);
    forall v | z.Local(v) == w ensures v == u {
      StutterLocal(z, d, v);
    }
    z.SingleExact(w, u);
  }

  lemma StutterBounds(z: TimeZone, d: Date)
    requires StutterOn(z, d)
    ensures BoundsOf(z, d) == Some(DayBounds(Midnight(d) + Minutes(2), DayEnd(d) - Seconds(1050)))
    ensures z.Single(ClockTime(d, 10)) == Some(Midnight(d))
    ensures z.Single(ClockTime(d, 20)) == Some(Midnight(d) + Seconds(150))
  {
    StutterClock(z, d, Midnight(d), Midnight(d) + Minutes(2));
    StutterClock(z, d, DayEnd(d), DayEnd(d) - Seconds(1050));
    StutterClock(z, d, ClockTime(d, 10), Midnight(d));
    StutterClock(z, d, ClockTime(d, 20), Midnight(d) + Seconds(150));
  }

  lemma StutterUnseen(z: TimeZone, d: Date, s: Session)
    requires z.Single(ClockTime(d, 10)) == Some(s.start) && s.end == s.start + Seconds(150)
    requires BoundsOf(z, d) == Some(DayBounds(s.start + Minutes(2), DayEnd(d) - Seconds(1050)))
               && s.start == Midnight(d)
    ensures ManualSchedule.Lasts(s) && !ManualSchedule.Visible(z, s)
  {
    z.SingleShows(ClockTime(d, 10), s.start);
    ClockTimeInDate(d, 10);
    assert ManualSchedule.SeatEnd(s) == s.start + Minutes(2);
  }

  // There a session from 00:10 to 00:20 lasts two and a half minutes, and the
  // bookings on it end as their date begins.
  lemma UnseenSession(db: Db, ev: Event, d: Date, req: ManualSchedule.SessionRequest) returns (after: Db, s: Session)
    requires ev.schedule == Manual && StutterOn(ev.zone, d) && db.sessions == map[]
    requires req.date == Some(d) && req.start == Some(10) && req.end == Some(20)
    ensures ManualSchedule.CreateSession(db, ev, req) == Ok((after, s))
    ensures ManualSchedule.Lasts(s) && !ManualSchedule.Visible(ev.zone, s)
  {
    StutterBounds(ev.zone, d);
    after, s := SessionIsMade(db, ev, req, Midnight(d), Midnight(d) + Seconds(150));
    StutterUnseen(ev.zone, d, s);
  }

  // One such session of one place, nobody on it, and a request for it that is
  // neither too early nor too late.
  ghost predicate OnePlaceFree(q: SlotQuery, db: Db, req: CreateRequest, s: Session) {
    && q.event.schedule == Manual && q.event.access == AccessMode.Open && StutterOn(q.event.zone, q.date)
    && db.Valid() && db.bookings == map[] && db.sessions == map[s.id := s] && s.id < db.nextId
    && s.start == Midnight(q.date) && s.end == s.start + Seconds(150) && s.capacity == 1
    && ReadsFor(q, db, q.event) && req.date == Some(q.date) && req.time == Clock(10)
    && Bookable(q, s.start)
  }

  lemma StutterSlot(q: SlotQuery, db: Db, s: Session)
    requires q.event.schedule == Manual && Reads(q, db) && db.bookings == map[]
    requires s.id in db.sessions && db.sessions[s.id] == s && s.capacity == 1
    requires q.event.zone.Single(ClockTime(q.date, 10)) == Some(s.start) && s.end == s.start + Seconds(150)
    requires BoundsOf(q.event.zone, q.date) == Some(DayBounds(s.start + Minutes(2), DayEnd(q.date) - Seconds(1050)))
    requires s.start == Midnight(q.date)
    ensures q.ManualSlot(s.start)
  {
    q.event.zone.SingleShows(ClockTime(q.date, 10), s.start);
    ClockTimeInDate(q.date, 10);
    assert s in q.sessions.value;
    CountNone(Overlapping(s), q.rows);
    assert q.Open(s);
  }

  lemma SlotIsTaken(q: SlotQuery, db: Db, req: CreateRequest, s: Session) returns (after: Db, b: Booking)
    requires ReadsFor(q, db, q.event) && Reads(q, db) && q.event.schedule == Manual && q.event.access == AccessMode.Open
    requires q.ManualSlot(s.start) && Bookable(q, s.start) && db.sessions == map[s.id := s]
    requires req.date.Some? && StartOf(q, req.time) == Some(s.start) && db.nextId !in db.bookings
    ensures SoundSessions.Booked(db, q, req, after, b, s)
  {
    SlotIsListed(q, s.start);
    ManualGuardsAgree(q, s.start, true, None);
    after, b := CreateBooking(db, q, req).value.0, CreateBooking(db, q, req).value.1;
  }

  // Its one place is given to two bookings, one after the other.
  lemma PlaceTakenTwice(q: SlotQuery, db: Db, req: CreateRequest, s: Session)
    returns (once: Db, b: Booking, twice: Db, c: Booking)
    requires OnePlaceFree(q, db, req, s)
    ensures SoundSessions.Booked(db, q, req, once, b, s) && SoundSessions.Booked(once, q, req, twice, c, s)
    ensures b.id != c.id && ManualSchedule.CountOverlap(twice, s.start, s.end) == 2 > s.capacity
  {
    StutterBounds(q.event.zone, q.date);
    StutterSlot(q, db, s);
    once, b := SlotIsTaken(q, db, req, s);
    StutterUnseen(q.event.zone, q.date, s);
    twice, c := SoundSessions.UnseenIsBookedAgain(db, q, req, once, b, s);
    assert ManualSchedule.OverlapIds(db, s.start, s.end) == {};
  }

  // ---------- A date that the batch skips ----------

  // A MANUAL event in UTC with one free session on 1970-01-01, active only
  // from the day after.
  ghost predicate TooEarly(ev: Event, db: Db) {
    && ev.schedule == Manual && Utc(ev.zone) && ev.activeStart == DAY && ev.activeEnd == 2 * DAY
    && db.Valid() && db.bookings == map[]
    && db.sessions == map[0 := Session.Session(0, Minutes(600), Minutes(660), 1, None, None)]
  }

  lemma FreeSessionListed(q: SlotQuery, db: Db, s: Session)
    requires TooEarly(q.event, db) && q.date == 0 && Reads(q, db) && s == db.sessions[0]
    ensures q.IsSlot(s.start)
  {
    UtcBounds(q.event.zone, q.date, PLAIN_DAY);
    UtcSingle(q.event.zone, s.start);
    assert s in q.sessions.value;
    CountNone(Overlapping(s), q.rows);
    assert q.Open(s);
  }

  lemma UtcPlaced(z: TimeZone, s: Session)
    requires Utc(z) && s.start == Minutes(600) && s.end == Minutes(660)
    ensures DateListing.Placed(z, s)
  {
    UtcSingle(z, s.start);
  }

  // The query for the date lists its session, the batch does not list the
  // date.
  lemma ManualDateSkipped(ev: Event, db: Db, range: DateListing.RangeReads, dates: seq<Date>, q: SlotQuery,
    list: seq<string>)
    requires TooEarly(ev, db) && DateListing.ReadsRange(range, db, ev, 0, 0)
    requires DateListing.IsDateList(dates, ev, 0, 1, range, q.now)
    requires q.event == ev && q.date == 0 && Reads(q, db) && IsSlotList(q, list)
    ensures list != [] && q.date !in dates
  {
    FreeSessionListed(q, db, db.sessions[0]);
    DateListing.EmptyMeansNoSlots(q, list);
    UtcBounds(ev.zone, q.date, PLAIN_DAY);
    UtcPlaced(ev.zone, db.sessions[0]);
    DateListing.BatchExact(range, db, ev, 0, 0, dates, q, list);
  }
}
