// How far concurrent requests can overbook a RECURRING event. Handlers read
// the day and check it first and write later; between the two, other requests
// run.
module Overbooking {
  import opened Results
  import opened Time
  import opened Models
  import opened Counting
  import opened Availability
  import opened SlotTheory
  import opened Store
  import opened Handlers
  import opened Interleaving
  import opened Runs

  // ---------- Steps ----------

  // One of the three handlers accepts the requested time.
  ghost predicate Accepts(q: SlotQuery, time: RequestedTime, kept: Option<string>, p: Placement) {
    CreateTime(q, time) == Ok(p) || RescheduleTime(q, time) == Ok(p) || UpdateTime(q, time, kept) == Ok(p)
  }

  // What the accepted request is going to write: a new booking if it came
  // through the guards of creation, new times of a booking otherwise.
  ghost predicate PassesAs(q: SlotQuery, time: RequestedTime, kept: Option<string>, p: Placement, x: Passed) {
    || (CreateTime(q, time) == Ok(p) && x == ToCreate(p.start, p.end))
    || ((RescheduleTime(q, time) == Ok(p) || UpdateTime(q, time, kept) == Ok(p)) && x.ToMove?
         && x == ToMove(x.id, p.start, p.end))
  }

  // The availability read and the time guards of a request for any date.
  ghost predicate Read(ev: Event, db: Db, q: SlotQuery, p: Placement, x: Passed) {
    && ReadsFor(q, db, ev)
    && exists time, kept: Option<string> :: PassesAs(q, time, kept, p, x)
  }

  ghost predicate ReadStep(ev: Event, k: nat, s: State, s': State, r: RequestId, q: SlotQuery, p: Placement,
    x: Passed) {
    Read(ev, s.db, q, p, x) && Enters(k, s, s', r, x)
  }

  ghost predicate Step(ev: Event, k: nat, s: State, s': State) {
    (exists r, q, p, x :: ReadStep(ev, k, s, s', r, q, p, x)) || BlindStep(k, s, s')
  }

  // ---------- Occupancy ----------

  function Config(ev: Event, overrides: seq<Override>, d: Date): SlotQuery {
    SlotQuery(ev, d, [], OverrideOn(overrides, d), None, 0)
  }

  function DayOf(zone: Zone, d: Date): DayBounds {
    var day := BoundsOf(zone, d);
    if day.Some? then day.value else DayBounds(0, 0)
  }

  predicate OnMinute(start: Instant, end: Instant, day: DayBounds, i: int) {
    Overlap(start, end, day.start + Minutes(i), day.start + Minutes(i + 1))
  }

  function MinuteOf(day: DayBounds, i: int): Place {
    (start: Instant, end: Instant) => OnMinute(start, end, day, i)
  }

  function StartDate(zone: Zone, t: Instant): Date {
    DateOf(zone.Local(t))
  }

  // What bookings of the date itself do to its minute i.
  function OwnMinute(zone: Zone, d: Date, i: int): Place {
    (start: Instant, end: Instant) => StartDate(zone, start) == d && OnMinute(start, end, DayOf(zone, d), i)
  }

  // A slot of a date on which the clock changes lasts into date d.
  ghost predicate SpillsInto(zone: Zone, start: Instant, end: Instant, d: Date) {
    !zone.Steady(StartDate(zone, start)) && StartDate(zone, start) != d && StartDate(zone, end - 1) == d
  }

  ghost function Spilled(zone: Zone, db: Db, d: Date, i: int): set<BookingId> {
    set id | id in Occupants(db, MinuteOf(DayOf(zone, d), i))
             && SpillsInto(zone, db.bookings[id].start, db.bookings[id].end, d)
  }

  // A slot of a date on which the clock changes ends on that date.
  ghost predicate Contained(zone: Zone, start: Instant, end: Instant) {
    zone.Steady(StartDate(zone, start)) || StartDate(zone, end - 1) == StartDate(zone, start)
  }

  predicate Within(w: Window, i: int) {
    w.start <= i < WindowEnd(w)
  }

  // The largest capacity of a window covering minute i, or 0.
  function PeakOf(q: SlotQuery, windows: seq<Window>, i: int): int {
    if windows == [] then 0
    else
      var w := windows[|windows| - 1];
      Max(PeakOf(q, windows[..|windows| - 1], i), if Within(w, i) then q.Capacity(w) else 0)
  }

  function Peak(ev: Event, overrides: seq<Override>, d: Date, i: int): int {
    PeakOf(Config(ev, overrides, d), Config(ev, overrides, d).Windows(), i)
  }

  lemma {:induction false} PeakAtLeast(q: SlotQuery, windows: seq<Window>, i: int)
    ensures 0 <= PeakOf(q, windows, i)
    ensures forall w :: w in windows && Within(w, i) ==> q.Capacity(w) <= PeakOf(q, windows, i)
  {
    if windows != [] {
      var n := |windows| - 1;
      PeakAtLeast(q, windows[..n], i);
      assert windows == windows[..n] + [windows[n]];
    }
  }

  // ---------- The invariant ----------

  // A start that a window of the date offers.
  ghost predicate FromWindow(ev: Event, overrides: seq<Override>, start: Instant, d: Date, w: Window, c: int) {
    && w in Config(ev, overrides, d).Windows() && Config(ev, overrides, d).Capacity(w) > 0
    && w.start <= c && c + ev.duration <= WindowEnd(w)
    && start == DayOf(ev.zone, d).start + Minutes(c)
  }

  // An interval as the handlers place it; on a steady date, one that a window
  // of the date offers.
  ghost predicate Shaped(ev: Event, overrides: seq<Override>, start: Instant, end: Instant) {
    && 0 < ev.duration <= TOTAL_MINUTES && end == start + Minutes(ev.duration)
    && (ev.zone.Steady(StartDate(ev.zone, start)) ==>
          exists w, c :: FromWindow(ev, overrides, start, StartDate(ev.zone, start), w, c))
  }

  ghost function ShapeOf(ev: Event, overrides: seq<Override>): (Instant, Instant) -> bool {
    (start: Instant, end: Instant) => Shaped(ev, overrides, start, end)
  }

  ghost predicate AllShaped(ev: Event, s: State) {
    AllTimes(ShapeOf(ev, s.db.overrides), s)
  }

  ghost predicate WithinBound(ev: Event, k: nat, s: State, d: Date, i: int) {
    Load(s, OwnMinute(ev.zone, d, i)) <= Peak(ev, s.db.overrides, d, i) + k - 1
  }

  ghost predicate Inv(ev: Event, k: nat, s: State, d: Date, i: int) {
    AllShaped(ev, s) && |s.passed| <= k && WithinBound(ev, k, s, d, i)
  }

  // The counters can tell the capacities of minute i apart, and what covers
  // 23:59 covers a minute before it.
  ghost predicate Countable(ev: Event, overrides: seq<Override>, d: Date, i: int) {
    && ev.schedule == Recurring && 0 <= i < TOTAL_MINUTES && (i == 1439 ==> ev.duration != 1)
    && forall w :: w in Config(ev, overrides, d).Windows() && Within(w, i) ==>
         Config(ev, overrides, d).Capacity(w) <= 255
  }

  // ---------- Instants of a steady date ----------

  lemma SteadyLocal(zone: Zone, d: Date, m: int)
    requires zone.Valid() && zone.Steady(d) && 0 <= m < DAY
    ensures BoundsOf(zone, d).Some? && zone.Local(DayOf(zone, d).start + m) == Midnight(d) + m
    ensures StartDate(zone, DayOf(zone, d).start + m) == d
  {
    SteadyBounds(zone, d);
    var start := DayOf(zone, d).start;
    assert Midnight(d) <= Midnight(d) + m < Midnight(d) + DAY;
    zone.SingleExact(Midnight(d) + m, start + m);
  }

  lemma ShowsSteady(zone: Zone, d: Date, u: Instant)
    requires zone.Valid() && zone.Steady(d)
    ensures StartDate(zone, u) == d <==> 0 <= u - DayOf(zone, d).start < DAY
  {
    var m := zone.Local(u) - Midnight(d);
    if 0 <= u - DayOf(zone, d).start < DAY {
      SteadyLocal(zone, d, u - DayOf(zone, d).start);
    } else if StartDate(zone, u) == d {
      assert Midnight(d) <= Midnight(d) + m < Midnight(d) + DAY;
      SteadyBounds(zone, d);
      zone.SingleExact(Midnight(d) + m, DayOf(zone, d).start + m);
    }
  }

  // A slot of at most a day that starts on another date covers a minute of a
  // steady date exactly when its last instant shows that date.
  lemma SpillExact(zone: Zone, d: Date, start: Instant, end: Instant)
    requires zone.Valid() && zone.Steady(d) && StartDate(zone, start) != d && start < end <= start + DAY
    ensures (exists i :: 0 <= i < TOTAL_MINUTES && MinuteOf(DayOf(zone, d), i)(start, end))
            <==> StartDate(zone, end - 1) == d
  {
    ShowsSteady(zone, d, start);
    ShowsSteady(zone, d, end - 1);
    if StartDate(zone, end - 1) == d {
      var i := (end - 1 - DayOf(zone, d).start) / Minutes(1);
      assert MinuteOf(DayOf(zone, d), i)(start, end);
    }
  }

  // What covers a minute of a steady date was placed on that date or spills
  // into it.
  lemma OwnOrSpilled(ev: Event, overrides: seq<Override>, start: Instant, end: Instant, d: Date, i: int)
    requires Shaped(ev, overrides, start, end) && ev.zone.Steady(d) && 0 <= i < TOTAL_MINUTES
    requires MinuteOf(DayOf(ev.zone, d), i)(start, end)
    ensures OwnMinute(ev.zone, d, i)(start, end) || SpillsInto(ev.zone, start, end, d)
  {
    var e := StartDate(ev.zone, start);
    if e != d {
      assert start < end <= start + DAY;
      SpillExact(ev.zone, d, start, end);
      if ev.zone.Steady(e) {
        var w, c :| FromWindow(ev, overrides, start, e, w, c);
        ShowsSteady(ev.zone, e, start);
        ShowsSteady(ev.zone, e, end - 1);
      }
    }
  }

  lemma OwnWindow(ev: Event, overrides: seq<Override>, start: Instant, end: Instant, d: Date, i: int)
    returns (w: Window, c: int)
    requires Shaped(ev, overrides, start, end) && ev.zone.Steady(d) && OwnMinute(ev.zone, d, i)(start, end)
    ensures FromWindow(ev, overrides, start, d, w, c) && c <= i < c + ev.duration
  {
    w, c :| FromWindow(ev, overrides, start, d, w, c);
    MinutesOverlap(DayOf(ev.zone, d).start, c, ev.duration, i);
  }

  lemma MinutesOverlap(start: Instant, c: int, n: int, i: int)
    requires Overlap(start + Minutes(c), start + Minutes(c) + Minutes(n), start + Minutes(i), start + Minutes(i + 1))
    ensures c <= i < c + n
  {
  }

  // ---------- What a read has seen ----------

  lemma OnGridCounts(b: Booking, day: DayBounds, c: int, n: int, i: int)
    requires day.start % SECOND == 0 && day.end == day.start + Seconds(86_399) && 0 <= i < 1439
    requires b.start == day.start + Minutes(c) && b.end == b.start + Minutes(n) && c <= i < c + n
    ensures Overlap(b.start, b.end, day.start, day.end) && Counts(b, day, i)
  {
    AlignedCounts(b, day, i);
  }

  // The counter that shows who is on minute i: its own, but for 23:59.
  function Shown(i: int): int {
    Min(i, 1438)
  }

  // A booking on a minute of its date is read and counted.
  lemma OccupantCounts(ev: Event, overrides: seq<Override>, b: Booking, d: Date, i: int)
    requires Shaped(ev, overrides, b.start, b.end) && ev.zone.Steady(d) && Countable(ev, overrides, d, i)
    requires OwnMinute(ev.zone, d, i)(b.start, b.end)
    ensures var day := DayOf(ev.zone, d); Overlap(b.start, b.end, day.start, day.end) && Counts(b, day, Shown(i))
  {
    var w, c := OwnWindow(ev, overrides, b.start, b.end, d, i);
    SteadyLength(ev.zone, d);
    OnGridCounts(b, DayOf(ev.zone, d), c, ev.duration, Shown(i));
  }

  lemma CountedAtLeast(db: Db, rows: seq<Booking>, day: DayBounds, place: Place, j: int)
    requires IsListing(rows, db.bookings, day.start, day.end) && RowsKeyed(db)
    requires forall id :: id in Occupants(db, place) ==>
               Overlap(db.bookings[id].start, db.bookings[id].end, day.start, day.end)
                 && Counts(db.bookings[id], day, j)
    ensures |Occupants(db, place)| <= Busy(rows, day, j)
  {
    CountListing(CountsAt(day, j), rows, db.bookings, day.start, day.end);
    SubsetSize(Occupants(db, place), ListedIds(CountsAt(day, j), db.bookings, day.start, day.end));
  }

  lemma OccupantsAreCounted(ev: Event, s: State, rows: seq<Booking>, d: Date, i: int)
    requires AllShaped(ev, s) && ev.zone.Steady(d) && Countable(ev, s.db.overrides, d, i)
    requires IsListing(rows, s.db.bookings, DayOf(ev.zone, d).start, DayOf(ev.zone, d).end)
    ensures |Occupants(s.db, OwnMinute(ev.zone, d, i))| <= Busy(rows, DayOf(ev.zone, d), Shown(i))
  {
    var day, place := DayOf(ev.zone, d), OwnMinute(ev.zone, d, i);
    forall id | id in Occupants(s.db, place)
      ensures Overlap(s.db.bookings[id].start, s.db.bookings[id].end, day.start, day.end)
                && Counts(s.db.bookings[id], day, Shown(i))
    {
      OccupantCounts(ev, s.db.overrides, s.db.bookings[id], d, i);
    }
    CountedAtLeast(s.db, rows, day, place, Shown(i));
  }

  // A slot that is offered on a steady date lies, for each of its minutes, in
  // a window with more places than there are bookings of the date.
  lemma ReadSeesRoom(ev: Event, s: State, q: SlotQuery, t: Instant, i: int) returns (w: Window, c: int)
    requires AllShaped(ev, s) && Countable(ev, s.db.overrides, q.date, i) && ev.zone.Steady(q.date)
    requires q.event == ev && Reads(q, s.db) && q.RecurringSlot(t)
    requires MinuteOf(DayOf(ev.zone, q.date), i)(t, t + Minutes(ev.duration))
    ensures FromWindow(ev, s.db.overrides, t, q.date, w, c) && c <= i < c + ev.duration
    ensures |Occupants(s.db, OwnMinute(ev.zone, q.date, i))| < Config(ev, s.db.overrides, q.date).Capacity(w)
    ensures Config(ev, s.db.overrides, q.date).Capacity(w) <= Peak(ev, s.db.overrides, q.date, i)
  {
    var day := DayOf(ev.zone, q.date);
    var k: nat;
    w, k :| w in q.Windows() && q.Offers(day, w, k, t);
    c := q.Cursor(w, k);
    OfferedFromWindow(ev, s.db, q, day, w, k, t);
    MinutesOverlap(day.start, c, ev.duration, i);
    CounterBelow(ev, s.db, q, day, w, k, t, i);
    OccupantsAreCounted(ev, s, q.rows, q.date, i);
    PeakAtLeast(Config(ev, s.db.overrides, q.date), Config(ev, s.db.overrides, q.date).Windows(), i);
  }

  lemma CounterBelow(ev: Event, db: Db, q: SlotQuery, day: DayBounds, w: Window, k: nat, t: Instant, i: int)
    requires Countable(ev, db.overrides, q.date, i) && q.event == ev && Reads(q, db)
    requires w in q.Windows() && q.Offers(day, w, k, t) && q.Cursor(w, k) >= w.start
    requires q.Cursor(w, k) <= i < q.Cursor(w, k) + ev.duration
    ensures w in Config(ev, db.overrides, q.date).Windows() && Within(w, i)
    ensures Busy(q.rows, day, Shown(i)) < Config(ev, db.overrides, q.date).Capacity(w)
  {
    SameConfig(q, db, w);
    assert Saturated(Busy(q.rows, day, Shown(i))) < q.Capacity(w) <= 255;
  }

  lemma OfferedFromWindow(ev: Event, db: Db, q: SlotQuery, day: DayBounds, w: Window, k: nat, t: Instant)
    requires q.event == ev && ev.schedule == Recurring && ev.zone.Steady(q.date) && ev.duration > 0
    requires Reads(q, db) && day == DayOf(ev.zone, q.date)
    requires w in q.Windows() && q.Offers(day, w, k, t)
    ensures FromWindow(ev, db.overrides, t, q.date, w, q.Cursor(w, k))
  {
    var c := q.Cursor(w, k);
    assert 0 <= w.start <= c by { assert k * ev.interval >= 0; }
    SteadyBounds(ev.zone, q.date);
    SameConfig(q, db, w);
    assert Saturated(Busy(q.rows, day, c)) < q.Capacity(w);
  }

  lemma SameConfig(q: SlotQuery, db: Db, w: Window)
    requires Reads(q, db) && q.event.schedule == Recurring
    ensures var config := Config(q.event, db.overrides, q.date);
            config.Windows() == q.Windows() && config.Capacity(w) == q.Capacity(w)
  {
  }

  lemma SlotIsShaped(ev: Event, db: Db, q: SlotQuery, t: Instant)
    requires q.event == ev && ev.schedule == Recurring && Reads(q, db) && q.RecurringSlot(t)
    ensures StartDate(ev.zone, t) == q.date && Shaped(ev, db.overrides, t, t + Minutes(ev.duration))
  {
    var day := DayOf(ev.zone, q.date);
    var w, k: nat :| w in q.Windows() && q.Offers(day, w, k, t);
    assert q.Cursor(w, k) >= 0 by { assert k * ev.interval >= 0; }
    SlotOnDate(q, t);
    if ev.zone.Steady(q.date) {
      OfferedFromWindow(ev, db, q, day, w, k, t);
    }
  }

  // A handler's acceptance is slot membership.
  lemma AcceptedIsSlot(q: SlotQuery, time: RequestedTime, kept: Option<string>, p: Placement)
    requires q.event.schedule == Recurring && q.sessions == None && Accepts(q, time, kept, p)
    ensures q.RecurringSlot(p.start) && p.end == p.start + Minutes(q.event.duration)
  {
    var start := StartOf(q, time).value;
    ListedExact(q, start);
    SlotPassesGuards(q, start);
  }

  // An accepted request has read the day.
  lemma AcceptedHasRead(q: SlotQuery, db: Db, ev: Event, time: RequestedTime, kept: Option<string>, p: Placement)
    requires ev.schedule == Recurring && ReadsFor(q, db, ev) && Accepts(q, time, kept, p)
    ensures Reads(q, db) && q.sessions == None
  {
  }

  // ---------- Preservation ----------

  lemma PassedAccepts(q: SlotQuery, time: RequestedTime, kept: Option<string>, p: Placement, x: Passed)
    requires PassesAs(q, time, kept, p, x)
    ensures Accepts(q, time, kept, p) && x.start == p.start && x.end == p.end
  {
  }

  lemma ReadIsSlot(ev: Event, db: Db, q: SlotQuery, p: Placement, x: Passed)
    requires ev.schedule == Recurring && Read(ev, db, q, p, x)
    ensures q.event == ev && Reads(q, db) && q.RecurringSlot(x.start) && x.end == x.start + Minutes(ev.duration)
  {
    var time, kept: Option<string> :| PassesAs(q, time, kept, p, x);
    PassedAccepts(q, time, kept, p, x);
    AcceptedHasRead(q, db, ev, time, kept, p);
    AcceptedIsSlot(q, time, kept, p);
  }

  // A request joins a minute of its own date only if there is room.
  lemma ReadKeepsInv(ev: Event, k: nat, s: State, s': State, r: RequestId, q: SlotQuery, p: Placement, x: Passed,
      d: Date, i: int)
    requires Inv(ev, k, s, d, i) && ev.zone.Steady(d) && Countable(ev, s.db.overrides, d, i)
    requires ReadStep(ev, k, s, s', r, q, p, x)
    ensures Inv(ev, k, s', d, i)
  {
    ReadIsSlot(ev, s.db, q, p, x);
    SlotIsShaped(ev, s.db, q, x.start);
    EnterTimes(ShapeOf(ev, s.db.overrides), k, s, s', r, x);
    EnterSize(k, s, s', r, x);
    if OwnMinute(ev.zone, d, i)(x.start, x.end) {
      var w, c := ReadSeesRoom(ev, s, q, x.start, i);
    }
    PassKeepsBound(k, s, s', r, x, OwnMinute(ev.zone, d, i), Peak(ev, s.db.overrides, d, i));
  }

  lemma BlindKeepsInv(ev: Event, k: nat, s: State, s': State, d: Date, i: int)
    requires Inv(ev, k, s, d, i) && BlindStep(k, s, s')
    ensures Inv(ev, k, s', d, i) && s'.db.overrides == s.db.overrides
  {
    BlindKeeps(k, ShapeOf(ev, s.db.overrides), s, s');
    assert Load(s', OwnMinute(ev.zone, d, i)) <= Load(s, OwnMinute(ev.zone, d, i));
  }

  lemma StepKeepsInv(ev: Event, k: nat, s: State, s': State, d: Date, i: int)
    requires Inv(ev, k, s, d, i) && ev.zone.Steady(d) && Countable(ev, s.db.overrides, d, i) && Step(ev, k, s, s')
    ensures Inv(ev, k, s', d, i) && s'.db.overrides == s.db.overrides
  {
    if r, q, p, x :| ReadStep(ev, k, s, s', r, q, p, x) {
      ReadKeepsInv(ev, k, s, s', r, q, p, x, d, i);
    } else {
      BlindKeepsInv(ev, k, s, s', d, i);
    }
  }

  // ---------- Runs ----------

  ghost predicate Run(ev: Event, k: nat, run: seq<State>) {
    run != [] && Start(run[0]) && Chain(StepOf(ev, k), run)
  }

  // Nobody waits and no booking is live.
  ghost predicate Start(s: State) {
    s.passed == map[] && RowsKeyed(s.db) && forall id :: id in s.db.bookings ==> !Live(s.db.bookings[id])
  }

  ghost function StepOf(ev: Event, k: nat): (State, State) -> bool {
    (s: State, s': State) => Step(ev, k, s, s')
  }

  lemma StartHasInv(ev: Event, k: nat, s: State, d: Date, i: int)
    requires k >= 1 && Start(s)
    ensures Inv(ev, k, s, d, i)
  {
    var place, config := OwnMinute(ev.zone, d, i), Config(ev, s.db.overrides, d);
    LoadAtMost(s, place);
    assert Occupants(s.db, place) == {};
    PeakAtLeast(config, config.Windows(), i);
  }

  lemma {:induction false} RunKeepsInv(ev: Event, k: nat, run: seq<State>, n: nat, d: Date, i: int)
    requires k >= 1 && Run(ev, k, run) && n < |run|
    requires ev.zone.Steady(d) && Countable(ev, run[0].db.overrides, d, i)
    ensures Inv(ev, k, run[n], d, i) && run[n].db.overrides == run[0].db.overrides
  {
    if n == 0 {
      StartHasInv(ev, k, run[0], d, i);
    } else {
      RunKeepsInv(ev, k, run, n - 1, d, i);
      assert StepOf(ev, k)(run[n - 1], run[n]);
      StepKeepsInv(ev, k, run[n - 1], run[n], d, i);
    }
  }

  // What k requests at once may make of a minute with that many places.
  function Bound(peak: int, k: nat): int {
    if peak == 0 then 0 else peak + k - 1
  }

  // With at most k requests between their read and their write, whatever
  // dates they are for, no minute of a steady date ever holds more than k - 1
  // bookings above the largest capacity of a window covering it, and a minute
  // outside all windows with room holds none; but for bookings that spill
  // into the date from one on which the clock changes.
  lemma OverbookingBound(ev: Event, k: nat, run: seq<State>, n: nat, d: Date, i: int)
    requires k >= 1 && Run(ev, k, run) && n < |run|
    requires ev.zone.Steady(d) && Countable(ev, run[0].db.overrides, d, i)
    ensures |Occupants(run[n].db, MinuteOf(DayOf(ev.zone, d), i))|
            <= Bound(Peak(ev, run[0].db.overrides, d, i), k) + |Spilled(ev.zone, run[n].db, d, i)|
  {
    RunKeepsInv(ev, k, run, n, d, i);
    InvBounds(ev, k, run[n], d, i);
  }

  lemma InvBounds(ev: Event, k: nat, s: State, d: Date, i: int)
    requires Inv(ev, k, s, d, i) && ev.zone.Steady(d) && 0 <= i < TOTAL_MINUTES
    ensures |Occupants(s.db, MinuteOf(DayOf(ev.zone, d), i))|
            <= Bound(Peak(ev, s.db.overrides, d, i), k) + |Spilled(ev.zone, s.db, d, i)|
  {
    OccupantsHold(s, OwnMinute(ev.zone, d, i));
    if Peak(ev, s.db.overrides, d, i) == 0 {
      ClosedStaysFree(ev, s, d, i);
    }
    OccupantsSplit(ev, s, d, i);
  }

  lemma OccupantsSplit(ev: Event, s: State, d: Date, i: int)
    requires AllShaped(ev, s) && ev.zone.Steady(d) && 0 <= i < TOTAL_MINUTES
    ensures |Occupants(s.db, MinuteOf(DayOf(ev.zone, d), i))|
            <= |Occupants(s.db, OwnMinute(ev.zone, d, i))| + |Spilled(ev.zone, s.db, d, i)|
  {
    var all, own := Occupants(s.db, MinuteOf(DayOf(ev.zone, d), i)), Occupants(s.db, OwnMinute(ev.zone, d, i));
    var spilled := Spilled(ev.zone, s.db, d, i);
    forall id | id in all ensures id in own || id in spilled {
      OwnOrSpilled(ev, s.db.overrides, s.db.bookings[id].start, s.db.bookings[id].end, d, i);
    }
    SubsetSize(all, own + spilled);
    assert |own + spilled| <= |own| + |spilled|;
  }

  lemma ClosedStaysFree(ev: Event, s: State, d: Date, i: int)
    requires AllShaped(ev, s) && ev.zone.Steady(d) && Peak(ev, s.db.overrides, d, i) == 0
    ensures |Occupants(s.db, OwnMinute(ev.zone, d, i))| == 0
  {
    var config := Config(ev, s.db.overrides, d);
    PeakAtLeast(config, config.Windows(), i);
    if id :| id in Occupants(s.db, OwnMinute(ev.zone, d, i)) {
      var w, c := OwnWindow(ev, s.db.overrides, s.db.bookings[id].start, s.db.bookings[id].end, d, i);
      assert Within(w, i);
    }
  }

  // Serial requests never exceed capacity.
  lemma SerialRunsRespectCapacity(ev: Event, run: seq<State>, n: nat, d: Date, i: int)
    requires Run(ev, 1, run) && n < |run|
    requires ev.zone.Steady(d) && Countable(ev, run[0].db.overrides, d, i)
    ensures |Occupants(run[n].db, MinuteOf(DayOf(ev.zone, d), i))|
            <= Peak(ev, run[0].db.overrides, d, i) + |Spilled(ev.zone, run[n].db, d, i)|
  {
    OverbookingBound(ev, 1, run, n, d, i);
  }

  // ---------- Runs in which nothing spills ----------

  ghost predicate ContainedRead(ev: Event, k: nat, s: State, s': State, r: RequestId, q: SlotQuery, p: Placement,
    x: Passed) {
    ReadStep(ev, k, s, s', r, q, p, x) && Contained(ev.zone, x.start, x.end)
  }

  // Accepted slots of a date on which the clock changes end on that date.
  ghost predicate ContainedStep(ev: Event, k: nat, s: State, s': State) {
    (exists r, q, p, x :: ContainedRead(ev, k, s, s', r, q, p, x)) || BlindStep(k, s, s')
  }

  ghost function ContainedStepOf(ev: Event, k: nat): (State, State) -> bool {
    (s: State, s': State) => ContainedStep(ev, k, s, s')
  }

  ghost function ContainedOf(zone: Zone): (Instant, Instant) -> bool {
    (start: Instant, end: Instant) => Contained(zone, start, end)
  }

  ghost predicate ContainedRun(ev: Event, k: nat, run: seq<State>) {
    run != [] && Start(run[0]) && Chain(ContainedStepOf(ev, k), run)
  }

  lemma ContainedIsStep(ev: Event, k: nat, s: State, s': State)
    requires ContainedStep(ev, k, s, s')
    ensures Step(ev, k, s, s')
  {
    if r, q, p, x :| ContainedRead(ev, k, s, s', r, q, p, x) {
      assert ReadStep(ev, k, s, s', r, q, p, x);
    }
  }

  lemma ContainedIsRun(ev: Event, k: nat, run: seq<State>)
    requires ContainedRun(ev, k, run)
    ensures Run(ev, k, run)
  {
    forall n | 0 <= n < |run| - 1 ensures StepOf(ev, k)(run[n], run[n + 1]) {
      assert ContainedStepOf(ev, k)(run[n], run[n + 1]);
      ContainedIsStep(ev, k, run[n], run[n + 1]);
    }
  }

  lemma ContainedStepKeeps(ev: Event, k: nat, s: State, s': State)
    requires AllTimes(ContainedOf(ev.zone), s) && |s.passed| <= k && ContainedStep(ev, k, s, s')
    ensures AllTimes(ContainedOf(ev.zone), s') && |s'.passed| <= k
  {
    if r, q, p, x :| ContainedRead(ev, k, s, s', r, q, p, x) {
      EnterTimes(ContainedOf(ev.zone), k, s, s', r, x);
      EnterSize(k, s, s', r, x);
    } else {
      BlindKeeps(k, ContainedOf(ev.zone), s, s');
    }
  }

  lemma {:induction false} StaysContained(ev: Event, k: nat, run: seq<State>, n: nat)
    requires ContainedRun(ev, k, run) && n < |run|
    ensures AllTimes(ContainedOf(ev.zone), run[n]) && |run[n].passed| <= k
  {
    if n > 0 {
      StaysContained(ev, k, run, n - 1);
      assert ContainedStepOf(ev, k)(run[n - 1], run[n]);
      ContainedStepKeeps(ev, k, run[n - 1], run[n]);
    }
  }

  lemma NothingSpills(zone: Zone, db: Db, d: Date, i: int)
    requires forall id :: id in db.bookings && Live(db.bookings[id]) ==>
               Contained(zone, db.bookings[id].start, db.bookings[id].end)
    ensures |Spilled(zone, db, d, i)| == 0
  {
    assert Spilled(zone, db, d, i) == {};
  }

  // Where accepted slots end on their date, the bound holds of all bookings.
  lemma ContainedRunBound(ev: Event, k: nat, run: seq<State>, n: nat, d: Date, i: int)
    requires k >= 1 && ContainedRun(ev, k, run) && n < |run|
    requires ev.zone.Steady(d) && Countable(ev, run[0].db.overrides, d, i)
    ensures |Occupants(run[n].db, MinuteOf(DayOf(ev.zone, d), i))| <= Bound(Peak(ev, run[0].db.overrides, d, i), k)
  {
    ContainedIsRun(ev, k, run);
    OverbookingBound(ev, k, run, n, d, i);
    StaysContained(ev, k, run, n);
    NothingSpills(ev.zone, run[n].db, d, i);
  }
}
