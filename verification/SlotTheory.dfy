// What the slot computation means.
module SlotTheory {
  import opened Results
  import opened Time
  import opened Models
  import opened Counting
  import opened Rfc3339
  import opened Sorting
  import opened Availability

  // ---------- The minute counters ----------

  lemma WholeMinutes(day: DayBounds, t: Instant, n: int)
    requires day.start % SECOND == 0 && day.start <= t && 0 <= n <= TOTAL_MINUTES
    ensures n <= MinuteIndex(t, day) <==> day.start + Minutes(n) <= t
  {
    var q := day.start / SECOND;
    var s := t / SECOND;
    assert t == SECOND * s + t % SECOND && day.start == SECOND * q;
    assert (s - q) / 60 >= n <==> s - q >= 60 * n;
  }

  // A booking counts towards minute i when it has started before the minute
  // ends and lasts at least until then, within the clipped day.
  lemma CountsMeaning(b: Booking, day: DayBounds, i: int)
    requires day.start % SECOND == 0 && 0 <= i < TOTAL_MINUTES
    ensures Counts(b, day, i) <==> b.start < day.start + Minutes(i + 1) <= Min(b.end, day.end)
  {
    var s, e := Max(b.start, day.start), Min(b.end, day.end);
    WholeMinutes(day, s, i + 1);
    if day.start <= e {
      WholeMinutes(day, e, i + 1);
    }
  }

  predicate Covers(b: Booking, day: DayBounds, i: int) {
    Overlap(b.start, b.end, day.start + Minutes(i), day.start + Minutes(i + 1))
  }

  function CoversAt(day: DayBounds, i: int): Booking -> bool {
    (b: Booking) => Covers(b, day, i)
  }

  // The bookings that cover minute i; 23:59 counts as free.
  function Crowd(q: SlotQuery, day: DayBounds, i: int): nat {
    if i < 1439 then Count(CoversAt(day, i), q.rows) else 0
  }

  // Start and end lie on the minute grid of the day.
  predicate Aligned(b: Booking, day: DayBounds) {
    (b.start - day.start) % Minutes(1) == 0 && (b.end - day.start) % Minutes(1) == 0
  }

  // On a 24-hour day, an aligned booking counts towards exactly the minutes it
  // covers, except the last one.
  lemma AlignedCounts(b: Booking, day: DayBounds, i: int)
    requires day.start % SECOND == 0 && day.end == day.start + Seconds(86_399) && 0 <= i < TOTAL_MINUTES
    requires Aligned(b, day)
    ensures Counts(b, day, i) <==> i < 1439 && Covers(b, day, i)
  {
    CountsMeaning(b, day, i);
    var m := Minutes(1);
    var s, e := (b.start - day.start) / m, (b.end - day.start) / m;
    assert b.start == day.start + Minutes(s) && b.end == day.start + Minutes(e);
  }

  lemma AlignedBusy(q: SlotQuery, day: DayBounds, i: int)
    requires day.start % SECOND == 0 && day.end == day.start + Seconds(86_399) && 0 <= i < TOTAL_MINUTES
    requires forall b :: b in q.rows ==> Aligned(b, day)
    ensures Busy(q.rows, day, i) == Crowd(q, day, i)
  {
    forall b | b in q.rows ensures Counts(b, day, i) <==> i < 1439 && Covers(b, day, i) {
      AlignedCounts(b, day, i);
    }
    if i < 1439 {
      CountImplies(CountsAt(day, i), CoversAt(day, i), q.rows);
      CountImplies(CoversAt(day, i), CountsAt(day, i), q.rows);
    } else {
      CountNone(CountsAt(day, i), q.rows);
    }
  }

  lemma {:induction false} CountNone<T>(p: T -> bool, s: seq<T>)
    requires forall x :: x in s ==> !p(x)
    ensures Count(p, s) == 0
  {
    if s != [] {
      CountNone(p, s[..|s| - 1]);
    }
  }

  // ---------- The interval definition ----------

  // Some booking of positive length that meets the day starts before t.
  ghost predicate DayOpened(q: SlotQuery, day: DayBounds, t: Instant) {
    exists b :: b in q.rows && b.start < b.end && Overlap(b.start, b.end, day.start, day.end) && b.start < t
  }

  // The slot at t starts c minutes into the day and fits window w.
  ghost predicate FitsWindow(q: SlotQuery, w: Window, k: nat, c: int) {
    c == w.start + k * q.event.interval && c + q.event.duration <= WindowEnd(w)
  }

  // Every minute of the slot is covered by fewer bookings than the capacity;
  // a capacity above 255 is never reached.
  ghost predicate Uncrowded(q: SlotQuery, day: DayBounds, w: Window, c: int) {
    forall i :: c <= i < c + q.event.duration ==> q.Capacity(w) > 255 || Crowd(q, day, i) < q.Capacity(w)
  }

  ghost predicate InTime(q: SlotQuery, day: DayBounds, t: Instant) {
    && t > q.now + Minutes(if DayOpened(q, day, t) then q.event.noticeGeneral else q.event.noticeFirst)
    && q.event.activeStart <= t
    && t + Minutes(q.event.duration) <= q.event.activeEnd
  }

  ghost predicate IntervalSlot(q: SlotQuery, day: DayBounds, t: Instant) {
    exists w, k: nat, c :: w in q.Windows() && FitsWindow(q, w, k, c)
      && t == day.start + Minutes(c) && Uncrowded(q, day, w, c) && InTime(q, day, t)
  }

  lemma SteadyBounds(zone: Zone, d: Date)
    requires zone.Valid() && zone.Steady(d)
    ensures BoundsOf(zone, d).Some?
    ensures var day := BoundsOf(zone, d).value;
            && day.start % SECOND == 0 && day.end == day.start + Seconds(86_399)
            && forall c :: 0 <= c < 1440 ==> zone.Single(ClockTime(d, c)) == Some(day.start + Minutes(c))
  {
    var start := zone.Single(Midnight(d)).value;
    assert zone.Single(DayEnd(d)) == Some(start + Seconds(86_399));
    WholeSecond(zone, d, 0, start);
    forall c | 0 <= c < 1440 ensures zone.Single(ClockTime(d, c)) == Some(start + Minutes(c)) {
      assert Midnight(d) <= ClockTime(d, c) < Midnight(d) + DAY;
    }
  }

  lemma SteadyLength(zone: Zone, d: Date)
    requires zone.Valid() && zone.Steady(d)
    ensures BoundsOf(zone, d).Some?
    ensures var day := BoundsOf(zone, d).value; day.start % SECOND == 0 && day.end == day.start + Seconds(86_399)
  {
    SteadyBounds(zone, d);
  }

  // Offsets are whole seconds, so whole minutes on the clock are whole
  // seconds of UTC.
  lemma WholeSecond(zone: Zone, d: Date, c: int, u: Instant)
    requires zone.Valid() && zone.Single(ClockTime(d, c)) == Some(u)
    ensures u % SECOND == 0
  {
    zone.SingleShows(ClockTime(d, c), u);
    var i := zone.SegmentOf(u);
    assert zone.Offset(i) % SECOND == 0;
    WholeSeconds(u, zone.Offset(i), d, c);
  }

  lemma WholeSeconds(u: Instant, offset: int, d: Date, c: int)
    requires u + offset == ClockTime(d, c) && offset % SECOND == 0
    ensures u % SECOND == 0
  {
    assert offset == SECOND * (offset / SECOND);
    assert u == SECOND * (86_400 * d + 60 * c - offset / SECOND);
  }

  lemma RoomIsUncrowded(q: SlotQuery, day: DayBounds, w: Window, c: int)
    requires day.start % SECOND == 0 && day.end == day.start + Seconds(86_399)
    requires forall b :: b in q.rows ==> Aligned(b, day)
    requires q.event.duration > 0 && 0 <= c && c + q.event.duration <= 1440
    ensures q.HasRoom(day, c, q.Capacity(w)) <==> Uncrowded(q, day, w, c)
  {
    forall i | 0 <= i < 1440 ensures Busy(q.rows, day, i) == Crowd(q, day, i) {
      AlignedBusy(q, day, i);
    }
  }

  lemma TouchesMeaning(q: SlotQuery, day: DayBounds, t: Instant)
    requires day.start < day.end
    ensures FollowsABooking(q.rows, day, t) <==> DayOpened(q, day, t)
  {
    forall b ensures Touches(b, day) <==> b.start < b.end && Overlap(b.start, b.end, day.start, day.end) {}
  }

  // The minute-counter form offers exactly the slots of the interval
  // definition on every steady day.
  lemma SlotsExact(q: SlotQuery, t: Instant)
    requires q.event.schedule == Recurring && q.event.duration > 0 && q.event.interval > 0
    requires q.event.zone.Steady(q.date)
    requires forall b :: b in q.rows ==> Aligned(b, BoundsOf(q.event.zone, q.date).value)
    ensures !q.Panics()
    ensures q.IsSlot(t) <==> !q.Unavailable() && IntervalSlot(q, BoundsOf(q.event.zone, q.date).value, t)
  {
    SteadyBounds(q.event.zone, q.date);
    var day := BoundsOf(q.event.zone, q.date).value;
    TouchesMeaning(q, day, t);
    forall w, k: nat ensures q.Offers(day, w, k, t) <==>
      FitsWindow(q, w, k, q.Cursor(w, k)) && t == day.start + Minutes(q.Cursor(w, k))
      && Uncrowded(q, day, w, q.Cursor(w, k)) && InTime(q, day, t)
    {
      OffersExact(q, day, w, k, t);
    }
    if IntervalSlot(q, day, t) {
      var w, k: nat, c :| w in q.Windows() && FitsWindow(q, w, k, c)
        && t == day.start + Minutes(c) && Uncrowded(q, day, w, c) && InTime(q, day, t);
      assert c == q.Cursor(w, k) && q.Offers(day, w, k, t);
    }
    if q.OfferedIn(day, q.Windows(), t) {
      var w, k: nat :| w in q.Windows() && q.Offers(day, w, k, t);
      assert FitsWindow(q, w, k, q.Cursor(w, k));
    }
  }

  lemma OffersExact(q: SlotQuery, day: DayBounds, w: Window, k: nat, t: Instant)
    requires q.event.duration > 0 && q.event.interval > 0
    requires day.start % SECOND == 0 && day.end == day.start + Seconds(86_399)
    requires forall c :: 0 <= c < 1440 ==> q.event.zone.Single(ClockTime(q.date, c)) == Some(day.start + Minutes(c))
    requires forall b :: b in q.rows ==> Aligned(b, day)
    ensures q.Offers(day, w, k, t) <==>
              FitsWindow(q, w, k, q.Cursor(w, k)) && t == day.start + Minutes(q.Cursor(w, k))
              && Uncrowded(q, day, w, q.Cursor(w, k)) && InTime(q, day, t)
  {
    var c := q.Cursor(w, k);
    assert c >= 0 by { assert k * q.event.interval >= 0; }
    TouchesMeaning(q, day, t);
    if c + q.event.duration <= WindowEnd(w) {
      RoomIsUncrowded(q, day, w, c);
    }
  }

  // Which setting decides: the window before the override before the event
  // for the capacity, the override before the event for the windows; and a
  // window until 23:59 lasts until midnight, so that days join.
  lemma SettingsOrder(q: SlotQuery, w: Window, ev: Event, rule: Option<Override>)
    ensures w.capacity.Some? ==> q.(event := ev, rule := rule).Capacity(w) == q.Capacity(w) == w.capacity.value
    ensures w.capacity.None? && q.rule.Some? && q.rule.value.capacity.Some? ==>
              q.(event := ev).Capacity(w) == q.Capacity(w) == q.rule.value.capacity.value
    ensures w.capacity.None? && q.rule.Some? && q.rule.value.capacity.None? ==>
              q.Capacity(w) == q.(rule := None).Capacity(w)
    ensures q.rule.Some? && q.rule.value.config.Some? ==>
              q.(event := ev).Windows() == q.Windows() == q.rule.value.config.value.On(q.date)
    ensures q.rule.Some? && q.rule.value.config.None? ==>
              q.Windows() == q.(rule := None).Windows() == q.event.config.On(q.date)
    ensures ClockTime(q.date, WindowEnd(w.(end := 1439))) == Midnight(q.date + 1)
    ensures w.end < 1439 ==> WindowEnd(w) == w.end
  {
  }

  lemma ClockTimeInDate(d: Date, m: ClockMinute)
    ensures DateOf(ClockTime(d, m)) == d && ClockTime(d, m) < DayEnd(d)
    ensures m > 0 ==> Midnight(d) < ClockTime(d, m)
  {
    assert 0 <= Minutes(m) < DAY;
  }

  // In a regular zone a clock minute of a date lies between its bounds.
  lemma StartsInDate(zone: TimeZone, d: Date, m: ClockMinute, t: Instant)
    requires zone.Regular() && zone.Single(ClockTime(d, m)) == Some(t)
    ensures DateOf(zone.Local(t)) == d && zone.Local(t) == ClockTime(d, m)
    ensures BoundsOf(zone, d).Some? ==> BoundsOf(zone, d).value.start <= t < BoundsOf(zone, d).value.end
  {
    zone.SingleShows(ClockTime(d, m), t);
    ClockTimeInDate(d, m);
    if BoundsOf(zone, d).Some? {
      zone.OrderKept(ClockTime(d, m), DayEnd(d));
      if m > 0 {
        zone.OrderKept(Midnight(d), ClockTime(d, m));
      }
    }
  }

  // ---------- The result as a list of strings ----------

  // A date whose instants all lie in the years RFC 3339 covers.
  predicate Served(d: Date) {
    0 < d + EPOCH_DAY && YearAndDay(d + 1).0 <= 9999
  }

  lemma SlotOnDate(q: SlotQuery, u: Instant)
    requires q.IsSlot(u)
    ensures DateOf(q.event.zone.Local(u)) == q.date
  {
    if q.event.schedule != Manual {
      var day := BoundsOf(q.event.zone, q.date).value;
      var w, k: nat :| w in q.Windows() && q.Offers(day, w, k, u);
      var c := q.Cursor(w, k);
      assert 0 <= c < 1440 by { assert k * q.event.interval >= 0; }
      q.event.zone.SingleExact(ClockTime(q.date, c), u);
    }
  }

  lemma OnServedDate(zone: Zone, d: Date, u: Instant)
    requires zone.Valid() && Served(d) && DateOf(zone.Local(u)) == d
    ensures InRfc3339Years(u)
  {
    assert -DAY < zone.Offset(zone.SegmentOf(u)) < DAY;
    assert d - 1 <= DateOf(u) <= d + 1;
    if DateOf(u) < d + 1 {
      YearOrder(0, DateOf(u) + EPOCH_DAY, d + 1 + EPOCH_DAY);
    }
  }

  lemma SlotIsServed(q: SlotQuery, u: Instant)
    requires Served(q.date) && q.IsSlot(u)
    ensures InRfc3339Years(u)
  {
    SlotOnDate(q, u);
    OnServedDate(q.event.zone, q.date, u);
  }

  // `contains` on the list is equality of instants.
  lemma ContainsIsMembership(q: SlotQuery, list: seq<string>, t: Instant)
    requires IsSlotList(q, list)
    ensures ToRfc3339(t) in list <==> q.IsSlot(t)
  {
    if ToRfc3339(t) in list {
      var u :| q.IsSlot(u) && ToRfc3339(t) == ToRfc3339(u);
      TextIdentifies(t, u);
    }
  }

  // Position in the list is position in time.
  lemma ListIsChronological(q: SlotQuery, list: seq<string>, t: Instant, u: Instant, i: nat, j: nat)
    requires IsSlotList(q, list) && InRfc3339Years(t) && InRfc3339Years(u)
    requires i < |list| && j < |list| && list[i] == ToRfc3339(t) && list[j] == ToRfc3339(u)
    ensures i < j <==> t < u
  {
    StringOrderIsTimeOrder(t, u);
    BeforeTotal(list[i], list[j]);
  }

  // ---------- Independence of the row order ----------

  ghost predicate SameCounts(a: seq<Booking>, b: seq<Booking>) {
    && (forall x :: x in a <==> x in b)
    && (forall p: Booking -> bool :: Count(p, a) == Count(p, b))
  }

  lemma SlotsFollowCounts(q: SlotQuery, rows: seq<Booking>, t: Instant)
    requires SameCounts(q.rows, rows)
    ensures q.IsSlot(t) <==> q.(rows := rows).IsSlot(t)
  {
    var r := q.(rows := rows);
    if q.event.schedule == Manual {
      forall s ensures q.Open(s) == r.Open(s) {
        assert Count(Overlapping(s), q.rows) == Count(Overlapping(s), rows);
      }
    } else if BoundsOf(q.event.zone, q.date).Some? {
      var day := BoundsOf(q.event.zone, q.date).value;
      forall i ensures Busy(q.rows, day, i) == Busy(rows, day, i) {
        assert Count(CountsAt(day, i), q.rows) == Count(CountsAt(day, i), rows);
      }
      assert FollowsABooking(q.rows, day, t) == FollowsABooking(rows, day, t);
      forall w, k: nat ensures q.Offers(day, w, k, t) == r.Offers(day, w, k, t) {
        assert q.HasRoom(day, q.Cursor(w, k), q.Capacity(w)) == r.HasRoom(day, q.Cursor(w, k), q.Capacity(w));
      }
      OfferedInAgrees(q, r, day, t);
    }
  }

  lemma OfferedInAgrees(q: SlotQuery, r: SlotQuery, day: DayBounds, t: Instant)
    requires q.Windows() == r.Windows()
    requires forall w, k: nat :: q.Offers(day, w, k, t) == r.Offers(day, w, k, t)
    ensures q.OfferedIn(day, q.Windows(), t) == r.OfferedIn(day, r.Windows(), t)
  {
  }

  lemma PermutationSameCounts(a: seq<Booking>, b: seq<Booking>)
    requires multiset(a) == multiset(b)
    ensures SameCounts(a, b)
  {
    forall x ensures x in a <==> x in b {
      assert x in multiset(a) <==> x in multiset(b);
    }
    forall p: Booking -> bool ensures Count(p, a) == Count(p, b) {
      CountPermutation(p, a, b);
    }
  }

  // The slot list depends only on the multiset of bookings.
  lemma OrderIndependence(q: SlotQuery, rows: seq<Booking>, list: seq<string>, other: seq<string>)
    requires multiset(q.rows) == multiset(rows)
    requires IsSlotList(q, list) && IsSlotList(q.(rows := rows), other)
    ensures list == other
  {
    PermutationSameCounts(q.rows, rows);
    forall t ensures q.IsSlot(t) <==> q.(rows := rows).IsSlot(t) {
      SlotsFollowCounts(q, rows, t);
    }
    StrictUnique(list, other);
  }

  // ---------- One more booking ----------

  lemma BusyGrows(rows: seq<Booking>, b: Booking, day: DayBounds, i: int)
    ensures Busy(rows, day, i) <= Busy(rows + [b], day, i)
  {
    CountConcat(CountsAt(day, i), rows, [b]);
  }

  lemma FollowsMore(rows: seq<Booking>, b: Booking, day: DayBounds, t: Instant)
    ensures FollowsABooking(rows + [b], day, t) <==> FollowsABooking(rows, day, t) || (Touches(b, day) && b.start < t)
  {
    assert b in rows + [b];
    forall x ensures x in rows + [b] <==> x in rows || x == b {}
  }

  // Adding a booking offers a new slot only when the notice for a day with an
  // earlier booking is the shorter one, and then only between the two cutoffs.
  lemma OneMoreBooking(q: SlotQuery, b: Booking, t: Instant)
    requires q.event.schedule == Recurring
    requires q.(rows := q.rows + [b]).IsSlot(t) && !q.IsSlot(t)
    ensures q.event.noticeGeneral < q.event.noticeFirst
    ensures b.start < t
    ensures q.now + Minutes(q.event.noticeGeneral) < t <= q.now + Minutes(q.event.noticeFirst)
  {
    var r := q.(rows := q.rows + [b]);
    var day := BoundsOf(q.event.zone, q.date).value;
    var w, k: nat :| w in r.Windows() && r.Offers(day, w, k, t);
    var c := q.Cursor(w, k);
    forall i | c <= i < Min(c + q.event.duration, TOTAL_MINUTES)
      ensures Saturated(Busy(q.rows, day, i)) < q.Capacity(w)
    {
      BusyGrows(q.rows, b, day, i);
    }
    assert q.HasRoom(day, c, q.Capacity(w));
    assert !q.Offers(day, w, k, t);
    assert t <= q.Cutoff(day, t) && t > r.Cutoff(day, t);
    FollowsMore(q.rows, b, day, t);
  }

  // ---------- Any day, slot by slot ----------

  ghost predicate AllAligned(rows: seq<Booking>, day: DayBounds) {
    forall b :: b in rows ==> Aligned(b, day)
  }

  function CoversMinute(t: Instant, m: int): Booking -> bool {
    (b: Booking) => Overlap(b.start, b.end, t + Minutes(m), t + Minutes(m + 1))
  }

  // Every minute of the slot at t is covered by fewer bookings than the
  // capacity.
  ghost predicate Roomy(rows: seq<Booking>, t: Instant, duration: nat, capacity: int) {
    forall m :: 0 <= m < duration ==> Count(CoversMinute(t, m), rows) < capacity
  }

  // Whatever is booked on the minute grid, and whatever capacity the counters
  // can tell apart, the check at cursor c sees the room of the slot at t.
  ghost predicate CheckIsRight(q: SlotQuery, day: DayBounds, c: nat, t: Instant) {
    forall rows, capacity :: AllAligned(rows, day) && capacity <= 255 ==>
      (q.(rows := rows).HasRoom(day, c, capacity) <==> Roomy(rows, t, q.event.duration, capacity))
  }

  // A minute that ends within the clipped day counts what covers it.
  lemma MinuteCounts(rows: seq<Booking>, day: DayBounds, c: nat, m: nat, t: Instant)
    requires day.start % SECOND == 0 && AllAligned(rows, day) && c + m < TOTAL_MINUTES
    requires t == day.start + Minutes(c) && t + Minutes(m + 1) <= day.end
    ensures Busy(rows, day, c + m) == Count(CoversMinute(t, m), rows)
  {
    forall b | b in rows ensures Counts(b, day, c + m) <==> CoversMinute(t, m)(b) {
      CountsMeaning(b, day, c + m);
      var s, e := (b.start - day.start) / Minutes(1), (b.end - day.start) / Minutes(1);
      assert b.start == day.start + Minutes(s) && b.end == day.start + Minutes(e);
    }
    CountImplies(CountsAt(day, c + m), CoversMinute(t, m), rows);
    CountImplies(CoversMinute(t, m), CountsAt(day, c + m), rows);
  }

  lemma RoomSeen(q: SlotQuery, day: DayBounds, c: nat, t: Instant, capacity: int)
    requires day.start % SECOND == 0 && AllAligned(q.rows, day) && c + q.event.duration <= TOTAL_MINUTES
               && capacity <= 255
    requires t == day.start + Minutes(c) && t + Minutes(q.event.duration) <= day.end
    ensures q.HasRoom(day, c, capacity) <==> Roomy(q.rows, t, q.event.duration, capacity)
  {
    forall m: nat | m < q.event.duration ensures Busy(q.rows, day, c + m) == Count(CoversMinute(t, m), q.rows) {
      MinuteCounts(q.rows, day, c, m, t);
    }
    if Roomy(q.rows, t, q.event.duration, capacity) {
      forall i | c <= i < c + q.event.duration ensures Saturated(Busy(q.rows, day, i)) < capacity {
        assert Count(CoversMinute(t, i - c), q.rows) < capacity;
        assert Busy(q.rows, day, c + (i - c)) == Busy(q.rows, day, i);
      }
    }
    if q.HasRoom(day, c, capacity) {
      forall m | 0 <= m < q.event.duration ensures Count(CoversMinute(t, m), q.rows) < capacity {
        assert Saturated(Busy(q.rows, day, c + m)) < capacity;
      }
    }
  }

  // One aligned booking on the slot that the check does not look at.
  lemma BookingMissed(q: SlotQuery, day: DayBounds, c: nat, t: Instant, b: Booking, m: nat)
    requires Aligned(b, day) && m < q.event.duration && CoversMinute(t, m)(b)
    requires forall i :: c <= i < Min(c + q.event.duration, TOTAL_MINUTES) ==> !Counts(b, day, i)
    ensures !CheckIsRight(q, day, c, t)
  {
    var rows := [b];
    assert rows[..0] == [];
    var r := q.(rows := rows);
    assert r.HasRoom(day, c, 1);
    assert Count(CoversMinute(t, m), rows) == 1;
    assert !Roomy(rows, t, q.event.duration, 1);
  }

  function Booked(start: Instant, end: Instant): Booking {
    Booking(0, None, start, end, "", "", None, Confirmed, 0, Details(None, None, None))
  }

  lemma EarlySlotMissed(q: SlotQuery, day: DayBounds, c: nat, t: Instant)
    requires day.start % SECOND == 0 && q.event.duration > 0 && c + q.event.duration <= TOTAL_MINUTES
    requires t < day.start + Minutes(c)
    ensures !CheckIsRight(q, day, c, t)
  {
    var back := (day.start + Minutes(c) - t) / Minutes(1) + 1;
    var b := Booked(day.start + Minutes(c - back), day.start + Minutes(c));
    assert b.start - day.start == Minutes(1) * (c - back) && b.end - day.start == Minutes(1) * c;
    forall i | c <= i < TOTAL_MINUTES ensures !Counts(b, day, i) {
      CountsMeaning(b, day, i);
    }
    BookingMissed(q, day, c, t, b, 0);
  }

  lemma LateSlotMissed(q: SlotQuery, day: DayBounds, c: nat, t: Instant)
    requires day.start % SECOND == 0 && q.event.duration > 0 && c + q.event.duration <= TOTAL_MINUTES
    requires t > day.start + Minutes(c)
    ensures !CheckIsRight(q, day, c, t)
  {
    var last := c + q.event.duration;
    var on := (t - day.start) / Minutes(1) + 1;
    var b := Booked(day.start + Minutes(last), day.start + Minutes(last + on));
    assert b.start - day.start == Minutes(1) * last && b.end - day.start == Minutes(1) * (last + on);
    forall i | 0 <= i < last ensures !Counts(b, day, i) {
      CountsMeaning(b, day, i);
    }
    BookingMissed(q, day, c, t, b, q.event.duration - 1);
  }

  lemma ClippedSlotMissed(q: SlotQuery, day: DayBounds, c: nat, t: Instant)
    requires day.start % SECOND == 0 && q.event.duration > 0 && c + q.event.duration <= TOTAL_MINUTES
    requires t == day.start + Minutes(c) && t + Minutes(q.event.duration) > day.end
    ensures !CheckIsRight(q, day, c, t)
  {
    var last := c + q.event.duration - 1;
    var b := Booked(day.start + Minutes(last), day.start + Minutes(last + 1));
    assert b.start - day.start == Minutes(1) * last && b.end - day.start == Minutes(1) * (last + 1);
    forall i | 0 <= i <= last ensures !Counts(b, day, i) {
      CountsMeaning(b, day, i);
    }
    BookingMissed(q, day, c, t, b, q.event.duration - 1);
  }

  // On any date of any zone, the check of a slot is right if and only if the
  // slot lies its clock minutes after the start of the day and ends by
  // 23:59:59.
  lemma CheckExact(q: SlotQuery, day: DayBounds, c: nat, t: Instant)
    requires day.start % SECOND == 0 && q.event.duration > 0 && c + q.event.duration <= TOTAL_MINUTES
    ensures CheckIsRight(q, day, c, t) <==> t == day.start + Minutes(c) && t + Minutes(q.event.duration) <= day.end
  {
    if t < day.start + Minutes(c) {
      EarlySlotMissed(q, day, c, t);
    } else if t > day.start + Minutes(c) {
      LateSlotMissed(q, day, c, t);
    } else if t + Minutes(q.event.duration) > day.end {
      ClippedSlotMissed(q, day, c, t);
    } else {
      forall rows, capacity | AllAligned(rows, day) && capacity <= 255
        ensures q.(rows := rows).HasRoom(day, c, capacity) <==> Roomy(rows, t, q.event.duration, capacity)
      {
        RoomSeen(q.(rows := rows), day, c, t, capacity);
      }
    }
  }

  // On a date with one offset, that is every slot that ends before 23:59:59.
  lemma SteadyCheckIsRight(q: SlotQuery, c: nat)
    requires q.event.zone.Steady(q.date) && q.event.duration > 0 && c + q.event.duration <= TOTAL_MINUTES
    ensures BoundsOf(q.event.zone, q.date).Some? && q.event.zone.Single(ClockTime(q.date, c)).Some?
    ensures CheckIsRight(q, BoundsOf(q.event.zone, q.date).value, c, q.event.zone.Single(ClockTime(q.date, c)).value)
            <==> c + q.event.duration < TOTAL_MINUTES
  {
    SteadyBounds(q.event.zone, q.date);
    CheckExact(q, BoundsOf(q.event.zone, q.date).value, c, q.event.zone.Single(ClockTime(q.date, c)).value);
  }

  // A step whose slot lies its clock minutes after the start of the day is
  // offered by the interval definition, on any date.
  lemma OffersOnAnyDate(q: SlotQuery, day: DayBounds, w: Window, step: nat, t: Instant)
    requires q.event.duration > 0 && day.start % SECOND == 0 && AllAligned(q.rows, day)
    requires q.Cursor(w, step) + q.event.duration <= WindowEnd(w)
    requires q.event.zone.Single(ClockTime(q.date, q.Cursor(w, step))) == Some(t)
    requires t == day.start + Minutes(q.Cursor(w, step)) && t + Minutes(q.event.duration) <= day.end
    ensures q.Offers(day, w, step, t) <==>
              (q.Capacity(w) > 255 || Roomy(q.rows, t, q.event.duration, q.Capacity(w))) && InTime(q, day, t)
  {
    var c := q.Cursor(w, step);
    assert c >= 0 by { assert step * q.event.interval >= 0; }
    TouchesMeaning(q, day, t);
    if q.Capacity(w) <= 255 {
      RoomSeen(q, day, c, t, q.Capacity(w));
    }
  }

  // ---------- Days on which the clock changes ----------

  // Thursday 1970-01-01 with the clock put forward from 02:00 to 03:00, one
  // window from 03:00 to 04:00 of capacity 1, and that hour booked.
  function ChangedDay(): SlotQuery {
    var zone := Zone(0, [Change(Minutes(120), Minutes(60))]);
    var config := WeekConfig([], [], [], [Window(180, 240, None)], [], [], []);
    SlotQuery(
      Event(zone, Recurring, AccessMode.Open, 0, 0, 0, DAY, 60, 60, 1, config, true, true),
      0, [Booked(Minutes(120), Minutes(180))], None, None, 0)
  }

  lemma ChangedClock(z: Zone, w: WallTime, u: Instant)
    requires z == ChangedDay().event.zone
    requires u == if w < Minutes(120) then w else w - Minutes(60)
    requires w < Minutes(120) || w >= Minutes(180)
    ensures z.Single(w) == Some(u)
  {
    assert z.Offset(0) == 0 && z.Offset(1) == Minutes(60);
    z.SegmentUnique(if u < Minutes(120) then 0 else 1, u);
    forall v | z.Local(v) == w ensures v == u {
      z.SegmentUnique(if v < Minutes(120) then 0 else 1, v);
    }
    z.SingleExact(w, u);
  }

  lemma ChangedBounds(q: SlotQuery, day: DayBounds)
    requires q == ChangedDay() && day == DayBounds(0, Seconds(82_799))
    ensures BoundsOf(q.event.zone, q.date) == Some(day)
  {
    ChangedClock(q.event.zone, Midnight(q.date), day.start);
    ChangedClock(q.event.zone, DayEnd(q.date), day.end);
  }

  // The booking counts towards minutes 120 to 179.
  lemma ChangedIdle(rows: seq<Booking>, b: Booking, day: DayBounds, i: int)
    requires rows == [b] && b.start == Minutes(120) && b.end == Minutes(180)
    requires day == DayBounds(0, Seconds(82_799)) && i >= 180
    ensures Busy(rows, day, i) == 0
  {
    assert MinuteIndex(b.end, day) == 180;
    assert rows[..0] == [];
  }

  lemma ChangedRoom(q: SlotQuery, day: DayBounds)
    requires q == ChangedDay() && day == DayBounds(0, Seconds(82_799))
    ensures q.HasRoom(day, 180, 1)
  {
    forall i | 180 <= i < 240 ensures Busy(q.rows, day, i) == 0 {
      ChangedIdle(q.rows, q.rows[0], day, i);
    }
  }

  lemma ChangedWindow(q: SlotQuery, w: Window)
    requires q == ChangedDay() && w == Window(180, 240, None)
    ensures w in q.Windows() && q.Capacity(w) == 1
  {
    assert q.Windows() == q.event.config.thursday;
    assert q.Windows()[0] == w;
  }

  lemma FirstStepOffered(q: SlotQuery, day: DayBounds, w: Window, t: Instant)
    requires q.event.schedule == Recurring && !q.Unavailable() && BoundsOf(q.event.zone, q.date) == Some(day)
    requires w in q.Windows() && 0 < q.event.duration <= WindowEnd(w) - w.start && q.event.interval > 0
    requires q.event.zone.Single(ClockTime(q.date, w.start)) == Some(t) && q.HasRoom(day, w.start, q.Capacity(w))
    requires t > q.now + Minutes(q.event.noticeGeneral) && t > q.now + Minutes(q.event.noticeFirst)
    requires q.event.activeStart <= t && t + Minutes(q.event.duration) <= q.event.activeEnd
    ensures q.Offers(day, w, 0, t) && q.IsSlot(t)
  {
    assert q.Cursor(w, 0) == w.start;
    assert q.Offers(day, w, 0, t);
  }

  lemma ChangedFields(q: SlotQuery)
    requires q == ChangedDay()
    ensures q.event.schedule == Recurring && q.rule == None && q.date == 0 && q.now == 0
    ensures q.event.duration == 60 && q.event.interval == 60 && q.event.noticeGeneral == 0 && q.event.noticeFirst == 0
    ensures q.event.activeStart == 0 && q.event.activeEnd == DAY
  {
  }

  lemma HourOffered(q: SlotQuery, day: DayBounds, w: Window, t: Instant)
    requires q.event.schedule == Recurring && q.rule == None && q.now == 0
    requires q.event.duration == 60 && q.event.interval == 60 && q.event.noticeGeneral == 0 && q.event.noticeFirst == 0
    requires q.event.activeStart == 0 && q.event.activeEnd == DAY && Minutes(120) <= t <= Minutes(180)
    requires BoundsOf(q.event.zone, q.date) == Some(day) && w == Window(180, 240, None) && w in q.Windows()
    requires q.event.zone.Single(ClockTime(q.date, w.start)) == Some(t) && q.HasRoom(day, w.start, q.Capacity(w))
    ensures q.Offers(day, w, 0, t) && q.IsSlot(t)
  {
    FirstStepOffered(q, day, w, t);
  }

  lemma ChangedSlot(q: SlotQuery, day: DayBounds, w: Window, t: Instant)
    requires q == ChangedDay() && day == DayBounds(0, Seconds(82_799)) && w == Window(180, 240, None)
               && t == Minutes(120)
    ensures q.IsSlot(t)
  {
    ChangedFields(q);
    ChangedBounds(q, day);
    ChangedClock(q.event.zone, ClockTime(q.date, w.start), t);
    ChangedRoom(q, day);
    ChangedWindow(q, w);
    HourOffered(q, day, w, t);
  }

  // The counters run by elapsed minutes and the cursor by the clock, so on
  // such a day a fully booked slot is offered again.
  lemma ChangedDayOverbooks(q: SlotQuery)
    requires q == ChangedDay()
    ensures q.event.zone.Regular() && q.event.capacity == 1
    ensures q.IsSlot(q.rows[0].start) && q.rows[0].end == q.rows[0].start + Minutes(q.event.duration)
  {
    ChangedSlot(q, DayBounds(0, Seconds(82_799)), Window(180, 240, None), q.rows[0].start);
  }

  // There the check of that slot is not the right one.
  lemma ChangedDayCheckIsWrong(q: SlotQuery, day: DayBounds)
    requires q == ChangedDay() && day == DayBounds(0, Seconds(82_799))
    ensures BoundsOf(q.event.zone, q.date) == Some(day)
    ensures q.event.zone.Single(ClockTime(q.date, 180)) == Some(q.rows[0].start)
    ensures !CheckIsRight(q, day, 180, q.rows[0].start)
  {
    ChangedBounds(q, day);
    ChangedClock(q.event.zone, ClockTime(q.date, 180), q.rows[0].start);
    CheckExact(q, day, 180, q.rows[0].start);
  }
}
