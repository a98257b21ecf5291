// `get_available_dates` of src/api/handlers/event.rs: one query for a range of
// dates instead of one for each date.
module DateListing {
  import opened Results
  import opened Time
  import opened Models
  import Rfc3339
  import opened Availability
  import opened SlotTheory
  import opened Store
  import opened Handlers

  // The answers to the queries for the whole range.
  datatype RangeReads = RangeReads(rows: seq<Booking>, overrides: seq<Override>, sessions: Option<seq<Session>>)

  ghost predicate UniqueDates(rows: seq<Override>) {
    forall i, j :: 0 <= i < j < |rows| ==> rows[i].date != rows[j].date
  }

  // `list_by_range` of overrides returns each matching row once, in any order.
  ghost predicate IsOverrideListing(rows: seq<Override>, table: seq<Override>, from: Date, to: Date) {
    UniqueDates(rows) && forall o :: o in rows <==> o in table && from <= o.date <= to
  }

  predicate RangeBounds(zone: Zone, from: Date, to: Date) {
    zone.Single(Midnight(from)).Some? && zone.Single(DayEnd(to)).Some?
  }

  ghost predicate ReadsRange(range: RangeReads, db: Db, ev: Event, from: Date, to: Date) {
    && RangeBounds(ev.zone, from, to)
    && var start, end := ev.zone.Single(Midnight(from)).value, ev.zone.Single(DayEnd(to)).value;
    && IsListing(range.rows, db.bookings, start, end)
    && (if ev.schedule == Manual
        then range.overrides == []
        else IsOverrideListing(range.overrides, db.overrides, from, to))
    && (if ev.schedule == Manual
        then range.sessions.Some? && IsSessionListing(range.sessions.value, db.sessions, start, end)
        else range.sessions == None)
  }

  // `all_bookings.iter().filter(..)`
  function DayRows(rows: seq<Booking>, day: DayBounds): (r: seq<Booking>)
    ensures forall b :: b in r <==> b in rows && Overlap(b.start, b.end, day.start, day.end)
  {
    if rows == [] then []
    else
      var last := rows[|rows| - 1];
      assert rows == rows[..|rows| - 1] + [last];
      DayRows(rows[..|rows| - 1], day) + if Overlap(last.start, last.end, day.start, day.end) then [last] else []
  }

  // The slot computation for one date of the range.
  function DayQuery(ev: Event, d: Date, day: DayBounds, range: RangeReads, now: Instant): SlotQuery {
    SlotQuery(ev, d, DayRows(range.rows, day), OverrideOn(range.overrides, d), range.sessions, now)
  }

  // The day meets the active range of the event.
  predicate Active(ev: Event, day: DayBounds) {
    day.end >= ev.activeStart && day.start <= ev.activeEnd
  }

  ghost predicate HasSlots(q: SlotQuery) {
    exists t :: q.IsSlot(t)
  }

  ghost predicate Available(ev: Event, d: Date, range: RangeReads, now: Instant) {
    && BoundsOf(ev.zone, d).Some?
    && var day := BoundsOf(ev.zone, d).value;
    Active(ev, day) && HasSlots(DayQuery(ev, d, day, range, now))
  }

  // Some local midnight or 23:59:59 of the range is skipped or repeated.
  ghost predicate RangePanics(ev: Event, from: Date, to: Date) {
    !RangeBounds(ev.zone, from, to) || exists d :: from <= d <= to && BoundsOf(ev.zone, d).None?
  }

  // The dates in [from, to) that are available, in order.
  ghost predicate IsDateList(dates: seq<Date>, ev: Event, from: Date, to: Date, range: RangeReads, now: Instant) {
    && (forall i, j :: 0 <= i < j < |dates| ==> dates[i] < dates[j])
    && (forall d :: d in dates <==> from <= d < to && Available(ev, d, range, now))
  }

  lemma EmptyMeansNoSlots(q: SlotQuery, list: seq<string>)
    requires IsSlotList(q, list)
    ensures list != [] <==> HasSlots(q)
  {
    if list != [] {
      assert list[0] in list;
    }
    if t :| q.IsSlot(t) {
      assert Rfc3339.ToRfc3339(t) in list;
    }
  }

  lemma ListGrows(dates: seq<Date>, ev: Event, from: Date, d: Date, range: RangeReads, now: Instant, more: seq<Date>)
    requires from <= d && IsDateList(dates, ev, from, d, range, now)
    requires more == if Available(ev, d, range, now) then dates + [d] else dates
    ensures IsDateList(more, ev, from, d + 1, range, now)
  {
    forall j | 0 <= j < |dates| ensures dates[j] < d {
      assert dates[j] in dates;
    }
    forall e ensures e in more <==> from <= e < d + 1 && Available(ev, e, range, now) {
      assert e in dates <==> from <= e < d && Available(ev, e, range, now);
      assert e in more <==> e in dates || (e == d && Available(ev, d, range, now));
    }
  }

  // The loop of `get_available_dates` over what was read.
  method WalkDates(ev: Event, from: Date, to: Date, range: RangeReads, now: Instant) returns (r: Result<seq<Date>>)
    requires RangeBounds(ev.zone, from, to)
    ensures RangePanics(ev, from, to) ==> r == Err(Panic)
    ensures !RangePanics(ev, from, to) ==> r.Ok? && IsDateList(r.value, ev, from, to + 1, range, now)
  {
    var dates: seq<Date> := [];
    var d := from;
    assert IsDateList(dates, ev, from, d, range, now);
    while d <= to
      invariant from <= d && (d <= to + 1 || d == from)
      invariant forall e :: from <= e < d ==> BoundsOf(ev.zone, e).Some?
      invariant IsDateList(dates, ev, from, d, range, now)
    {
      var bounds := BoundsOf(ev.zone, d);
      if bounds.None? {
        return Err(Panic);
      }
      ghost var was := dates;
      if Active(ev, bounds.value) {
        var q := DayQuery(ev, d, bounds.value, range, now);
        var slots := CalculateSlots(q);
        EmptyMeansNoSlots(q, slots.value);
        if slots.value != [] {
          dates := dates + [d];
        }
      }
      ListGrows(was, ev, from, d, range, now, dates);
      d := d + 1;
    }
    r := Ok(dates);
  }

  // ---------- One query for the range is one query for each day ----------

  lemma {:induction false} DayRowsDistinct(rows: seq<Booking>, day: DayBounds)
    requires DistinctIds(rows)
    ensures DistinctIds(DayRows(rows, day))
  {
    if rows != [] {
      var n := |rows| - 1;
      DayRowsDistinct(rows[..n], day);
      var kept := DayRows(rows[..n], day);
      forall i | 0 <= i < |kept| ensures kept[i].id != rows[n].id {
        assert kept[i] in rows[..n];
      }
    }
  }

  lemma DayRowsListing(rows: seq<Booking>, table: map<BookingId, Booking>, start: Instant, end: Instant, day: DayBounds)
    requires IsListing(rows, table, start, end) && start <= day.start && day.end <= end
    ensures IsListing(DayRows(rows, day), table, day.start, day.end)
  {
    DayRowsDistinct(rows, day);
  }

  lemma {:induction false} OverrideOnExact(rows: seq<Override>, d: Date)
    ensures OverrideOn(rows, d).Some? ==> OverrideOn(rows, d).value in rows && OverrideOn(rows, d).value.date == d
    ensures OverrideOn(rows, d).None? ==> forall o :: o in rows ==> o.date != d
  {
    if rows != [] && rows[0].date != d {
      OverrideOnExact(rows[1..], d);
      assert rows == [rows[0]] + rows[1..];
    }
  }

  // `find_by_date` and the search in the listed overrides agree.
  lemma OverrideAgrees(rows: seq<Override>, table: seq<Override>, from: Date, to: Date, d: Date)
    requires IsOverrideListing(rows, table, from, to) && from <= d <= to
    requires forall i, j :: 0 <= i < j < |table| ==> table[i].date != table[j].date
    ensures OverrideOn(rows, d) == OverrideOn(table, d)
  {
    OverrideOnExact(rows, d);
    OverrideOnExact(table, d);
  }

  lemma DayInRange(zone: Zone, from: Date, to: Date, d: Date)
    requires zone.Regular() && RangeBounds(zone, from, to) && from <= d <= to && BoundsOf(zone, d).Some?
    ensures zone.Single(Midnight(from)).value <= BoundsOf(zone, d).value.start
    ensures BoundsOf(zone, d).value.end <= zone.Single(DayEnd(to)).value
  {
    if from < d {
      zone.OrderKept(Midnight(from), Midnight(d));
    }
    if d < to {
      zone.OrderKept(DayEnd(d), DayEnd(to));
    }
  }

  lemma RangeRowsDay(range: RangeReads, db: Db, ev: Event, from: Date, to: Date, d: Date)
    requires ev.zone.Regular() && ReadsRange(range, db, ev, from, to) && from <= d <= to && BoundsOf(ev.zone, d).Some?
    ensures var day := BoundsOf(ev.zone, d).value;
            && IsListing(DayRows(range.rows, day), db.bookings, day.start, day.end)
            && ev.zone.Single(Midnight(from)).value <= day.start && day.end <= ev.zone.Single(DayEnd(to)).value
  {
    var day := BoundsOf(ev.zone, d).value;
    DayInRange(ev.zone, from, to, d);
    DayRowsListing(range.rows, db.bookings, ev.zone.Single(Midnight(from)).value, ev.zone.Single(DayEnd(to)).value,
      day);
  }

  // What the batch keeps for a date is what the per-day queries return.
  lemma RangeReadsDay(range: RangeReads, db: Db, ev: Event, from: Date, to: Date, d: Date, now: Instant)
    requires db.Valid() && ev.schedule == Recurring && ev.zone.Regular()
    requires ReadsRange(range, db, ev, from, to) && from <= d <= to && BoundsOf(ev.zone, d).Some?
    ensures Reads(DayQuery(ev, d, BoundsOf(ev.zone, d).value, range, now), db)
  {
    RangeRowsDay(range, db, ev, from, to, d);
    OverrideAgrees(range.overrides, db.overrides, from, to, d);
  }

  // Slots lie between the bounds of their day, so skipping days outside the
  // active range loses none.
  lemma SlotWithinDay(q: SlotQuery, t: Instant)
    requires q.event.zone.Regular() && q.RecurringSlot(t)
    ensures BoundsOf(q.event.zone, q.date).value.start <= t <= BoundsOf(q.event.zone, q.date).value.end
  {
    var day := BoundsOf(q.event.zone, q.date).value;
    var w, k: nat :| w in q.Windows() && q.Offers(day, w, k, t);
    var c := q.Cursor(w, k);
    assert c >= 0 by { assert k * q.event.interval >= 0; }
    assert Midnight(q.date) <= ClockTime(q.date, c) < DayEnd(q.date);
    q.event.zone.OrderKept(ClockTime(q.date, c), DayEnd(q.date));
    if c > 0 {
      q.event.zone.OrderKept(Midnight(q.date), ClockTime(q.date, c));
    }
  }

  lemma PruneLosesNothing(q: SlotQuery)
    requires q.event.schedule == Recurring && q.event.zone.Regular() && HasSlots(q)
    ensures BoundsOf(q.event.zone, q.date).Some? && Active(q.event, BoundsOf(q.event.zone, q.date).value)
  {
    var t :| q.IsSlot(t);
    SlotWithinDay(q, t);
    RecurringSlotBounds(q, t);
  }

  // A session as the session handler makes it: of positive length, from a
  // clock minute that is shown once.
  ghost predicate Placed(zone: TimeZone, s: Session) {
    s.start < s.end && zone.Local(s.start) % Minutes(1) == 0 && zone.Single(zone.Local(s.start)) == Some(s.start)
  }

  lemma PlacedMeetsItsDay(zone: TimeZone, s: Session, day: DayBounds)
    requires zone.Regular() && Placed(zone, s) && BoundsOf(zone, DateOf(zone.Local(s.start))) == Some(day)
    ensures Overlap(s.start, s.end, day.start, day.end)
  {
    var local := zone.Local(s.start);
    var m := WholeClockMinute(local);
    StartsInDate(zone, DateOf(local), m, s.start);
  }

  lemma WholeClockMinute(local: WallTime) returns (m: ClockMinute)
    requires local % Minutes(1) == 0
    ensures local == ClockTime(DateOf(local), m)
  {
    var n := local / Minutes(1);
    assert local == Minutes(1) * n;
    m := n % 1440;
    assert n == 1440 * (n / 1440) + m;
  }

  // For a MANUAL event the sessions of the range and the sessions of the day
  // give the same slots of the date.
  lemma ManualBatchSlots(range: RangeReads, db: Db, ev: Event, from: Date, to: Date, q: SlotQuery, t: Instant)
    requires db.Valid() && ev.schedule == Manual && ev.zone.Regular()
    requires forall id :: id in db.sessions ==> Placed(ev.zone, db.sessions[id])
    requires ReadsRange(range, db, ev, from, to) && from <= q.date <= to && q.event == ev && Reads(q, db)
    ensures DayQuery(ev, q.date, BoundsOf(ev.zone, q.date).value, range, q.now).IsSlot(t) <==> q.IsSlot(t)
  {
    var day := BoundsOf(ev.zone, q.date).value;
    var batch := DayQuery(ev, q.date, day, range, q.now);
    RangeRowsDay(range, db, ev, from, to, q.date);
    RowsAgree(batch, q, db.bookings, db.bookings, t);
    RangeSessions(range, db, ev, from, to, q, batch.(rows := q.rows), t);
  }

  lemma RangeSessions(range: RangeReads, db: Db, ev: Event, from: Date, to: Date, q: SlotQuery, p: SlotQuery,
    t: Instant)
    requires db.Valid() && ev.schedule == Manual && ev.zone.Regular()
    requires forall id :: id in db.sessions ==> Placed(ev.zone, db.sessions[id])
    requires ReadsRange(range, db, ev, from, to) && from <= q.date <= to && q.event == ev && Reads(q, db)
    requires p.event == ev && p.date == q.date && p.rows == q.rows && p.sessions == range.sessions
    ensures p.IsSlot(t) <==> q.IsSlot(t)
  {
    DayInRange(ev.zone, from, to, q.date);
    SameOpenSessions(p, q, db.sessions, ev.zone.Single(Midnight(from)).value, ev.zone.Single(DayEnd(to)).value,
                     BoundsOf(ev.zone, q.date).value, t);
  }

  lemma SameOpenSessions(p: SlotQuery, q: SlotQuery, table: map<SessionId, Session>, start: Instant, end: Instant,
      day: DayBounds, t: Instant)
    requires p.event == q.event && p.date == q.date && p.rows == q.rows && p.event.schedule == Manual
    requires p.event.zone.Regular() && BoundsOf(p.event.zone, p.date) == Some(day)
    requires forall id :: id in table ==> table[id].id == id && Placed(p.event.zone, table[id])
    requires p.sessions.Some? && IsSessionListing(p.sessions.value, table, start, end)
    requires q.sessions.Some? && IsSessionListing(q.sessions.value, table, day.start, day.end)
    requires start <= day.start && day.end <= end
    ensures p.IsSlot(t) <==> q.IsSlot(t)
  {
    forall s | s in p.sessions.value && p.Open(s) ensures s in q.sessions.value && q.Open(s) {
      assert Overlap(s.start, s.end, day.start, day.end) by {
        PlacedMeetsItsDay(p.event.zone, s, day);
      }
    }
    MoreSessions(p, q, t);
  }

  lemma MoreSessions(p: SlotQuery, q: SlotQuery, t: Instant)
    requires p.event == q.event && p.date == q.date && p.rows == q.rows && p.event.schedule == Manual
    requires p.sessions.Some? && q.sessions.Some?
    requires forall s :: s in q.sessions.value ==> s in p.sessions.value
    requires forall s :: s in p.sessions.value && p.Open(s) ==> s in q.sessions.value
    ensures p.IsSlot(t) <==> q.IsSlot(t)
  {
    forall s ensures p.Open(s) <==> q.Open(s) {}
  }

  lemma BatchSlots(range: RangeReads, db: Db, ev: Event, from: Date, to: Date, q: SlotQuery, t: Instant)
    requires db.Valid() && ev.zone.Regular()
    requires ev.schedule == Manual ==> forall id :: id in db.sessions ==> Placed(ev.zone, db.sessions[id])
    requires ReadsRange(range, db, ev, from, to) && from <= q.date <= to && q.event == ev && Reads(q, db)
    ensures DayQuery(ev, q.date, BoundsOf(ev.zone, q.date).value, range, q.now).IsSlot(t) <==> q.IsSlot(t)
  {
    if ev.schedule == Manual {
      ManualBatchSlots(range, db, ev, from, to, q, t);
    } else {
      RangeReadsDay(range, db, ev, from, to, q.date, q.now);
      ReadsAgree(DayQuery(ev, q.date, BoundsOf(ev.zone, q.date).value, range, q.now), q, db, t);
    }
  }

  // The batch lists a date if and only if the query for that date alone, on
  // the same tables at the same time, has slots and the day meets the active
  // range of the event.
  lemma BatchExact(range: RangeReads, db: Db, ev: Event, from: Date, to: Date, dates: seq<Date>, q: SlotQuery,
    list: seq<string>)
    requires db.Valid() && ev.zone.Regular()
    requires ev.schedule == Manual ==> forall id :: id in db.sessions ==> Placed(ev.zone, db.sessions[id])
    requires ReadsRange(range, db, ev, from, to) && IsDateList(dates, ev, from, to + 1, range, q.now)
    requires from <= q.date <= to && q.event == ev && Reads(q, db) && IsSlotList(q, list)
    ensures q.date in dates <==> list != [] && Active(ev, BoundsOf(ev.zone, q.date).value)
  {
    var batch := DayQuery(ev, q.date, BoundsOf(ev.zone, q.date).value, range, q.now);
    forall t ensures batch.IsSlot(t) <==> q.IsSlot(t) {
      BatchSlots(range, db, ev, from, to, q, t);
    }
    EmptyMeansNoSlots(q, list);
    SameSlotsHaveSlots(batch, q);
  }

  lemma SameSlotsHaveSlots(p: SlotQuery, q: SlotQuery)
    requires forall t :: p.IsSlot(t) <==> q.IsSlot(t)
    ensures HasSlots(p) <==> HasSlots(q)
  {
    if HasSlots(p) {
      var t :| p.IsSlot(t);
      assert q.IsSlot(t);
    }
    if HasSlots(q) {
      var t :| q.IsSlot(t);
      assert p.IsSlot(t);
    }
  }

  // For a RECURRING event the active range is no further condition.
  lemma BatchIsPerDay(range: RangeReads, db: Db, ev: Event, from: Date, to: Date, dates: seq<Date>, q: SlotQuery,
    list: seq<string>)
    requires db.Valid() && ev.schedule == Recurring && ev.zone.Regular()
    requires ReadsRange(range, db, ev, from, to) && IsDateList(dates, ev, from, to + 1, range, q.now)
    requires from <= q.date <= to && q.event == ev && Reads(q, db) && IsSlotList(q, list)
    ensures q.date in dates <==> list != []
  {
    BatchExact(range, db, ev, from, to, dates, q, list);
    EmptyMeansNoSlots(q, list);
    if HasSlots(q) {
      PruneLosesNothing(q);
    }
  }
}
