// The overbooking bound is met: bookings one after the other up to one place
// less than the capacity, then k requests that all read before any writes.
module Tightness {
  import opened Results
  import opened Time
  import opened Models
  import opened Availability
  import opened SlotTheory
  import opened Store
  import opened Handlers
  import opened Interleaving
  import opened Filling
  import opened Overbooking
  import opened Runs

  // An empty calendar on which a window offers a slot that creation accepts.
  ghost predicate Fillable(ev: Event, db: Db, q: SlotQuery, day: DayBounds, w: Window, step: nat, p: Placement) {
    && db.bookings == map[] && q.rows == [] && Reads(q, db)
    && q.event == ev && ev.schedule == Recurring && ev.duration > 0 && ev.interval > 0
    && ev.zone.Steady(q.date) && !q.Unavailable()
    && BoundsOf(ev.zone, q.date) == Some(day)
    && w in q.Windows() && q.Offers(day, w, step, p.start) && p.start >= q.now
    && p == Placement(p.start, p.start + Minutes(ev.duration), LocationAt(q, p.start))
  }

  // What the counters cannot tell from an empty calendar: more than 255
  // bookings, or any on 23:59.
  predicate Uncounted(q: SlotQuery, w: Window, step: nat) {
    q.Capacity(w) > 255 || q.Cursor(w, step) == 1439
  }

  // With n bookings the step still has room.
  predicate Admits(q: SlotQuery, w: Window, step: nat, n: nat) {
    n < q.Capacity(w) || Uncounted(q, w, step)
  }

  // How many bookings, one after the other, can fill the step.
  predicate Fills(q: SlotQuery, w: Window, step: nat, room: nat) {
    room == q.Capacity(w) || Uncounted(q, w, step)
  }

  // ---------- Reads ----------

  lemma OfferedAgain(q: SlotQuery, day: DayBounds, w: Window, step: nat, p: Placement, n: nat)
    requires q.rows == [] && q.Offers(day, w, step, p.start) && Admits(q, w, step, n) && q.event.duration > 0
    requires day.end == day.start + Seconds(86_399)
    ensures q.(rows := Rows(n, p)).Offers(day, w, step, p.start)
  {
    assert |Rows(n, p)| == n;
    if n >= q.Capacity(w) && q.Capacity(w) <= 255 {
      LastMinuteFree(Rows(n, p), day);
      assert Saturated(Busy(q.rows, day, 1439)) < q.Capacity(w);
    }
  }

  // The counters never show anyone on 23:59.
  lemma LastMinuteFree(rows: seq<Booking>, day: DayBounds)
    requires day.end == day.start + Seconds(86_399)
    ensures Busy(rows, day, 1439) == 0
  {
    CountNone(CountsAt(day, 1439), rows);
  }

  lemma SlotMeetsDay(q: SlotQuery, day: DayBounds, w: Window, step: nat, t: Instant)
    requires q.event.zone.Steady(q.date) && BoundsOf(q.event.zone, q.date) == Some(day)
    requires q.event.duration > 0 && q.Offers(day, w, step, t)
    ensures Overlap(t, t + Minutes(q.event.duration), day.start, day.end)
  {
    SteadyBounds(q.event.zone, q.date);
    assert q.Cursor(w, step) >= 0 by { assert step * q.event.interval >= 0; }
  }

  lemma SlotIsAccepted(q: SlotQuery, day: DayBounds, w: Window, step: nat, t: Instant)
    requires q.event.schedule == Recurring && q.sessions == None && q.event.duration > 0 && q.event.interval > 0
    requires !q.Unavailable() && BoundsOf(q.event.zone, q.date) == Some(day)
    requires w in q.Windows() && q.Offers(day, w, step, t) && t >= q.now
    ensures CreateTime(q, Iso(t)) == Ok(Placement(t, t + Minutes(q.event.duration), LocationAt(q, t)))
  {
    assert q.RecurringSlot(t);
    SlotRoundTrip(q, t);
    SlotIsListed(q, t);
    SlotPassesGuards(q, t);
  }

  lemma ReadsAgain(db: Db, q: SlotQuery, day: DayBounds, n: nat, p: Placement)
    requires Reads(q, db) && q.event.schedule == Recurring && BoundsOf(q.event.zone, q.date) == Some(day)
    requires Overlap(p.start, p.end, day.start, day.end)
    ensures Reads(q.(rows := Rows(n, p)), db.(bookings := AllGranted(n, p)))
  {
    RowsAreListed(n, p, day.start, day.end);
  }

  lemma PassesAgain(ev: Event, db: Db, q: SlotQuery, day: DayBounds, w: Window, step: nat, p: Placement, n: nat)
    requires Fillable(ev, db, q, day, w, step, p) && Admits(q, w, step, n)
    ensures Read(ev, db.(bookings := AllGranted(n, p)), q.(rows := Rows(n, p)), p, ToCreate(p.start, p.end))
  {
    SlotMeetsDay(q, day, w, step, p.start);
    SteadyLength(ev.zone, q.date);
    ReadsAgain(db, q, day, n, p);
    AcceptedAgain(q, day, w, step, p, n);
    AcceptedIsRead(ev, db.(bookings := AllGranted(n, p)), q.(rows := Rows(n, p)), Iso(p.start), p);
  }

  lemma AcceptedAgain(q: SlotQuery, day: DayBounds, w: Window, step: nat, p: Placement, n: nat)
    requires q.event.schedule == Recurring && q.sessions == None && q.event.duration > 0 && q.event.interval > 0
    requires day.end == day.start + Seconds(86_399)
    requires !q.Unavailable() && BoundsOf(q.event.zone, q.date) == Some(day) && q.rows == [] && Admits(q, w, step, n)
    requires w in q.Windows() && q.Offers(day, w, step, p.start) && p.start >= q.now
    requires p == Placement(p.start, p.start + Minutes(q.event.duration), LocationAt(q, p.start))
    ensures CreateTime(q.(rows := Rows(n, p)), Iso(p.start)) == Ok(p)
  {
    OfferedAgain(q, day, w, step, p, n);
    SlotIsAccepted(q.(rows := Rows(n, p)), day, w, step, p.start);
  }

  lemma AcceptedIsRead(ev: Event, db: Db, q: SlotQuery, time: RequestedTime, p: Placement)
    requires q.event == ev && Reads(q, db) && ev.zone.Steady(q.date) && CreateTime(q, time) == Ok(p)
    ensures Read(ev, db, q, p, ToCreate(p.start, p.end))
  {
    assert PassesAs(q, time, None, p, ToCreate(p.start, p.end));
  }

  lemma ReadIsStep(ev: Event, k: nat, s: State, s': State, r: RequestId, q: SlotQuery, p: Placement, x: Passed)
    requires Read(ev, s.db, q, p, x) && Enters(k, s, s', r, x)
    ensures StepOf(ev, k)(s, s')
  {
    assert ReadStep(ev, k, s, s', r, q, p, x);
  }

  lemma PassIsStep(
    ev: Event, k: nat, db: Db, q: SlotQuery, day: DayBounds, w: Window, step: nat, p: Placement, lo: nat, hi: nat)
    requires Fillable(ev, db, q, day, w, step, p) && lo <= hi < lo + k && Admits(q, w, step, lo)
    ensures StepOf(ev, k)(Moment(db, lo, hi, p), Moment(db, lo, hi + 1, p))
  {
    PassesAgain(ev, db, q, day, w, step, p, lo);
    EnterMoment(k, db, lo, hi, p);
    ReadIsStep(ev, k, Moment(db, lo, hi, p), Moment(db, lo, hi + 1, p), hi, q.(rows := Rows(lo, p)), p,
      ToCreate(p.start, p.end));
  }

  // ---------- The run ----------

  lemma ReadsAllowed(
    ev: Event, k: nat, db: Db, q: SlotQuery, day: DayBounds, w: Window, step: nat, p: Placement, room: nat)
    requires Fillable(ev, db, q, day, w, step, p) && Fills(q, w, step, room)
    ensures AllReads(StepOf(ev, k), MomentAt(db, p), room, k)
  {
    forall lo: nat, hi: nat | lo <= hi < lo + k && lo < room ensures ReadsOne(StepOf(ev, k), MomentAt(db, p), lo, hi) {
      PassIsStep(ev, k, db, q, day, w, step, p, lo, hi);
    }
  }

  lemma FillablePlace(
    ev: Event, k: nat, db: Db, q: SlotQuery, day: DayBounds, w: Window, step: nat, p: Placement, place: Place,
    room: nat)
    returns (run: seq<State>)
    requires Fillable(ev, db, q, day, w, step, p) && Fills(q, w, step, room) && k >= 1 && room >= 1
    requires place(p.start, p.end)
    ensures Run(ev, k, run) && run[0].db == db && |Occupants(Last(run).db, place)| == room + k - 1
  {
    ReadsAllowed(ev, k, db, q, day, w, step, p, room);
    run := FilledRun(StepOf(ev, k), db, p, place, room, k, room + k - 1);
  }

  // On an empty calendar a slot of the widest window over a minute can be
  // booked until that minute holds its capacity and k - 1 bookings more.
  lemma BoundIsMet(
    ev: Event, k: nat, db: Db, q: SlotQuery, day: DayBounds, w: Window, step: nat, p: Placement, i: int)
    returns (run: seq<State>)
    requires Fillable(ev, db, q, day, w, step, p) && k >= 1
    requires MinuteOf(day, i)(p.start, p.end) && Peak(ev, db.overrides, q.date, i) == q.Capacity(w) > 0
    ensures Run(ev, k, run) && run[0].db == db
    ensures |Occupants(Last(run).db, MinuteOf(day, i))| == Peak(ev, db.overrides, q.date, i) + k - 1
  {
    run := FillablePlace(ev, k, db, q, day, w, step, p, MinuteOf(day, i), q.Capacity(w));
  }

  // Where the counters see nothing, there is no bound, not even for requests
  // one after the other.
  lemma UncountedFills(
    ev: Event, db: Db, q: SlotQuery, day: DayBounds, w: Window, step: nat, p: Placement, i: int, n: nat)
    returns (run: seq<State>)
    requires Fillable(ev, db, q, day, w, step, p) && Uncounted(q, w, step) && MinuteOf(day, i)(p.start, p.end)
    requires n >= 1
    ensures Run(ev, 1, run) && run[0].db == db && |Occupants(Last(run).db, MinuteOf(day, i))| == n
  {
    run := FillablePlace(ev, 1, db, q, day, w, step, p, MinuteOf(day, i), n);
  }
}
