// The overbooking bound for sessions is met.
module ManualTightness {
  import opened Results
  import opened Time
  import opened Models
  import opened Availability
  import opened Store
  import opened Handlers
  import opened Interleaving
  import opened Filling
  import opened ManualOverbooking
  import opened Runs
  import ManualSchedule
  import Overbooking

  // A session with nobody on it, shown once by the clock, and what creation
  // makes of a request for it.
  ghost predicate Fillable(ev: Event, db: Db, q: SlotQuery, s: Session, p: Placement) {
    && db.bookings == map[] && Timetable(ev, db) && Reads(q, db) && q.event == ev
    && s in q.sessions.value && SessionFor(q, s.start) == Some(s)
    && DateOf(ev.zone.Local(s.start)) == q.date && ev.zone.Single(ev.zone.Local(s.start)) == Some(s.start)
    && Bookable(q, s.start)
    && p == Placement(s.start, ManualSchedule.SeatEnd(s), s.location)
  }

  // ---------- Reads ----------

  // The same read with n bookings on the session.
  function Reread(q: SlotQuery, n: nat, p: Placement): SlotQuery {
    q.(rows := Rows(n, p))
  }

  lemma SeatIsListed(q: SlotQuery, db: Db, s: Session, day: DayBounds)
    requires Reads(q, db) && q.event.schedule == Manual && s in q.sessions.value
    requires ManualSchedule.Visible(q.event.zone, s) && DateOf(q.event.zone.Local(s.start)) == q.date
    requires BoundsOf(q.event.zone, q.date) == Some(day)
    ensures Overlap(s.start, ManualSchedule.SeatEnd(s), day.start, day.end)
  {
  }

  lemma ReadsAgain(db: Db, q: SlotQuery, n: nat, p: Placement, day: DayBounds)
    requires Reads(q, db) && q.event.schedule == Manual && BoundsOf(q.event.zone, q.date) == Some(day)
    requires Overlap(p.start, p.end, day.start, day.end)
    ensures Reads(Reread(q, n, p), db.(bookings := AllGranted(n, p)))
  {
    RowsAreListed(n, p, day.start, day.end);
  }

  lemma NamesStart(q: SlotQuery, t: Instant)
    requires DateOf(q.event.zone.Local(t)) == q.date && q.event.zone.Single(q.event.zone.Local(t)) == Some(t)
    ensures StartOf(q, Iso(t)) == Some(t)
  {
    WallTimeSplit(q.event.zone.Local(t));
  }

  lemma OpenAgain(q: SlotQuery, s: Session, n: nat, p: Placement)
    requires q.sessions.Some? && s in q.sessions.value && DateOf(q.event.zone.Local(s.start)) == q.date
    requires n < s.capacity
    ensures Reread(q, n, p).ManualSlot(s.start)
  {
    assert Reread(q, n, p).Open(s);
  }

  lemma SeatIsGiven(q: SlotQuery, s: Session)
    requires q.event.schedule == Manual && q.rule == None && BoundsOf(q.event.zone, q.date).Some?
    requires q.ManualSlot(s.start) && SessionFor(q, s.start) == Some(s) && Bookable(q, s.start)
    ensures CreateGuards(q, s.start, true) == Ok(Placement(s.start, ManualSchedule.SeatEnd(s), s.location))
  {
    ManualGuardsAgree(q, s.start, true, None);
  }

  lemma AcceptedAgain(q: SlotQuery, s: Session, n: nat, p: Placement)
    requires q.event.schedule == Manual && q.rule == None && BoundsOf(q.event.zone, q.date).Some?
    requires Reread(q, n, p).ManualSlot(s.start) && SessionFor(q, s.start) == Some(s) && Bookable(q, s.start)
    requires StartOf(q, Iso(s.start)) == Some(s.start)
    requires p == Placement(s.start, ManualSchedule.SeatEnd(s), s.location)
    ensures CreateTime(Reread(q, n, p), Iso(s.start)) == Ok(p)
  {
    var r := Reread(q, n, p);
    SlotIsListed(r, s.start);
    SeatIsGiven(r, s);
  }

  lemma PassesAgain(ev: Event, db: Db, q: SlotQuery, s: Session, p: Placement, n: nat)
    requires Fillable(ev, db, q, s, p) && n < s.capacity
    ensures Read(ev, db.(bookings := AllGranted(n, p)), Reread(q, n, p), p, ToCreate(p.start, p.end))
  {
    var day := BoundsOf(ev.zone, q.date).value;
    SeatIsListed(q, db, s, day);
    ReadsAgain(db, q, n, p, day);
    NamesStart(q, s.start);
    OpenAgain(q, s, n, p);
    AcceptedAgain(q, s, n, p);
    assert Overbooking.PassesAs(Reread(q, n, p), Iso(s.start), None, p, ToCreate(p.start, p.end));
  }

  lemma PassIsStep(ev: Event, k: nat, db: Db, q: SlotQuery, s: Session, p: Placement, lo: nat, hi: nat)
    requires Fillable(ev, db, q, s, p) && lo <= hi < lo + k && lo < s.capacity
    ensures StepOf(ev, k)(Moment(db, lo, hi, p), Moment(db, lo, hi + 1, p))
  {
    PassesAgain(ev, db, q, s, p, lo);
    EnterMoment(k, db, lo, hi, p);
    ReadIsStep(ev, k, Moment(db, lo, hi, p), Moment(db, lo, hi + 1, p), hi, Reread(q, lo, p), p,
      ToCreate(p.start, p.end));
  }

  lemma ReadIsStep(ev: Event, k: nat, s: State, s': State, r: RequestId, q: SlotQuery, p: Placement, x: Passed)
    requires Read(ev, s.db, q, p, x) && Enters(k, s, s', r, x)
    ensures StepOf(ev, k)(s, s')
  {
    assert ReadStep(ev, k, s, s', r, q, p, x);
  }

  lemma ReadsAllowed(ev: Event, k: nat, db: Db, q: SlotQuery, s: Session, p: Placement, room: nat)
    requires Fillable(ev, db, q, s, p) && room == s.capacity
    ensures AllReads(StepOf(ev, k), MomentAt(db, p), room, k)
  {
    forall lo: nat, hi: nat | lo <= hi < lo + k && lo < room ensures ReadsOne(StepOf(ev, k), MomentAt(db, p), lo, hi) {
      PassIsStep(ev, k, db, q, s, p, lo, hi);
    }
  }

  // ---------- The bound ----------

  lemma OnSeat(s: Session, p: Placement)
    requires ManualSchedule.Lasts(s) && p.start == s.start && p.end == ManualSchedule.SeatEnd(s)
    ensures Seat(s)(p.start, p.end)
  {
    ManualSchedule.RoundedEnd(s.start, s.end);
  }

  // Any session on the timetable that a request can ask for comes to be
  // overlapped by all its places and k - 1 bookings more.
  lemma SessionBoundIsMet(ev: Event, k: nat, db: Db, q: SlotQuery, s: Session, p: Placement) returns (run: seq<State>)
    requires Fillable(ev, db, q, s, p) && k >= 1 && s.capacity >= 1
    ensures Run(ev, k, run) && run[0].db == db
    ensures ManualSchedule.CountOverlap(Last(run).db, s.start, s.end) == Max(0, s.capacity) + k - 1
  {
    ReadsAllowed(ev, k, db, q, s, p, s.capacity);
    OnSeat(s, p);
    run := FilledRun(StepOf(ev, k), db, p, Seat(s), s.capacity, k, s.capacity + k - 1);
    OccupantsAreCounted(Last(run).db, s);
  }
}
