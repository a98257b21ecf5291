// Serial handler calls on a RECURRING event, as runs of the machine in which
// requests read first and write later.
module SerialBookings {
  import opened Results
  import opened Time
  import opened Models
  import opened Availability
  import opened SlotTheory
  import opened Store
  import opened Handlers
  import opened Interleaving
  import opened Overbooking
  import opened Runs
  import Reminders

  function Idle(db: Db): State {
    State(db, map[])
  }

  // Two steps of the machine, from idle to idle.
  ghost predicate TwoSteps(ev: Event, db: Db, after: Db) {
    exists mid :: StepOf(ev, 1)(Idle(db), mid) && StepOf(ev, 1)(mid, Idle(after))
  }

  // The only request has read.
  function Alone(db: Db, x: Passed): State {
    State(db, map[0 := x])
  }

  lemma EntersAlone(db: Db, x: Passed)
    ensures Enters(1, Idle(db), Alone(db, x), 0, x)
  {
    assert map[0 := x] == Idle(db).passed[0 := x];
  }

  lemma ReadIsStep(ev: Event, db: Db, q: SlotQuery, time: RequestedTime, kept: Option<string>, p: Placement, x: Passed)
    requires ReadsFor(q, db, ev) && PassesAs(q, time, kept, p, x)
    ensures StepOf(ev, 1)(Idle(db), Alone(db, x))
  {
    assert Read(ev, db, q, p, x);
    PassedIsStep(ev, db, q, p, x);
  }

  lemma PassedIsStep(ev: Event, db: Db, q: SlotQuery, p: Placement, x: Passed)
    requires Read(ev, db, q, p, x)
    ensures StepOf(ev, 1)(Idle(db), Alone(db, x))
  {
    EntersAlone(db, x);
    assert ReadStep(ev, 1, Idle(db), Alone(db, x), 0, q, p, x);
  }

  lemma EditReadIsStep(ev: Event, db: Db, id: BookingId)
    requires id in db.bookings && Live(db.bookings[id])
    ensures StepOf(ev, 1)(Idle(db), Alone(db, ToEdit(id, db.bookings[id].start, db.bookings[id].end)))
  {
    var x := ToEdit(id, db.bookings[id].start, db.bookings[id].end);
    EntersAlone(db, x);
    assert EditStep(1, Idle(db), Alone(db, x), 0, id);
    assert BlindStep(1, Idle(db), Alone(db, x));
  }

  lemma CreateWriteIsStep(ev: Event, db: Db, b: Booking, burn: Option<Token>, now: Instant, after: Db)
    requires Commit(db, b, burn, now) == Ok((after, b))
    ensures StepOf(ev, 1)(Alone(db, ToCreate(b.start, b.end)), Idle(after))
  {
    var s, jobs := Alone(db, ToCreate(b.start, b.end)), CreationJobs(db.eventRules, b, now, db.nextId + 1);
    assert CreateStep(s, Idle(after), 0, b, burn, jobs) by {
      CommitIsCreate(db, b, burn, jobs, now, after);
      assert s.passed - {0} == map[];
    }
    assert BlindStep(1, s, Idle(after));
  }

  lemma CommitIsCreate(db: Db, b: Booking, burn: Option<Token>, jobs: seq<Job>, now: Instant, after: Db)
    requires Commit(db, b, burn, now) == Ok((after, b)) && jobs == CreationJobs(db.eventRules, b, now, db.nextId + 1)
    ensures CreateWithToken(db, b, burn, jobs).Ok? && SameRows(CreateWithToken(db, b, burn, jobs).value, after)
  {
  }

  lemma MoveWriteIsStep(ev: Event, db: Db, b: Booking, x: Passed, after: Db)
    requires UpdateRow(db, b).Ok? && SameRows(UpdateRow(db, b).value, after)
    requires x == ToMove(b.id, b.start, b.end) || x == ToEdit(b.id, b.start, b.end)
    ensures StepOf(ev, 1)(Alone(db, x), Idle(after))
  {
    var s := Alone(db, x);
    assert s.passed - {0} == map[];
    assert MoveStep(s, Idle(after), 0, b);
    assert BlindStep(1, s, Idle(after));
  }

  // The placement and the write behind an accepted request.
  lemma CreatePlaced(db: Db, q: SlotQuery, req: CreateRequest, after: Db, b: Booking) returns (p: Placement)
    requires CreateBooking(db, q, req) == Ok((after, b))
    ensures CreateTime(q, req.time) == Ok(p) && p.start == b.start && p.end == b.end
  {
    p := CreateTime(q, req.time).value;
  }

  lemma CreateIsTwoSteps(ev: Event, db: Db, q: SlotQuery, req: CreateRequest, after: Db, b: Booking)
    requires ReadsFor(q, db, ev) && CreateBooking(db, q, req) == Ok((after, b))
    ensures TwoSteps(ev, db, after)
  {
    var p := CreatePlaced(db, q, req, after, b);
    var burn := Reminders.CreateIsCommit(db, q, req, after, b);
    ReadIsStep(ev, db, q, req.time, None, p, ToCreate(b.start, b.end));
    CreateWriteIsStep(ev, db, b, burn, q.now, after);
  }

  lemma ReschedulePlaced(db: Db, q: SlotQuery, id: BookingId, time: RequestedTime, after: Db,
      b: Booking) returns (p: Placement)
    requires id in db.bookings && db.bookings[id].id == id && RescheduleBooking(db, q, id, time) == Ok((after, b))
    ensures RescheduleTime(q, time) == Ok(p) && p.start == b.start && p.end == b.end
    ensures b.id == id && UpdateRow(db, b).Ok? && SameRows(UpdateRow(db, b).value, after)
  {
    p := RescheduleTime(q, time).value;
  }

  lemma RescheduleIsTwoSteps(ev: Event, db: Db, q: SlotQuery, id: BookingId, time: RequestedTime, after: Db, b: Booking)
    requires id in db.bookings && db.bookings[id].id == id
    requires ReadsFor(q, db, ev) && RescheduleBooking(db, q, id, time) == Ok((after, b))
    ensures TwoSteps(ev, db, after)
  {
    var p := ReschedulePlaced(db, q, id, time, after, b);
    ReadIsStep(ev, db, q, time, None, p, ToMove(id, b.start, b.end));
    MoveWriteIsStep(ev, db, b, ToMove(id, b.start, b.end), after);
  }

  lemma EditPlaced(db: Db, q: SlotQuery, id: BookingId, req: UpdateRequest, after: Db, b: Booking)
    requires id in db.bookings && db.bookings[id].id == id && UpdateBooking(db, q, id, req) == Ok((after, b))
    ensures b.id == id && UpdateRow(db, b) == Ok(after)
    ensures req.when.None? ==> b.start == db.bookings[id].start && b.end == db.bookings[id].end
    ensures req.when.Some? ==>
              var p := UpdateTime(q, req.when.value.1, db.bookings[id].location);
              p.Ok? && p.value.start == b.start && p.value.end == b.end
  {
  }

  lemma EditIsSteps(ev: Event, db: Db, q: SlotQuery, id: BookingId, req: UpdateRequest, after: Db, b: Booking)
    requires id in db.bookings && db.bookings[id].id == id
    requires ReadsFor(q, db, ev) && UpdateBooking(db, q, id, req) == Ok((after, b))
    ensures TwoSteps(ev, db, after)
  {
    EditPlaced(db, q, id, req, after, b);
    if req.when.Some? {
      var p := UpdateTime(q, req.when.value.1, db.bookings[id].location).value;
      ReadIsStep(ev, db, q, req.when.value.1, db.bookings[id].location, p, ToMove(id, b.start, b.end));
      MoveWriteIsStep(ev, db, b, ToMove(id, b.start, b.end), after);
    } else if Live(db.bookings[id]) {
      EditReadIsStep(ev, db, id);
      MoveWriteIsStep(ev, db, b, ToEdit(id, b.start, b.end), after);
    } else {
      ReleaseIsSteps(ev, db, after, b);
    }
  }

  lemma NothingIsStep(ev: Event, db: Db, after: Db)
    requires SameRows(db, after)
    ensures StepOf(ev, 1)(Idle(db), Idle(after))
  {
  }

  lemma ReleaseIsSteps(ev: Event, db: Db, after: Db, b: Booking)
    requires ReleaseStep(Idle(db), Idle(after), b)
    ensures TwoSteps(ev, db, after)
  {
    NothingIsStep(ev, after, after);
    assert BlindStep(1, Idle(db), Idle(after));
    assert StepOf(ev, 1)(Idle(db), Idle(after));
  }

  // ---------- Runs ----------

  // A call that succeeds, or one that leaves bookings and overrides alone.
  datatype Call =
    | Create(q: SlotQuery, req: CreateRequest)
    | Reschedule(q: SlotQuery, id: BookingId, time: RequestedTime)
    | Edit(q: SlotQuery, id: BookingId, edit: UpdateRequest)
    | Cancel(id: BookingId, now: Instant)
    | Delete(id: BookingId)
    | Other

  ghost predicate HandlerStep(ev: Event, db: Db, after: Db, call: Call) {
    match call
    case Create(q, req) => ReadsFor(q, db, ev) && exists b :: CreateBooking(db, q, req) == Ok((after, b))
    case Reschedule(q, id, time) =>
      ReadsFor(q, db, ev) && id in db.bookings && exists b :: RescheduleBooking(db, q, id, time) == Ok((after, b))
    case Edit(q, id, edit) =>
      ReadsFor(q, db, ev) && id in db.bookings && exists b :: UpdateBooking(db, q, id, edit) == Ok((after, b))
    case Cancel(id, now) => id in db.bookings && exists b :: CancelBooking(db, ev, id, now) == Ok((after, b))
    case Delete(id) => DeleteRow(db, id) == Ok(after)
    case Other => SameRows(db, after)
  }

  lemma CancelIsSteps(ev: Event, db: Db, after: Db, id: BookingId, now: Instant, b: Booking)
    requires RowsKeyed(db) && id in db.bookings && CancelBooking(db, ev, id, now) == Ok((after, b))
    ensures TwoSteps(ev, db, after)
  {
    if db.bookings[id].status == Cancelled {
      NothingIsStep(ev, db, db);
    } else {
      CancelReleases(ev, db, after, id, now, b);
      ReleaseIsSteps(ev, db, after, db.bookings[id]);
    }
  }

  lemma CancelReleases(ev: Event, db: Db, after: Db, id: BookingId, now: Instant, b: Booking)
    requires RowsKeyed(db) && id in db.bookings && Live(db.bookings[id])
               && CancelBooking(db, ev, id, now) == Ok((after, b))
    ensures ReleaseStep(Idle(db), Idle(after), db.bookings[id])
  {
  }

  // Every handler call is at most two steps of the machine with one request
  // at a time.
  lemma HandlerIsTwoSteps(ev: Event, db: Db, after: Db, call: Call)
    requires RowsKeyed(db) && HandlerStep(ev, db, after, call)
    ensures TwoSteps(ev, db, after)
  {
    match call
    case Create(q, req) =>
      var b :| CreateBooking(db, q, req) == Ok((after, b));
      CreateIsTwoSteps(ev, db, q, req, after, b);
    case Reschedule(q, id, time) =>
      var b :| RescheduleBooking(db, q, id, time) == Ok((after, b));
      RescheduleIsTwoSteps(ev, db, q, id, time, after, b);
    case Edit(q, id, edit) =>
      var b :| UpdateBooking(db, q, id, edit) == Ok((after, b));
      EditIsSteps(ev, db, q, id, edit, after, b);
    case Cancel(id, now) =>
      var b :| CancelBooking(db, ev, id, now) == Ok((after, b));
      CancelIsSteps(ev, db, after, id, now, b);
    case Delete(id) => ReleaseIsSteps(ev, db, after, db.bookings[id]);
    case Other =>
      NothingIsStep(ev, db, after);
      NothingIsStep(ev, after, after);
  }

  ghost function HandlerStepOf(ev: Event): (Db, Db, Call) -> bool {
    (db: Db, after: Db, call: Call) => HandlerStep(ev, db, after, call)
  }

  // Handler calls one after the other, from tables without live bookings.
  ghost predicate SerialRun(ev: Event, run: seq<Db>, calls: seq<Call>) {
    Trace(HandlerStepOf(ev), run, calls) && Start(Idle(run[0]))
  }

  lemma TwoStepsKeepInv(ev: Event, db: Db, after: Db, d: Date, i: int)
    requires Inv(ev, 1, Idle(db), d, i) && TwoSteps(ev, db, after)
    requires ev.zone.Steady(d) && Countable(ev, db.overrides, d, i)
    ensures Inv(ev, 1, Idle(after), d, i) && after.overrides == db.overrides
  {
    var mid :| StepOf(ev, 1)(Idle(db), mid) && StepOf(ev, 1)(mid, Idle(after));
    StepKeepsInv(ev, 1, Idle(db), mid, d, i);
    StepKeepsInv(ev, 1, mid, Idle(after), d, i);
  }

  ghost function IdleInv(ev: Event, overrides: seq<Override>, d: Date, i: int): Db -> bool {
    (db: Db) => Inv(ev, 1, Idle(db), d, i) && db.overrides == overrides
  }

  lemma CallKeepsInv(ev: Event, db: Db, after: Db, call: Call, d: Date, i: int)
    requires Inv(ev, 1, Idle(db), d, i) && HandlerStep(ev, db, after, call)
    requires ev.zone.Steady(d) && Countable(ev, db.overrides, d, i)
    ensures Inv(ev, 1, Idle(after), d, i) && after.overrides == db.overrides
  {
    HandlerIsTwoSteps(ev, db, after, call);
    TwoStepsKeepInv(ev, db, after, d, i);
  }

  lemma CallsKeepInv(ev: Event, overrides: seq<Override>, d: Date, i: int)
    requires ev.zone.Steady(d) && Countable(ev, overrides, d, i)
    ensures Keeps(IdleInv(ev, overrides, d, i), HandlerStepOf(ev))
  {
    forall db, after, call | IdleInv(ev, overrides, d, i)(db) && HandlerStepOf(ev)(db, after, call)
      ensures IdleInv(ev, overrides, d, i)(after)
    {
      CallKeepsInv(ev, db, after, call, d, i);
    }
  }

  // Over every serial run of the handlers, for whatever dates, no minute of a
  // date with one offset holds more bookings than the largest capacity of a
  // window covering it, but for those that spill into the date.
  lemma HandlersRespectCapacity(ev: Event, run: seq<Db>, calls: seq<Call>, n: nat, d: Date, i: int)
    requires SerialRun(ev, run, calls) && n < |run|
    requires ev.zone.Steady(d) && Countable(ev, run[0].overrides, d, i)
    ensures |Occupants(run[n], MinuteOf(DayOf(ev.zone, d), i))|
            <= Peak(ev, run[0].overrides, d, i) + |Spilled(ev.zone, run[n], d, i)|
    ensures (forall id :: id in run[n].bookings && Live(run[n].bookings[id]) ==>
              Contained(ev.zone, run[n].bookings[id].start, run[n].bookings[id].end)) ==>
              |Occupants(run[n], MinuteOf(DayOf(ev.zone, d), i))| <= Peak(ev, run[0].overrides, d, i)
  {
    StartHasInv(ev, 1, Idle(run[0]), d, i);
    CallsKeepInv(ev, run[0].overrides, d, i);
    Invariant(IdleInv(ev, run[0].overrides, d, i), HandlerStepOf(ev), run, calls, n);
    InvBounds(ev, 1, Idle(run[n]), d, i);
    if forall id :: id in run[n].bookings && Live(run[n].bookings[id]) ==>
         Contained(ev.zone, run[n].bookings[id].start, run[n].bookings[id].end) {
      NothingSpills(ev.zone, run[n], d, i);
    }
  }
}
