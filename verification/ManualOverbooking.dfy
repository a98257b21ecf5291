// How far concurrent requests can overbook the sessions of a MANUAL event.
module ManualOverbooking {
  import opened Results
  import opened Time
  import opened Models
  import opened Availability
  import opened SlotTheory
  import opened Store
  import opened Handlers
  import opened Interleaving
  import opened Runs
  import ManualSchedule
  import Overbooking

  // ---------- Steps ----------

  // The availability read and the time guards of a request.
  ghost predicate Read(ev: Event, db: Db, q: SlotQuery, p: Placement, x: Passed) {
    && ReadsFor(q, db, ev)
    && exists time, kept: Option<string> :: Overbooking.PassesAs(q, time, kept, p, x)
  }

  ghost predicate ReadStep(ev: Event, k: nat, s: State, s': State, r: RequestId, q: SlotQuery, p: Placement,
    x: Passed) {
    Read(ev, s.db, q, p, x) && Enters(k, s, s', r, x)
  }

  ghost predicate Step(ev: Event, k: nat, s: State, s': State) {
    (exists r, q, p, x :: ReadStep(ev, k, s, s', r, q, p, x)) || BlindStep(k, s, s')
  }

  ghost function StepOf(ev: Event, k: nat): (State, State) -> bool {
    (s: State, s': State) => Step(ev, k, s, s')
  }

  // ---------- The invariant ----------

  // What takes up a place of the session.
  function Seat(s: Session): Place {
    (start: Instant, end: Instant) => Overlap(start, end, s.start, s.end)
  }

  ghost function OnSome(sessions: map<SessionId, Session>): Place {
    (start: Instant, end: Instant) => exists id :: id in sessions && ManualSchedule.OnIt(start, end, sessions[id])
  }

  // Sessions that last, apart from each other, on their dates.
  ghost predicate Timetable(ev: Event, db: Db) {
    ev.schedule == Manual && ManualSchedule.SessionsApart(db) && ManualSchedule.AllVisible(ev.zone, db)
  }

  ghost predicate WithinBound(k: nat, s: State, id: SessionId)
    requires id in s.db.sessions
  {
    Load(s, Seat(s.db.sessions[id])) <= Max(0, s.db.sessions[id].capacity) + k - 1
  }

  ghost predicate Inv(ev: Event, k: nat, s: State) {
    && Timetable(ev, s.db) && AllTimes(OnSome(s.db.sessions), s) && |s.passed| <= k
    && forall id :: id in s.db.sessions ==> WithinBound(k, s, id)
  }

  // ---------- Reads ----------

  // The start that was asked for, until the end of its session.
  ghost predicate OnSchedule(q: SlotQuery, time: RequestedTime, p: Placement) {
    && BoundsOf(q.event.zone, q.date).Some?
    && StartOf(q, time) == Some(p.start) && ListsStart(q, p.start)
    && (SessionFor(q, p.start).Some? ==> ManualSchedule.EndsWith(p.start, p.end, SessionFor(q, p.start).value))
  }

  lemma CreateEnds(q: SlotQuery, time: RequestedTime, p: Placement)
    requires q.event.schedule == Manual && CreateTime(q, time) == Ok(p)
    ensures OnSchedule(q, time, p)
  {
  }

  lemma MoveEnds(q: SlotQuery, time: RequestedTime, p: Placement)
    requires q.event.schedule == Manual && RescheduleTime(q, time) == Ok(p)
    ensures OnSchedule(q, time, p)
  {
  }

  lemma EditEnds(q: SlotQuery, time: RequestedTime, kept: Option<string>, p: Placement)
    requires q.event.schedule == Manual && UpdateTime(q, time, kept) == Ok(p)
    ensures OnSchedule(q, time, p)
  {
  }

  lemma AcceptedEnds(q: SlotQuery, time: RequestedTime, kept: Option<string>, p: Placement)
    requires q.event.schedule == Manual && Overbooking.Accepts(q, time, kept, p)
    ensures OnSchedule(q, time, p)
  {
    if CreateTime(q, time) == Ok(p) {
      CreateEnds(q, time, p);
    } else if RescheduleTime(q, time) == Ok(p) {
      MoveEnds(q, time, p);
    } else {
      EditEnds(q, time, kept, p);
    }
  }

  lemma AllSeated(ev: Event, k: nat, s: State)
    requires AllTimes(OnSome(s.db.sessions), s)
    ensures ManualSchedule.Seated(s.db)
  {
    forall id | id in s.db.bookings && Live(s.db.bookings[id])
      ensures ManualSchedule.OnSession(s.db, s.db.bookings[id])
    {
      var b := s.db.bookings[id];
      assert OnSome(s.db.sessions)(b.start, b.end);
      var t :| t in s.db.sessions && ManualSchedule.OnIt(b.start, b.end, s.db.sessions[t]);
      assert ManualSchedule.Attends(b, s.db.sessions[t]);
    }
  }

  lemma OccupantsAreCounted(db: Db, s: Session)
    ensures |Occupants(db, Seat(s))| == ManualSchedule.CountOverlap(db, s.start, s.end)
  {
    assert Occupants(db, Seat(s)) == ManualSchedule.OverlapIds(db, s.start, s.end);
  }

  // An accepted start is that of a session with a place left.
  lemma ReadSeesPlace(ev: Event, k: nat, s: State, q: SlotQuery, p: Placement, x: Passed) returns (sid: SessionId)
    requires Inv(ev, k, s) && Read(ev, s.db, q, p, x)
    ensures sid in s.db.sessions && ManualSchedule.OnIt(x.start, x.end, s.db.sessions[sid])
    ensures |Occupants(s.db, Seat(s.db.sessions[sid]))| < s.db.sessions[sid].capacity
  {
    var time, kept: Option<string> :| Overbooking.PassesAs(q, time, kept, p, x);
    Overbooking.PassedAccepts(q, time, kept, p, x);
    AcceptedEnds(q, time, kept, p);
    ManualSchedule.ManualAcceptance(q, time);
    sid := ManualSchedule.AcceptedHasPlace(s.db, q, p.start);
    ManualSchedule.PlacedOnIt(p.start, p.end, s.db.sessions[sid]);
    AllSeated(ev, k, s);
    ManualSchedule.OverlapIsAttendance(s.db, sid);
    OccupantsAreCounted(s.db, s.db.sessions[sid]);
  }

  // What is on one session meets no other.
  lemma OtherSeat(db: Db, start: Instant, end: Instant, i: SessionId, j: SessionId)
    requires ManualSchedule.SessionsApart(db) && i in db.sessions && j in db.sessions && i != j
    requires ManualSchedule.OnIt(start, end, db.sessions[i])
    ensures !Seat(db.sessions[j])(start, end)
  {
  }

  lemma EntryKeepsInv(ev: Event, k: nat, s: State, s': State, r: RequestId, x: Passed, sid: SessionId)
    requires Inv(ev, k, s) && Enters(k, s, s', r, x)
    requires sid in s.db.sessions && ManualSchedule.OnIt(x.start, x.end, s.db.sessions[sid])
    requires |Occupants(s.db, Seat(s.db.sessions[sid]))| < s.db.sessions[sid].capacity
    ensures Inv(ev, k, s')
  {
    assert OnSome(s.db.sessions)(x.start, x.end);
    EnterTimes(OnSome(s.db.sessions), k, s, s', r, x);
    EnterSize(k, s, s', r, x);
    forall j | j in s'.db.sessions ensures WithinBound(k, s', j) {
      assert WithinBound(k, s, j);
      if j != sid {
        OtherSeat(s.db, x.start, x.end, sid, j);
      }
      PassKeepsBound(k, s, s', r, x, Seat(s.db.sessions[j]), Max(0, s.db.sessions[j].capacity));
    }
  }

  lemma BlindKeepsInv(ev: Event, k: nat, s: State, s': State)
    requires Inv(ev, k, s) && BlindStep(k, s, s')
    ensures Inv(ev, k, s') && s'.db.sessions == s.db.sessions
  {
    BlindKeeps(k, OnSome(s.db.sessions), s, s');
    forall j | j in s'.db.sessions ensures WithinBound(k, s', j) {
      assert WithinBound(k, s, j);
    }
  }

  lemma StepKeepsInv(ev: Event, k: nat, s: State, s': State)
    requires Inv(ev, k, s) && Step(ev, k, s, s')
    ensures Inv(ev, k, s') && s'.db.sessions == s.db.sessions
  {
    if r, q, p, x :| ReadStep(ev, k, s, s', r, q, p, x) {
      var sid := ReadSeesPlace(ev, k, s, q, p, x);
      EntryKeepsInv(ev, k, s, s', r, x, sid);
    } else {
      BlindKeepsInv(ev, k, s, s');
    }
  }

  // ---------- Runs ----------

  ghost predicate Run(ev: Event, k: nat, run: seq<State>) {
    run != [] && Overbooking.Start(run[0]) && Timetable(ev, run[0].db) && Chain(StepOf(ev, k), run)
  }

  lemma StartHasInv(ev: Event, k: nat, s: State)
    requires k >= 1 && Overbooking.Start(s) && Timetable(ev, s.db)
    ensures Inv(ev, k, s)
  {
    forall j | j in s.db.sessions ensures WithinBound(k, s, j) {
      LoadAtMost(s, Seat(s.db.sessions[j]));
      assert Occupants(s.db, Seat(s.db.sessions[j])) == {};
    }
  }

  lemma {:induction false} RunKeepsInv(ev: Event, k: nat, run: seq<State>, n: nat)
    requires k >= 1 && Run(ev, k, run) && n < |run|
    ensures Inv(ev, k, run[n]) && run[n].db.sessions == run[0].db.sessions
  {
    if n == 0 {
      StartHasInv(ev, k, run[0]);
    } else {
      RunKeepsInv(ev, k, run, n - 1);
      assert StepOf(ev, k)(run[n - 1], run[n]);
      StepKeepsInv(ev, k, run[n - 1], run[n]);
    }
  }

  // With at most k requests between their read and their write, no session
  // ever has more than k - 1 live bookings above its places.
  lemma SessionOverbookingBound(ev: Event, k: nat, run: seq<State>, n: nat, id: SessionId)
    requires k >= 1 && Run(ev, k, run) && n < |run| && id in run[0].db.sessions
    ensures var s := run[0].db.sessions[id];
            ManualSchedule.CountOverlap(run[n].db, s.start, s.end) <= Max(0, s.capacity) + k - 1
  {
    RunKeepsInv(ev, k, run, n);
    assert WithinBound(k, run[n], id);
    OccupantsHold(run[n], Seat(run[n].db.sessions[id]));
    OccupantsAreCounted(run[n].db, run[n].db.sessions[id]);
  }
}
