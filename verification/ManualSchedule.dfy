// MANUAL events: the session handlers of src/api/handlers/session.rs and the
// capacity of sessions over serial runs.
module ManualSchedule {
  import opened Results
  import opened Time
  import opened Models
  import opened Counting
  import opened Availability
  import opened SlotTheory
  import opened Store
  import opened Handlers
  import opened Runs

  // ---------- The session handlers ----------

  // Unparsable fields are None.
  datatype SessionRequest = SessionRequest(
    date: Option<Date>, start: Option<ClockMinute>, end: Option<ClockMinute>, capacity: int)

  // `find_overlap` has an answer.
  predicate Crosses(db: Db, start: Instant, end: Instant) {
    exists id :: id in db.sessions && Overlap(db.sessions[id].start, db.sessions[id].end, start, end)
  }

  function CreateSession(db: Db, ev: Event, req: SessionRequest): Result<(Db, Session)> {
    if ev.schedule != Manual then Err(Validation)
    else if req.date.None? || req.start.None? || req.end.None? then Err(Validation)
    else if req.end.value <= req.start.value then Err(Validation)
    else
      var start := ev.zone.Single(ClockTime(req.date.value, req.start.value));
      var end := ev.zone.Single(ClockTime(req.date.value, req.end.value));
      if start.None? || end.None? then Err(Validation)
      else if Crosses(db, start.value, end.value)
      then Err(Conflict)
      else
        var s := Session.Session(db.nextId, start.value, end.value, req.capacity, None, None);
        Ok((db.(sessions := db.sessions[s.id := s], nextId := db.nextId + 1), s))
  }

  // `count_overlap`
  function CountOverlap(db: Db, start: Instant, end: Instant): nat {
    |OverlapIds(db, start, end)|
  }

  function OverlapIds(db: Db, start: Instant, end: Instant): set<BookingId> {
    set id | id in db.bookings && Listed(db.bookings[id], start, end)
  }

  lemma NoneOverlaps(db: Db, start: Instant, end: Instant)
    ensures CountOverlap(db, start, end) == 0 <==>
              forall id :: id in db.bookings ==> !Listed(db.bookings[id], start, end)
  {
    var ids := OverlapIds(db, start, end);
    assert |ids| == 0 <==> ids == {};
    if id :| id in db.bookings && Listed(db.bookings[id], start, end) {
      assert id in ids;
    }
  }

  datatype SessionEdit = SessionEdit(capacity: Option<int>, location: Option<string>, host: Option<string>)

  function UpdateSession(db: Db, id: SessionId, edit: SessionEdit): Result<(Db, Session)> {
    if id !in db.sessions then Err(NotFound)
    else
      var s := db.sessions[id];
      if edit.capacity.Some? && CountOverlap(db, s.start, s.end) > edit.capacity.value then Err(Conflict)
      else
        var t := s.(
          capacity := if edit.capacity.Some? then edit.capacity.value else s.capacity,
          location := EditText(s.location, edit.location),
          host := EditText(s.host, edit.host));
        Ok((db.(sessions := db.sessions[id := t]), t))
  }

  function DeleteSession(db: Db, id: SessionId): Result<Db> {
    if id !in db.sessions then Err(NotFound)
    else if CountOverlap(db, db.sessions[id].start, db.sessions[id].end) > 0 then Err(Conflict)
    else Ok(db.(sessions := db.sessions - {id}))
  }

  // ---------- The invariant ----------

  // The session lasts at least a minute, so that bookings on it have a length.
  predicate Lasts(s: Session) {
    s.start + Minutes(1) <= s.end
  }

  // The end of the session cut down to whole minutes, as creation does it.
  function SeatEnd(s: Session): Instant {
    s.start + Minutes(MinutesBetween(s.start, s.end))
  }

  // An interval on the session: all of it, but for the fraction of a minute
  // that creation may cut off.
  predicate OnIt(start: Instant, end: Instant, s: Session) {
    start == s.start && start < end && SeatEnd(s) <= end <= s.end
  }

  predicate Attends(b: Booking, s: Session) {
    OnIt(b.start, b.end, s)
  }

  function Attendees(db: Db, s: Session): set<BookingId> {
    set id | id in db.bookings && Live(db.bookings[id]) && Attends(db.bookings[id], s)
  }

  ghost predicate SessionsKeyed(db: Db) {
    RowsKeyed(db) && forall id :: id in db.sessions ==> db.sessions[id].id == id && id < db.nextId
  }

  // Sessions last and never meet.
  ghost predicate SessionsApart(db: Db) {
    && (forall id :: id in db.sessions ==> Lasts(db.sessions[id]))
    && (forall i, j :: i in db.sessions && j in db.sessions && i != j ==>
          !Overlap(db.sessions[i].start, db.sessions[i].end, db.sessions[j].start, db.sessions[j].end))
  }

  ghost predicate OnSession(db: Db, b: Booking) {
    exists id :: id in db.sessions && Attends(b, db.sessions[id])
  }

  ghost predicate Seated(db: Db) {
    forall id :: id in db.bookings && Live(db.bookings[id]) ==> OnSession(db, db.bookings[id])
  }

  ghost predicate NoneFull(db: Db) {
    forall id :: id in db.sessions ==> |Attendees(db, db.sessions[id])| <= Max(0, db.sessions[id].capacity)
  }

  ghost predicate Attended(db: Db) {
    Seated(db) && NoneFull(db)
  }

  ghost predicate Inv(db: Db) {
    SessionsKeyed(db) && SessionsApart(db) && Attended(db)
  }

  // Where the read of its date lists the session, it lists the bookings that
  // creation puts on it.
  predicate Visible(zone: TimeZone, s: Session) {
    var day := BoundsOf(zone, DateOf(zone.Local(s.start)));
    day.Some? && Overlap(s.start, s.end, day.value.start, day.value.end) ==>
      Overlap(s.start, SeatEnd(s), day.value.start, day.value.end)
  }

  // What a new session must be.
  predicate Sound(zone: TimeZone, s: Session) {
    Lasts(s) && Visible(zone, s)
  }

  ghost predicate AllVisible(zone: TimeZone, db: Db) {
    forall id :: id in db.sessions ==> Visible(zone, db.sessions[id])
  }

  // ---------- Facts about one state ----------

  // A start time names at most one session.
  lemma StartNamesSession(db: Db, i: SessionId, j: SessionId)
    requires SessionsApart(db) && i in db.sessions && j in db.sessions && db.sessions[i].start == db.sessions[j].start
    ensures i == j
  {
  }

  // The live bookings that overlap a session are those that attend it.
  lemma OverlapIsAttendance(db: Db, id: SessionId)
    requires SessionsApart(db) && Seated(db) && id in db.sessions
    ensures CountOverlap(db, db.sessions[id].start, db.sessions[id].end) == |Attendees(db, db.sessions[id])|
  {
    var s := db.sessions[id];
    forall b | b in db.bookings
      ensures Listed(db.bookings[b], s.start, s.end) <==> Live(db.bookings[b]) && Attends(db.bookings[b], s)
    {
      if Live(db.bookings[b]) {
        var t :| t in db.sessions && Attends(db.bookings[b], db.sessions[t]);
        assert t != id ==> !Overlap(db.sessions[t].start, db.sessions[t].end, s.start, s.end);
      }
    }
    assert Attendees(db, s) == OverlapIds(db, s.start, s.end);
  }

  // Whoever attends a listed session of the date is listed.
  lemma AttendeeListed(zone: TimeZone, d: Date, day: DayBounds, s: Session, b: Booking)
    requires BoundsOf(zone, d) == Some(day) && DateOf(zone.Local(s.start)) == d && Visible(zone, s)
    requires Overlap(s.start, s.end, day.start, day.end) && Attends(b, s)
    ensures Overlap(b.start, b.end, day.start, day.end) && Overlapping(s)(b)
  {
  }

  // The session found for an accepted start is in the table and has a place
  // left.
  lemma AcceptedHasPlace(db: Db, q: SlotQuery, t: Instant) returns (id: SessionId)
    requires RowsKeyed(db) && SessionsApart(db) && AllVisible(q.event.zone, db)
    requires Reads(q, db) && q.event.schedule == Manual && q.ManualSlot(t)
    ensures id in db.sessions && SessionFor(q, t) == Some(db.sessions[id]) && db.sessions[id].start == t
    ensures |Attendees(db, db.sessions[id])| < db.sessions[id].capacity
  {
    var s :| s in q.sessions.value && q.Open(s) && s.start == t;
    id := s.id;
    StartNamesSession(db, s.id, SessionFor(q, t).value.id);
    OpenHasPlace(db, q, s);
  }

  lemma OpenHasPlace(db: Db, q: SlotQuery, s: Session)
    requires RowsKeyed(db) && Reads(q, db) && q.event.schedule == Manual && s in q.sessions.value && q.Open(s)
    requires Visible(q.event.zone, s)
    ensures |Attendees(db, s)| < s.capacity
  {
    var day := BoundsOf(q.event.zone, q.date).value;
    CountListing(Overlapping(s), q.rows, db.bookings, day.start, day.end);
    forall b | b in Attendees(db, s) ensures b in ListedIds(Overlapping(s), db.bookings, day.start, day.end) {
      AttendeeListed(q.event.zone, q.date, day, s, db.bookings[b]);
    }
    SubsetSize(Attendees(db, s), ListedIds(Overlapping(s), db.bookings, day.start, day.end));
  }

  // ---------- Changes to one booking ----------

  // Row `id` is new or changed, nothing else.
  ghost predicate OneRow(db: Db, after: Db, id: BookingId) {
    && after.sessions == db.sessions && after.nextId >= db.nextId
    && after.bookings.Keys == db.bookings.Keys + {id}
    && (forall j :: j in db.bookings && j != id ==> after.bookings[j] == db.bookings[j])
    && after.bookings[id].id == id
  }

  lemma RowPlaced(db: Db, after: Db, b: Booking)
    requires after.bookings == db.bookings[b.id := b] && after.sessions == db.sessions && after.nextId >= db.nextId
    ensures OneRow(db, after, b.id) && after.bookings[b.id] == b
  {
  }

  lemma PlacedAttendees(db: Db, after: Db, id: BookingId, sid: SessionId, j: SessionId)
    requires SessionsApart(db) && OneRow(db, after, id)
    requires sid in db.sessions && Attends(after.bookings[id], db.sessions[sid]) && j in db.sessions
    ensures |Attendees(after, db.sessions[j])| <= |Attendees(db, db.sessions[j])| + if j == sid then 1 else 0
  {
    var s := db.sessions[j];
    if j == sid {
      OneMoreAttendee(db, after, id, s);
      SubsetSize(Attendees(after, s), Attendees(db, s) + {id});
    } else {
      assert s.start != db.sessions[sid].start;
      OtherAttendees(db, after, id, s);
      SubsetSize(Attendees(after, s), Attendees(db, s));
    }
  }

  lemma OneMoreAttendee(db: Db, after: Db, id: BookingId, s: Session)
    requires OneRow(db, after, id)
    ensures Attendees(after, s) <= Attendees(db, s) + {id}
  {
  }

  lemma OtherAttendees(db: Db, after: Db, id: BookingId, s: Session)
    requires OneRow(db, after, id) && !Attends(after.bookings[id], s)
    ensures Attendees(after, s) <= Attendees(db, s)
  {
  }

  lemma PlacedOnSession(db: Db, after: Db, id: BookingId, sid: SessionId, j: BookingId)
    requires Seated(db) && OneRow(db, after, id)
    requires sid in db.sessions && Attends(after.bookings[id], db.sessions[sid])
    requires j in after.bookings && Live(after.bookings[j])
    ensures OnSession(after, after.bookings[j])
  {
    if j != id {
      var t :| t in db.sessions && Attends(db.bookings[j], db.sessions[t]);
      assert Attends(after.bookings[j], after.sessions[t]);
    }
  }

  lemma PlacedSeated(db: Db, after: Db, id: BookingId, sid: SessionId)
    requires Seated(db) && OneRow(db, after, id)
    requires sid in db.sessions && Attends(after.bookings[id], db.sessions[sid])
    ensures Seated(after)
  {
    forall j | j in after.bookings && Live(after.bookings[j]) ensures OnSession(after, after.bookings[j]) {
      PlacedOnSession(db, after, id, sid, j);
    }
  }

  lemma PlacedNoneFull(db: Db, after: Db, id: BookingId, sid: SessionId)
    requires SessionsApart(db) && NoneFull(db) && OneRow(db, after, id)
    requires sid in db.sessions && Attends(after.bookings[id], db.sessions[sid])
    requires |Attendees(db, db.sessions[sid])| < db.sessions[sid].capacity
    ensures NoneFull(after)
  {
    forall j | j in after.sessions ensures |Attendees(after, after.sessions[j])| <= Max(0, after.sessions[j].capacity) {
      PlacedAttendees(db, after, id, sid, j);
    }
  }

  lemma PlacedKeyed(db: Db, after: Db, id: BookingId)
    requires SessionsKeyed(db) && OneRow(db, after, id)
    ensures SessionsKeyed(after)
  {
  }

  lemma PlacedKeepsInv(db: Db, after: Db, id: BookingId, sid: SessionId)
    requires Inv(db) && OneRow(db, after, id)
    requires sid in db.sessions && Attends(after.bookings[id], db.sessions[sid])
    requires |Attendees(db, db.sessions[sid])| < db.sessions[sid].capacity
    ensures Inv(after)
  {
    PlacedKeyed(db, after, id);
    PlacedNoneFull(db, after, id, sid);
    PlacedSeated(db, after, id, sid);
  }

  // Live bookings drop out or keep their times.
  ghost predicate RowsShrink(db: Db, after: Db) {
    && after.sessions == db.sessions && after.nextId >= db.nextId
    && (forall id :: id in after.bookings ==> after.bookings[id].id == id)
    && (forall id :: id in after.bookings && Live(after.bookings[id]) ==>
          && id in db.bookings && Live(db.bookings[id])
          && after.bookings[id].start == db.bookings[id].start && after.bookings[id].end == db.bookings[id].end)
  }

  lemma ShrinkKeepsInv(db: Db, after: Db)
    requires Inv(db) && RowsShrink(db, after)
    ensures Inv(after)
  {
    forall j | j in after.sessions ensures |Attendees(after, after.sessions[j])| <= Max(0, after.sessions[j].capacity) {
      SubsetSize(Attendees(after, after.sessions[j]), Attendees(db, db.sessions[j]));
    }
    forall j | j in after.bookings && Live(after.bookings[j]) ensures OnSession(after, after.bookings[j]) {
      var t :| t in db.sessions && Attends(db.bookings[j], db.sessions[t]);
      assert Attends(after.bookings[j], after.sessions[t]);
    }
  }

  // ---------- The booking handlers ----------

  lemma ManualAcceptance(q: SlotQuery, time: RequestedTime)
    requires q.event.schedule == Manual && StartOf(q, time).Some?
    requires ListsStart(q, StartOf(q, time).value)
    ensures q.ManualSlot(StartOf(q, time).value)
  {
    StartOnDate(q, time);
    ListedExact(q, StartOf(q, time).value);
  }

  lemma CreateKeepsInv(db: Db, q: SlotQuery, req: CreateRequest, after: Db, b: Booking)
    requires Inv(db) && AllVisible(q.event.zone, db)
    requires ReadsFor(q, db, q.event) && q.event.schedule == Manual
    requires CreateBooking(db, q, req) == Ok((after, b))
    ensures Inv(after) && after.sessions == db.sessions
  {
    CreateEffect(db, q, req, after, b);
    RowPlaced(db, after, b);
    PlacedByHandler(db, after, q, req.time, b);
  }

  // The end that a handler gives a booking on the session.
  predicate EndsWith(start: Instant, end: Instant, s: Session) {
    end == s.end || end == start + Minutes(MinutesBetween(start, s.end))
  }

  lemma PlacedOnIt(start: Instant, end: Instant, s: Session)
    requires Lasts(s) && start == s.start && EndsWith(start, end, s)
    ensures OnIt(start, end, s)
  {
    RoundedEnd(s.start, s.end);
  }

  // A row placed at an accepted start, until the end of the session.
  lemma PlacedByHandler(db: Db, after: Db, q: SlotQuery, time: RequestedTime, b: Booking)
    requires Inv(db) && AllVisible(q.event.zone, db) && Reads(q, db) && q.event.schedule == Manual
    requires OneRow(db, after, b.id) && after.bookings[b.id] == b
    requires StartOf(q, time) == Some(b.start) && ListsStart(q, b.start)
    requires SessionFor(q, b.start).Some? ==> EndsWith(b.start, b.end, SessionFor(q, b.start).value)
    ensures Inv(after)
  {
    ManualAcceptance(q, time);
    var sid := AcceptedHasPlace(db, q, b.start);
    PlacedOnIt(b.start, b.end, db.sessions[sid]);
    PlacedKeepsInv(db, after, b.id, sid);
  }

  // Cut down to whole minutes, a length of a minute or more stays positive.
  lemma RoundedEnd(start: Instant, end: Instant)
    requires start + Minutes(1) <= end
    ensures start < start + Minutes(MinutesBetween(start, end)) <= end
    ensures (end - start) % Minutes(1) == 0 ==> start + Minutes(MinutesBetween(start, end)) == end
  {
  }

  lemma RescheduleKeepsInv(db: Db, q: SlotQuery, id: BookingId, time: RequestedTime, after: Db, b: Booking)
    requires Inv(db) && AllVisible(q.event.zone, db)
    requires ReadsFor(q, db, q.event) && q.event.schedule == Manual
    requires id in db.bookings && RescheduleBooking(db, q, id, time) == Ok((after, b))
    ensures Inv(after) && after.sessions == db.sessions
  {
    RescheduleEffect(db, q, id, time, after, b);
    RowPlaced(db, after, b);
    PlacedByHandler(db, after, q, time, b);
  }

  lemma UpdateKeepsInv(db: Db, q: SlotQuery, id: BookingId, req: UpdateRequest, after: Db, b: Booking)
    requires Inv(db) && AllVisible(q.event.zone, db)
    requires ReadsFor(q, db, q.event) && q.event.schedule == Manual
    requires UpdateBooking(db, q, id, req) == Ok((after, b))
    ensures Inv(after) && after.sessions == db.sessions
  {
    UpdateEffect(db, q, id, req, after, b);
    RowPlaced(db, after, b);
    if req.when.Some? {
      PlacedByHandler(db, after, q, req.when.value.1, b);
    } else {
      ShrinkKeepsInv(db, after);
    }
  }

  // ---------- The session handlers ----------

  lemma CreateSessionEffect(db: Db, ev: Event, req: SessionRequest, after: Db, s: Session)
    requires CreateSession(db, ev, req) == Ok((after, s))
    ensures s.id == db.nextId && after == db.(sessions := db.sessions[s.id := s], nextId := db.nextId + 1)
    ensures req.date.Some? && req.start.Some? && req.end.Some? && req.start.value < req.end.value
    ensures ev.zone.Single(ClockTime(req.date.value, req.start.value)) == Some(s.start)
    ensures ev.zone.Single(ClockTime(req.date.value, req.end.value)) == Some(s.end)
    ensures forall id :: id in db.sessions ==> !Overlap(db.sessions[id].start, db.sessions[id].end, s.start, s.end)
  {
  }

  // A session made by the handler keeps the invariants if and only if it
  // lasts a minute and is seen on its date.
  lemma CreateSessionExact(db: Db, ev: Event, req: SessionRequest, after: Db, s: Session)
    requires Inv(db) && AllVisible(ev.zone, db) && CreateSession(db, ev, req) == Ok((after, s))
    ensures Inv(after) && AllVisible(ev.zone, after) <==> Sound(ev.zone, s)
  {
    CreateSessionEffect(db, ev, req, after, s);
    if Lasts(s) {
      NewSessionKeepsInv(db, after, s);
    } else {
      assert s.id in after.sessions && after.sessions[s.id] == s;
    }
    AddedVisible(ev.zone, db, after, s);
  }

  lemma AddedVisible(zone: TimeZone, db: Db, after: Db, s: Session)
    requires AllVisible(zone, db) && after.sessions == db.sessions[s.id := s]
    ensures AllVisible(zone, after) <==> Visible(zone, s)
  {
    assert s.id in after.sessions && after.sessions[s.id] == s;
  }

  // Where segments outlast their jumps, a new session that lasts is seen on
  // its date.
  lemma RegularSessionIsVisible(db: Db, ev: Event, req: SessionRequest, after: Db, s: Session)
    requires CreateSession(db, ev, req) == Ok((after, s)) && ev.zone.Regular() && Lasts(s)
    ensures Visible(ev.zone, s)
  {
    CreateSessionEffect(db, ev, req, after, s);
    StartsInDate(ev.zone, req.date.value, req.start.value, s.start);
    EarlyIsVisible(ev.zone, s, req.date.value);
  }

  lemma EarlyIsVisible(zone: TimeZone, s: Session, d: Date)
    requires Lasts(s) && DateOf(zone.Local(s.start)) == d
    requires BoundsOf(zone, d).Some? ==> BoundsOf(zone, d).value.start <= s.start
    ensures Visible(zone, s)
  {
    RoundedEnd(s.start, s.end);
  }

  // It lasts whole minutes where besides the clock jumps by whole minutes
  // between its start and its end.
  lemma OrdinarySessionLasts(db: Db, ev: Event, req: SessionRequest, after: Db, s: Session)
    requires CreateSession(db, ev, req) == Ok((after, s)) && ev.zone.Regular()
    requires (ev.zone.Offset(ev.zone.SegmentOf(s.end)) - ev.zone.Offset(ev.zone.SegmentOf(s.start))) % Minutes(1) == 0
    ensures Lasts(s) && (s.end - s.start) % Minutes(1) == 0
  {
    CreateSessionEffect(db, ev, req, after, s);
    ClockLength(ev.zone, req.date.value, req.start.value, req.end.value, s.start, s.end);
  }

  lemma ClockLength(zone: TimeZone, d: Date, m: ClockMinute, n: ClockMinute, start: Instant, end: Instant)
    requires zone.Regular() && m < n
    requires zone.Single(ClockTime(d, m)) == Some(start) && zone.Single(ClockTime(d, n)) == Some(end)
    requires (zone.Offset(zone.SegmentOf(end)) - zone.Offset(zone.SegmentOf(start))) % Minutes(1) == 0
    ensures start + Minutes(1) <= end && (end - start) % Minutes(1) == 0
  {
    zone.OrderKept(ClockTime(d, m), ClockTime(d, n));
    zone.SingleExact(ClockTime(d, m), start);
    zone.SingleExact(ClockTime(d, n), end);
    WholeLength(start, end, m, n, zone.Offset(zone.SegmentOf(end)) - zone.Offset(zone.SegmentOf(start)));
  }

  lemma WholeLength(start: Instant, end: Instant, m: int, n: int, jump: int)
    requires jump % Minutes(1) == 0 && end - start == Minutes(n) - Minutes(m) - jump && start < end
    ensures start + Minutes(1) <= end && (end - start) % Minutes(1) == 0
  {
    var j := jump / Minutes(1);
    assert end - start == Minutes(1) * (n - m - j);
  }

  // What happens otherwise: creation puts bookings of no length on a session
  // that does not last, and they never count against its places.
  lemma BriefSessionNeverFills(db: Db, q: SlotQuery, req: CreateRequest, after: Db, b: Booking, s: Session)
    requires RowsFresh(db) && ReadsFor(q, db, q.event) && q.event.schedule == Manual
    requires CreateBooking(db, q, req) == Ok((after, b)) && SessionFor(q, b.start) == Some(s) && !Lasts(s)
    ensures CountOverlap(after, s.start, s.end) == CountOverlap(db, s.start, s.end)
  {
    CreateEffect(db, q, req, after, b);
    BriefBooking(b.start, b.end, s);
    UncountedRow(db, after, b, s.start, s.end);
  }

  lemma BriefBooking(start: Instant, end: Instant, s: Session)
    requires !Lasts(s) && start == s.start && end == start + Minutes(MinutesBetween(start, s.end))
    ensures !Overlap(start, end, s.start, s.end)
  {
  }

  ghost predicate RowsFresh(db: Db) {
    forall id :: id in db.bookings ==> id < db.nextId
  }

  lemma UncountedRow(db: Db, after: Db, b: Booking, start: Instant, end: Instant)
    requires b.id !in db.bookings && after.bookings == db.bookings[b.id := b] && !Listed(b, start, end)
    ensures CountOverlap(after, start, end) == CountOverlap(db, start, end)
  {
    assert OverlapIds(after, start, end) == OverlapIds(db, start, end);
  }

  predicate SameTimes(s: Session, t: Session) {
    s.start == t.start && s.end == t.end
  }

  // A live booking stays on its session while the session keeps its times.
  lemma StaysOnSession(db: Db, after: Db, j: BookingId) returns (t: SessionId)
    requires Seated(db) && after.bookings == db.bookings && j in db.bookings && Live(db.bookings[j])
    ensures t in db.sessions && Attends(db.bookings[j], db.sessions[t])
    ensures t in after.sessions && SameTimes(after.sessions[t], db.sessions[t]) ==> OnSession(after, after.bookings[j])
  {
    t :| t in db.sessions && Attends(db.bookings[j], db.sessions[t]);
    if t in after.sessions && SameTimes(after.sessions[t], db.sessions[t]) {
      assert Attends(after.bookings[j], after.sessions[t]);
    }
  }

  // Bookings stay, sessions keep their times, and only empty sessions come or
  // go.
  ghost predicate TimesKept(db: Db, after: Db) {
    && after.bookings == db.bookings
    && (forall j :: j in db.sessions && j in after.sessions ==> SameTimes(after.sessions[j], db.sessions[j]))
    && (forall j :: j in after.sessions && j !in db.sessions ==> Attendees(db, after.sessions[j]) == {})
    && (forall j :: j in db.sessions && j !in after.sessions ==> Attendees(db, db.sessions[j]) == {})
  }

  lemma SameTimesSameAttendees(db: Db, after: Db, s: Session, t: Session)
    requires after.bookings == db.bookings && SameTimes(s, t)
    ensures Attendees(after, s) == Attendees(db, t)
  {
  }

  lemma TimesKeptSeated(db: Db, after: Db)
    requires Seated(db) && TimesKept(db, after)
    ensures Seated(after)
  {
    forall j | j in after.bookings && Live(after.bookings[j]) ensures OnSession(after, after.bookings[j]) {
      var t := StaysOnSession(db, after, j);
      assert j in Attendees(db, db.sessions[t]);
    }
  }

  lemma TimesKeptNoneFull(db: Db, after: Db)
    requires TimesKept(db, after)
    requires forall j :: j in after.sessions && j in db.sessions ==>
               |Attendees(db, db.sessions[j])| <= Max(0, after.sessions[j].capacity)
    ensures NoneFull(after)
  {
    forall j | j in after.sessions ensures |Attendees(after, after.sessions[j])| <= Max(0, after.sessions[j].capacity) {
      var was := if j in db.sessions then db.sessions[j] else after.sessions[j];
      SameTimesSameAttendees(db, after, after.sessions[j], was);
    }
  }

  lemma NewSessionKeepsInv(db: Db, after: Db, s: Session)
    requires Inv(db) && s.id == db.nextId && after.bookings == db.bookings && after.sessions == db.sessions[s.id := s]
    requires after.nextId > db.nextId
    requires Lasts(s)
    requires forall id :: id in db.sessions ==> !Overlap(db.sessions[id].start, db.sessions[id].end, s.start, s.end)
    ensures Inv(after)
  {
    NobodyYet(db, s);
    AddedKeyed(db, after, s);
    AddedApart(db, after, s);
    TimesKeptSeated(db, after);
    TimesKeptNoneFull(db, after);
  }

  lemma AddedKeyed(db: Db, after: Db, s: Session)
    requires SessionsKeyed(db) && s.id == db.nextId && after.nextId > db.nextId
    requires after.bookings == db.bookings && after.sessions == db.sessions[s.id := s]
    ensures SessionsKeyed(after)
  {
  }

  lemma AddedApart(db: Db, after: Db, s: Session)
    requires SessionsApart(db) && after.sessions == db.sessions[s.id := s]
    requires Lasts(s)
    requires forall id :: id in db.sessions ==> !Overlap(db.sessions[id].start, db.sessions[id].end, s.start, s.end)
    ensures SessionsApart(after)
  {
  }

  lemma NobodyYet(db: Db, s: Session)
    requires Seated(db) && SessionsApart(db) && Lasts(s)
    requires forall id :: id in db.sessions ==> !Overlap(db.sessions[id].start, db.sessions[id].end, s.start, s.end)
    ensures Attendees(db, s) == {}
  {
    if j :| j in Attendees(db, s) {
      var t := StaysOnSession(db, db, j);
    }
  }

  // A successful edit keeps the session's id and times, and its capacity
  // admits the bookings it has.
  lemma UpdateSessionEffect(db: Db, id: SessionId, edit: SessionEdit, after: Db,
      s: Session)
    requires UpdateSession(db, id, edit) == Ok((after, s))
    ensures id in db.sessions && after == db.(sessions := db.sessions[id := s])
    ensures s.id == db.sessions[id].id && s.start == db.sessions[id].start && s.end == db.sessions[id].end
    ensures s.capacity == db.sessions[id].capacity || CountOverlap(db, s.start, s.end) <= s.capacity
  {
  }

  lemma EditedApart(db: Db, after: Db, id: SessionId, s: Session)
    requires SessionsKeyed(db) && SessionsApart(db) && id in db.sessions
               && after == db.(sessions := db.sessions[id := s])
    requires s.id == db.sessions[id].id && s.start == db.sessions[id].start && s.end == db.sessions[id].end
    ensures SessionsKeyed(after) && SessionsApart(after)
  {
  }

  lemma UpdateSessionKeepsInv(db: Db, id: SessionId, edit: SessionEdit, after: Db,
      s: Session)
    requires Inv(db) && UpdateSession(db, id, edit) == Ok((after, s))
    ensures Inv(after)
  {
    UpdateSessionEffect(db, id, edit, after, s);
    OverlapIsAttendance(db, id);
    EditedApart(db, after, id, s);
    TimesKeptSeated(db, after);
    TimesKeptNoneFull(db, after);
  }

  lemma DeleteSessionKeepsInv(db: Db, id: SessionId, after: Db)
    requires Inv(db) && DeleteSession(db, id) == Ok(after)
    ensures Inv(after)
  {
    OverlapIsAttendance(db, id);
    TimesKeptSeated(db, after);
    TimesKeptNoneFull(db, after);
  }

  // ---------- Runs ----------

  // One handler call that succeeds, a session being long enough, or anything that leaves bookings and
  // sessions alone.
  datatype Call =
    | Create(q: SlotQuery, req: CreateRequest)
    | Reschedule(q: SlotQuery, id: BookingId, time: RequestedTime)
    | Update(q: SlotQuery, id: BookingId, edit: UpdateRequest)
    | Cancel(id: BookingId, now: Instant)
    | Delete(id: BookingId)
    | AddSession(session: SessionRequest)
    | EditSession(sid: SessionId, sessionEdit: SessionEdit)
    | DropSession(sid: SessionId)
    | Other

  ghost predicate Step(ev: Event, db: Db, after: Db, call: Call) {
    match call
    case Create(q, req) => ReadsFor(q, db, ev) && exists b :: CreateBooking(db, q, req) == Ok((after, b))
    case Reschedule(q, id, time) =>
      ReadsFor(q, db, ev) && id in db.bookings && exists b :: RescheduleBooking(db, q, id, time) == Ok((after, b))
    case Update(q, id, edit) => ReadsFor(q, db, ev) && exists b :: UpdateBooking(db, q, id, edit) == Ok((after, b))
    case Cancel(id, now) => id in db.bookings && exists b :: CancelBooking(db, ev, id, now) == Ok((after, b))
    case Delete(id) => DeleteRow(db, id) == Ok(after)
    case AddSession(req) => exists s :: CreateSession(db, ev, req) == Ok((after, s)) && Sound(ev.zone, s)
    case EditSession(id, edit) => exists s :: UpdateSession(db, id, edit) == Ok((after, s))
    case DropSession(id) => DeleteSession(db, id) == Ok(after)
    case Other => after.bookings == db.bookings && after.sessions == db.sessions && after.nextId >= db.nextId
  }

  lemma CancelShrinks(ev: Event, db: Db, after: Db, id: BookingId, now: Instant)
    requires SessionsKeyed(db) && id in db.bookings && exists b :: CancelBooking(db, ev, id, now) == Ok((after, b))
    ensures RowsShrink(db, after)
  {
  }

  lemma EditedVisible(zone: TimeZone, db: Db, after: Db, id: SessionId, s: Session)
    requires AllVisible(zone, db) && id in db.sessions && after.sessions == db.sessions[id := s]
    requires s.start == db.sessions[id].start && s.end == db.sessions[id].end
    ensures AllVisible(zone, after)
  {
    forall j | j in after.sessions ensures Visible(zone, after.sessions[j]) {
      assert Visible(zone, db.sessions[j]);
    }
  }

  lemma DroppedVisible(zone: TimeZone, db: Db, after: Db)
    requires AllVisible(zone, db)
    requires forall j :: j in after.sessions ==> j in db.sessions && after.sessions[j] == db.sessions[j]
    ensures AllVisible(zone, after)
  {
  }

  lemma SessionCallKeeps(ev: Event, db: Db, after: Db, call: Call)
    requires Inv(db) && AllVisible(ev.zone, db) && Step(ev, db, after, call)
    requires call.AddSession? || call.EditSession? || call.DropSession?
    ensures Inv(after) && AllVisible(ev.zone, after)
  {
    match call
    case AddSession(req) =>
      var s :| CreateSession(db, ev, req) == Ok((after, s)) && Sound(ev.zone, s);
      CreateSessionExact(db, ev, req, after, s);
    case EditSession(id, edit) =>
      var s :| UpdateSession(db, id, edit) == Ok((after, s));
      UpdateSessionKeepsInv(db, id, edit, after, s);
      UpdateSessionEffect(db, id, edit, after, s);
      EditedVisible(ev.zone, db, after, id, s);
    case DropSession(id) =>
      DeleteSessionKeepsInv(db, id, after);
      DroppedVisible(ev.zone, db, after);
  }

  lemma BookingCallKeeps(ev: Event, db: Db, after: Db, call: Call)
    requires Inv(db) && AllVisible(ev.zone, db) && ev.schedule == Manual && Step(ev, db, after, call)
    requires call.Create? || call.Reschedule? || call.Update?
    ensures Inv(after) && after.sessions == db.sessions
  {
    match call
    case Create(q, req) =>
      var b :| CreateBooking(db, q, req) == Ok((after, b));
      CreateKeepsInv(db, q, req, after, b);
    case Reschedule(q, id, time) =>
      var b :| RescheduleBooking(db, q, id, time) == Ok((after, b));
      RescheduleKeepsInv(db, q, id, time, after, b);
    case Update(q, id, edit) =>
      var b :| UpdateBooking(db, q, id, edit) == Ok((after, b));
      UpdateKeepsInv(db, q, id, edit, after, b);
  }

  lemma ReleaseCallKeeps(ev: Event, db: Db, after: Db, call: Call)
    requires Inv(db) && Step(ev, db, after, call)
    requires call.Cancel? || call.Delete? || call.Other?
    ensures Inv(after) && after.sessions == db.sessions
  {
    if call.Cancel? {
      CancelShrinks(ev, db, after, call.id, call.now);
    }
    ShrinkKeepsInv(db, after);
  }

  lemma StepKeepsInv(ev: Event, db: Db, after: Db, call: Call)
    requires Inv(db) && AllVisible(ev.zone, db) && ev.schedule == Manual && Step(ev, db, after, call)
    ensures Inv(after) && AllVisible(ev.zone, after)
  {
    if call.AddSession? || call.EditSession? || call.DropSession? {
      SessionCallKeeps(ev, db, after, call);
    } else if call.Create? || call.Reschedule? || call.Update? {
      BookingCallKeeps(ev, db, after, call);
    } else {
      ReleaseCallKeeps(ev, db, after, call);
    }
  }

  ghost predicate Run(ev: Event, run: seq<Db>, calls: seq<Call>) {
    && Trace(StepOf(ev), run, calls) && run[0].bookings == map[] && run[0].sessions == map[]
  }

  ghost function StepOf(ev: Event): (Db, Db, Call) -> bool {
    (db: Db, after: Db, call: Call) => Step(ev, db, after, call)
  }

  ghost predicate OnOneSession(db: Db, b: Booking) {
    exists s :: s in db.sessions && Attends(b, db.sessions[s])
      && forall t :: t in db.sessions && Attends(b, db.sessions[t]) ==> t == s
  }

  lemma InvMeaning(db: Db)
    requires Inv(db)
    ensures forall id :: id in db.bookings && Live(db.bookings[id]) ==> OnOneSession(db, db.bookings[id])
    ensures forall s :: s in db.sessions ==>
              CountOverlap(db, db.sessions[s].start, db.sessions[s].end) <= Max(0, db.sessions[s].capacity)
  {
    forall s | s in db.sessions
      ensures CountOverlap(db, db.sessions[s].start, db.sessions[s].end) <= Max(0, db.sessions[s].capacity)
    {
      OverlapIsAttendance(db, s);
    }
    forall id | id in db.bookings && Live(db.bookings[id]) ensures OnOneSession(db, db.bookings[id]) {
      assert OnSession(db, db.bookings[id]);
      var s :| s in db.sessions && Attends(db.bookings[id], db.sessions[s]);
      forall t | t in db.sessions && Attends(db.bookings[id], db.sessions[t]) ensures t == s {
        StartNamesSession(db, t, s);
      }
    }
  }

  ghost function InvOf(ev: Event): Db -> bool {
    (db: Db) => Inv(db) && AllVisible(ev.zone, db)
  }

  lemma StepsKeepInv(ev: Event)
    requires ev.schedule == Manual
    ensures Keeps(InvOf(ev), StepOf(ev))
  {
    forall db, after, call | InvOf(ev)(db) && StepOf(ev)(db, after, call) ensures InvOf(ev)(after) {
      StepKeepsInv(ev, db, after, call);
    }
  }

  lemma StartHasInv(ev: Event, db: Db)
    requires db.bookings == map[] && db.sessions == map[]
    ensures InvOf(ev)(db)
  {
  }

  // Over every serial run in which new sessions last a minute, sessions stay
  // apart, each live booking is on exactly one session, and no session is
  // overlapped by more live bookings than its capacity.
  lemma SessionCapacity(ev: Event, run: seq<Db>, calls: seq<Call>, n: nat)
    requires ev.schedule == Manual && Run(ev, run, calls) && n < |run|
    ensures SessionsApart(run[n])
    ensures forall id :: id in run[n].bookings && Live(run[n].bookings[id]) ==>
              OnOneSession(run[n], run[n].bookings[id])
    ensures forall s :: s in run[n].sessions ==>
              CountOverlap(run[n], run[n].sessions[s].start, run[n].sessions[s].end)
              <= Max(0, run[n].sessions[s].capacity)
  {
    StepsKeepInv(ev);
    StartHasInv(ev, run[0]);
    Invariant(InvOf(ev), StepOf(ev), run, calls, n);
    InvMeaning(run[n]);
  }
}
