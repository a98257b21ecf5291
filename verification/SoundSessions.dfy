// When a session of a MANUAL event works as one: its bookings are on it, and
// its places run out.
module SoundSessions {
  import opened Results
  import opened Time
  import opened Models
  import opened Availability
  import opened Store
  import opened Handlers
  import opened ManualSchedule
  import Reminders

  // No creation is accepted for the start.
  ghost predicate Refused(db: Db, ev: Event, start: Instant) {
    forall q, req: CreateRequest :: ReadsFor(q, db, ev) && StartOf(q, req.time) == Some(start) ==>
      CreateBooking(db, q, req).Err?
  }

  // Session s among sessions that last and do not meet it or each other.
  ghost predicate Hosted(db: Db, s: Session) {
    && SessionsKeyed(db) && s.id in db.sessions && db.sessions[s.id] == s
    && (forall id :: id in db.sessions && id != s.id ==> Lasts(db.sessions[id]))
    && (forall i, j :: i in db.sessions && j in db.sessions && i != j ==>
          !Overlap(db.sessions[i].start, db.sessions[i].end, db.sessions[j].start, db.sessions[j].end))
  }

  // A request for the session is accepted.
  ghost predicate Booked(db: Db, q: SlotQuery, req: CreateRequest, after: Db, b: Booking, s: Session) {
    && ReadsFor(q, db, q.event) && q.event.schedule == Manual && q.event.access == AccessMode.Open
    && CreateBooking(db, q, req) == Ok((after, b)) && SessionFor(q, b.start) == Some(s)
  }

  lemma BookedEffect(db: Db, q: SlotQuery, req: CreateRequest, after: Db, b: Booking, s: Session)
    requires Booked(db, q, req, after, b, s)
    ensures b.start == s.start && b.end == SeatEnd(s) && Live(b) && b.id == db.nextId
    ensures Reads(q, db) && StartOf(q, req.time) == Some(b.start) && DateOf(q.event.zone.Local(b.start)) == q.date
    ensures after.bookings == db.bookings[b.id := b] && after.sessions == db.sessions && after.nextId > db.nextId
  {
    CreateEffect(db, q, req, after, b);
    StartOnDate(q, req.time);
  }

  // ---------- A sound session ----------

  lemma SoundIsAlone(db: Db, s: Session, t: SessionId)
    requires Hosted(db, s) && Lasts(s) && t in db.sessions && db.sessions[t].start == s.start
    ensures t == s.id
  {
    assert Lasts(db.sessions[t]);
  }

  lemma SoundSeat(db: Db, after: Db, b: Booking, s: Session)
    requires Hosted(db, s) && Lasts(s) && after.sessions == db.sessions
    requires b.start == s.start && b.end == SeatEnd(s)
    ensures Attends(b, s) && OnOneSession(after, b)
  {
    PlacedOnIt(b.start, b.end, s);
    forall t | t in after.sessions && Attends(b, after.sessions[t]) ensures t == s.id {
      SoundIsAlone(db, s, t);
    }
    assert Attends(b, after.sessions[s.id]);
  }

  lemma OneSeatTaken(db: Db, after: Db, b: Booking, s: Session)
    requires b.id !in db.bookings && after.bookings == db.bookings[b.id := b] && Live(b) && Attends(b, s)
    ensures |Attendees(after, s)| == |Attendees(db, s)| + 1
  {
    assert Attendees(after, s) == Attendees(db, s) + {b.id};
  }

  // A full session is not offered.
  lemma FullIsRefused(db: Db, ev: Event, s: Session)
    requires Hosted(db, s) && ev.schedule == Manual && Lasts(s) && Visible(ev.zone, s)
    requires |Attendees(db, s)| >= s.capacity
    ensures Refused(db, ev, s.start)
  {
    forall q, req: CreateRequest | ReadsFor(q, db, ev) && StartOf(q, req.time) == Some(s.start)
      ensures CreateBooking(db, q, req).Err?
    {
      if CreateBooking(db, q, req).Ok? {
        AcceptedIsOpen(db, q, req, s);
      }
    }
  }

  lemma AcceptedIsOpen(db: Db, q: SlotQuery, req: CreateRequest, s: Session)
    requires Hosted(db, s) && q.event.schedule == Manual && Lasts(s) && Visible(q.event.zone, s)
    requires ReadsFor(q, db, q.event) && StartOf(q, req.time) == Some(s.start) && CreateBooking(db, q, req).Ok?
    ensures |Attendees(db, s)| < s.capacity
  {
    var (after, b) := CreateBooking(db, q, req).value;
    CreateEffect(db, q, req, after, b);
    ManualAcceptance(q, req.time);
    var u :| u in q.sessions.value && q.Open(u) && u.start == s.start;
    SoundIsAlone(db, s, u.id);
    OpenHasPlace(db, q, u);
  }

  // ---------- A session that is not ----------

  lemma BriefIsNowhere(db: Db, b: Booking, s: Session)
    requires !Lasts(s) && b.start == s.start && b.end == SeatEnd(s)
    ensures !OnOneSession(db, b)
  {
    assert b.end <= b.start;
  }

  lemma UnlistedRow(q: SlotQuery, db: Db, after: Db, b: Booking)
    requires Reads(q, db) && q.event.schedule == Manual
    requires b.id !in db.bookings && after.bookings == db.bookings[b.id := b] && after.sessions == db.sessions
    requires var day := BoundsOf(q.event.zone, q.date).value; !Overlap(b.start, b.end, day.start, day.end)
    ensures Reads(q, after)
  {
  }

  lemma OpenAccess(db: Db, after: Db, q: SlotQuery, req: CreateRequest)
    requires q.event.access == AccessMode.Open && CreateBooking(db, q, req).Ok?
    requires after.nextId !in after.bookings
    ensures CreateBooking(after, q, req).Ok?
  {
  }

  // Where the read does not list the booking, the same request is accepted
  // once more, however few places there are.
  lemma UnseenIsBookedAgain(db: Db, q: SlotQuery, req: CreateRequest, after: Db, b: Booking, s: Session)
    returns (again: Db, c: Booking)
    requires Hosted(db, s) && RowsFresh(db) && Booked(db, q, req, after, b, s)
    requires Lasts(s) && !Visible(q.event.zone, s)
    ensures Booked(after, q, req, again, c, s) && c.id != b.id
    ensures CountOverlap(again, s.start, s.end) == CountOverlap(db, s.start, s.end) + 2
  {
    BookedEffect(db, q, req, after, b, s);
    UnlistedRow(q, db, after, b);
    OpenAccess(db, after, q, req);
    again, c := CreateBooking(after, q, req).value.0, CreateBooking(after, q, req).value.1;
    SameStart(db, after, q, req);
    BookedEffect(after, q, req, again, c, s);
    RoundedEnd(s.start, s.end);
    CountedRow(db, after, b, s.start, s.end);
    CountedRow(after, again, c, s.start, s.end);
  }

  lemma SameStart(db: Db, after: Db, q: SlotQuery, req: CreateRequest)
    requires CreateBooking(db, q, req).Ok? && CreateBooking(after, q, req).Ok?
    ensures CreateBooking(after, q, req).value.1.start == CreateBooking(db, q, req).value.1.start
  {
  }

  lemma CountedRow(db: Db, after: Db, b: Booking, start: Instant, end: Instant)
    requires b.id !in db.bookings && after.bookings == db.bookings[b.id := b] && Listed(b, start, end)
    ensures CountOverlap(after, start, end) == CountOverlap(db, start, end) + 1
  {
    assert OverlapIds(after, start, end) == OverlapIds(db, start, end) + {b.id};
  }

  // ---------- Exactly the sound sessions work ----------

  lemma UnseenIsNotRefused(db: Db, q: SlotQuery, req: CreateRequest, after: Db, b: Booking, s: Session)
    requires Hosted(db, s) && RowsFresh(db) && Booked(db, q, req, after, b, s)
    requires Lasts(s) && !Visible(q.event.zone, s)
    ensures !Refused(after, q.event, b.start)
  {
    var again, c := UnseenIsBookedAgain(db, q, req, after, b, s);
    BookedEffect(db, q, req, after, b, s);
  }

  lemma TakenIsRefused(db: Db, after: Db, ev: Event, b: Booking, s: Session)
    requires Hosted(db, s) && b.id !in db.bookings && after.bookings == db.bookings[b.id := b] && Live(b)
    requires after.sessions == db.sessions && after.nextId > db.nextId && Attends(b, s)
    requires ev.schedule == Manual && Sound(ev.zone, s) && |Attendees(db, s)| + 1 == s.capacity
    ensures Refused(after, ev, s.start)
  {
    OneSeatTaken(db, after, b, s);
    StillHosted(db, after, b, s);
    FullIsRefused(after, ev, s);
  }

  lemma StillHosted(db: Db, after: Db, b: Booking, s: Session)
    requires Hosted(db, s) && after.bookings == db.bookings[b.id := b]
    requires after.sessions == db.sessions && after.nextId > db.nextId
    ensures Hosted(after, s)
  {
  }

  lemma SoundTakesPlace(db: Db, q: SlotQuery, req: CreateRequest, after: Db, b: Booking, s: Session)
    requires Hosted(db, s) && RowsFresh(db) && Booked(db, q, req, after, b, s)
    requires |Attendees(db, s)| + 1 == s.capacity && Sound(q.event.zone, s)
    ensures OnOneSession(after, b) && Refused(after, q.event, b.start)
  {
    BookedEffect(db, q, req, after, b, s);
    SoundSeat(db, after, b, s);
    TakenIsRefused(db, after, q.event, b, s);
  }

  // An accepted creation takes the last place of a session, that is, the
  // booking is on that session and on no other, and no request for its start
  // is accepted any more, if and only if the session is sound.
  lemma SoundExact(db: Db, q: SlotQuery, req: CreateRequest, after: Db, b: Booking, s: Session)
    requires Hosted(db, s) && RowsFresh(db) && Booked(db, q, req, after, b, s)
    requires |Attendees(db, s)| + 1 == s.capacity
    ensures OnOneSession(after, b) && Refused(after, q.event, b.start) <==> Sound(q.event.zone, s)
  {
    if !Lasts(s) {
      BookedEffect(db, q, req, after, b, s);
      BriefIsNowhere(after, b, s);
    } else if !Visible(q.event.zone, s) {
      UnseenIsNotRefused(db, q, req, after, b, s);
    } else {
      SoundTakesPlace(db, q, req, after, b, s);
    }
  }
}
