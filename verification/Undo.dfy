// What one handler call undoes of another.
module Undo {
  import opened Results
  import opened Time
  import opened Models
  import opened Availability
  import opened Store
  import opened Handlers
  import Integrity
  import Reminders

  // The row of a new booking, and the invitee it used up.
  ghost predicate Adds(db: Db, after: Db, b: Booking) {
    && b.id == db.nextId && Live(b) && after.bookings == db.bookings[b.id := b]
    && after.sessions == db.sessions && after.overrides == db.overrides
    && if b.invitee.None? then after.invitees == db.invitees
       else
         && b.invitee.value in db.invitees && db.invitees[b.invitee.value].status == Active
         && after.invitees == db.invitees[b.invitee.value := db.invitees[b.invitee.value].(status := Used)]
  }

  lemma CreateWrites(db: Db, q: SlotQuery, req: CreateRequest, after: Db, b: Booking)
    requires db.Valid() && CreateBooking(db, q, req) == Ok((after, b))
    ensures Adds(db, after, b)
  {
    var burn := Reminders.CreateIsCommit(db, q, req, after, b);
    var invitee := CheckAccess(db, q.event.access, req.token).value;
    assert b.invitee == invitee;
    if invitee.Some? {
      AccessExact(db, q.event.access, req.token, invitee.value);
      InviteeBurnt(db.invitees, req.token.value, invitee.value);
    }
  }

  lemma InviteeBurnt(invitees: map<InviteeId, Invitee>, token: Token, i: InviteeId)
    requires forall a, b :: a in invitees && b in invitees && invitees[a].token == invitees[b].token ==> a == b
    requires i in invitees && invitees[i].token == token && invitees[i].status == Active
    ensures MarkUsed(invitees, token) == invitees[i := invitees[i].(status := Used)]
  {
  }

  // Deleting a new booking gives back the old rows.
  lemma DeleteUndoesCreate(db: Db, q: SlotQuery, req: CreateRequest, after: Db, b: Booking)
    requires db.Valid() && CreateBooking(db, q, req) == Ok((after, b))
    ensures DeleteRow(after, b.id).Ok? && DeleteRow(after, b.id).value.bookings == db.bookings
  {
    CreateWrites(db, q, req, after, b);
    DeleteRemoves(db, after, b);
  }

  lemma DeleteRemoves(db: Db, after: Db, b: Booking)
    requires b.id !in db.bookings && after.bookings == db.bookings[b.id := b]
    ensures DeleteRow(after, b.id).Ok? && DeleteRow(after, b.id).value.bookings == db.bookings
  {
  }

  lemma CancelWrites(db: Db, ev: Event, id: BookingId, now: Instant, after: Db, b: Booking)
    requires id in db.bookings && db.bookings[id].id == id && Live(db.bookings[id])
    requires CancelBooking(db, ev, id, now) == Ok((after, b))
    ensures after.bookings == db.bookings[id := db.bookings[id].(status := Cancelled)]
    ensures after.sessions == db.sessions && after.overrides == db.overrides
    ensures var i := db.bookings[id].invitee;
            after.invitees == if i.Some? && i.value in db.invitees
                              then db.invitees[i.value := db.invitees[i.value].(status := Active)]
                              else db.invitees
  {
    Integrity.CancelIsRelease(db, ev, id, now);
  }

  // The tables agree but for cancelled rows and jobs.
  ghost predicate Restored(db: Db, gone: Db) {
    && gone.invitees == db.invitees && gone.sessions == db.sessions && gone.overrides == db.overrides
    && SameLive(db.bookings, gone.bookings)
  }

  lemma CancelRestores(db: Db, after: Db, b: Booking, ev: Event, now: Instant, gone: Db, c: Booking)
    requires db.Valid() && Adds(db, after, b) && CancelBooking(after, ev, b.id, now) == Ok((gone, c))
    ensures Restored(db, gone)
  {
    CancelWrites(after, ev, b.id, now, gone, c);
    CancelledRow(db, b, gone.bookings);
  }

  lemma CancelledRow(db: Db, b: Booking, rows: map<BookingId, Booking>)
    requires db.Valid() && b.id == db.nextId && rows == db.bookings[b.id := b.(status := Cancelled)]
    ensures SameLive(db.bookings, rows)
  {
  }

  // Tables with the same live rows, sessions and overrides offer the same.
  lemma SlotsAgree(db: Db, after: Db, r: SlotQuery, s: SlotQuery, t: Instant)
    requires Restored(db, after) && Reads(r, db) && Reads(s, after)
    requires r.event == s.event && r.date == s.date && r.now == s.now
    ensures r.IsSlot(t) <==> s.IsSlot(t)
  {
    RowsAgree(r, s, db.bookings, after.bookings, t);
    if r.event.schedule == Manual {
      SessionsAgree(r.(rows := s.rows), s, t);
    } else {
      assert r.(rows := s.rows) == s;
    }
  }

  // Cancelling a new booking gives back its invitation and every slot it
  // took: afterwards each date offers what it offered before, whatever the
  // order in which the rows are read.
  lemma CancelUndoesCreate(
    db: Db, q: SlotQuery, req: CreateRequest, after: Db, b: Booking, ev: Event, now: Instant, gone: Db, c: Booking,
    r: SlotQuery, s: SlotQuery, t: Instant)
    requires db.Valid() && CreateBooking(db, q, req) == Ok((after, b))
    requires CancelBooking(after, ev, b.id, now) == Ok((gone, c))
    requires Reads(r, db) && Reads(s, gone) && r.event == s.event && r.date == s.date && r.now == s.now
    ensures gone.invitees == db.invitees
    ensures r.IsSlot(t) <==> s.IsSlot(t)
  {
    CreateWrites(db, q, req, after, b);
    CancelRestores(db, after, b, ev, now, gone, c);
    SlotsAgree(db, gone, r, s, t);
  }
}
