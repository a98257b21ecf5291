// Facts about listings and keys that the repositories and handlers keep.
module Integrity {
  import opened Results
  import opened Time
  import opened Models
  import opened Availability
  import opened Store
  import opened Handlers
  import opened DateListing
  import Reminders

  // ---------- Listings ----------

  // The rows among the given keys that match the query.
  ghost predicate IsListingOf(rows: seq<Booking>, table: map<BookingId, Booking>, keys: set<BookingId>,
      from: Instant, to: Instant) {
    && DistinctIds(rows)
    && (forall b :: b in rows <==> b.id in keys && b.id in table && table[b.id] == b && Listed(b, from, to))
  }

  lemma ListingGrows(rows: seq<Booking>, table: map<BookingId, Booking>, keys: set<BookingId>, id: BookingId,
      from: Instant, to: Instant)
    requires IsListingOf(rows, table, keys, from, to) && id in table && table[id].id == id && id !in keys
    ensures IsListingOf(if Listed(table[id], from, to) then rows + [table[id]] else rows, table, keys + {id}, from, to)
  {
    forall i | 0 <= i < |rows| ensures rows[i].id != id {
      assert rows[i] in rows;
    }
  }

  ghost function SomeListing(table: map<BookingId, Booking>, keys: set<BookingId>, from: Instant,
      to: Instant): (rows: seq<Booking>)
    requires keys <= table.Keys && forall id :: id in table ==> table[id].id == id
    ensures IsListingOf(rows, table, keys, from, to)
    decreases keys
  {
    if keys == {} then []
    else
      var id :| id in keys;
      var rest := SomeListing(table, keys - {id}, from, to);
      ListingGrows(rest, table, keys - {id}, id, from, to);
      assert keys - {id} + {id} == keys;
      if Listed(table[id], from, to) then rest + [table[id]] else rest
  }

  ghost predicate IsSessionListingOf(rows: seq<Session>, table: map<SessionId, Session>, keys: set<SessionId>,
      from: Instant, to: Instant) {
    && InOrder(rows)
    && (forall s :: s in rows <==>
         s.id in keys && s.id in table && table[s.id] == s && Overlap(s.start, s.end, from, to))
  }

  // `ORDER BY start_time`
  function InsertByStart(s: Session, rows: seq<Session>): (r: seq<Session>)
    ensures forall x :: x in r <==> x == s || x in rows
  {
    if rows == [] || s.start <= rows[0].start then [s] + rows
    else
      assert rows == [rows[0]] + rows[1..];
      [rows[0]] + InsertByStart(s, rows[1..])
  }

  lemma {:induction false} InsertKeepsOrder(s: Session, rows: seq<Session>)
    requires InOrder(rows) && forall x :: x in rows ==> x.id != s.id
    ensures InOrder(InsertByStart(s, rows))
  {
    var r := InsertByStart(s, rows);
    if rows != [] && s.start > rows[0].start {
      InsertKeepsOrder(s, rows[1..]);
      forall j | 0 < j < |r| ensures r[0].id != r[j].id && r[0].start <= r[j].start {
        assert r[j] in InsertByStart(s, rows[1..]);
        if r[j] != s {
          assert r[j] in rows[1..];
        }
      }
    }
  }

  // Session rows in order of their start, each once.
  ghost predicate InOrder(rows: seq<Session>) {
    forall i, j :: 0 <= i < j < |rows| ==> rows[i].id != rows[j].id && rows[i].start <= rows[j].start
  }

  lemma SessionListingGrows(rows: seq<Session>, table: map<SessionId, Session>, keys: set<SessionId>, id: SessionId,
      from: Instant, to: Instant)
    requires IsSessionListingOf(rows, table, keys, from, to) && id in table && table[id].id == id && id !in keys
    ensures IsSessionListingOf(
              if Overlap(table[id].start, table[id].end, from, to) then InsertByStart(table[id], rows) else rows,
              table, keys + {id}, from, to)
  {
    InsertKeepsOrder(table[id], rows);
    var more := InsertByStart(table[id], rows);
    forall s: Session ensures s in more <==> s == table[id] || s in rows {}
  }

  ghost function SomeSessionListing(table: map<SessionId, Session>, keys: set<SessionId>, from: Instant,
      to: Instant): (rows: seq<Session>)
    requires keys <= table.Keys && forall id :: id in table ==> table[id].id == id
    ensures IsSessionListingOf(rows, table, keys, from, to)
    decreases keys
  {
    if keys == {} then []
    else
      var id :| id in keys;
      var rest := SomeSessionListing(table, keys - {id}, from, to);
      SessionListingGrows(rest, table, keys - {id}, id, from, to);
      assert keys - {id} + {id} == keys;
      if Overlap(table[id].start, table[id].end, from, to) then InsertByStart(table[id], rest) else rest
  }

  // A read that a handler may make.
  ghost function SomeRead(db: Db, ev: Event, d: Date, now: Instant): (q: SlotQuery)
    requires db.Valid()
    ensures MayRead(q, db, ev, d, now)
  {
    var day := if BoundsOf(ev.zone, d).Some? then BoundsOf(ev.zone, d).value else DayBounds(0, 0);
    SlotQuery(ev, d, SomeListing(db.bookings, db.bookings.Keys, day.start, day.end),
              if ev.schedule == Manual then None else OverrideOn(db.overrides, d),
              if ev.schedule == Manual
              then Some(SomeSessionListing(db.sessions, db.sessions.Keys, day.start, day.end))
              else None,
              now)
  }

  // ---------- Overrides ----------

  lemma OverrideListingGrows(rows: seq<Override>, table: seq<Override>, n: nat, from: Date, to: Date)
    requires UniqueDates(table) && n < |table| && IsOverrideListing(rows, table[..n], from, to)
    ensures IsOverrideListing(if from <= table[n].date <= to then rows + [table[n]] else rows, table[..n + 1], from, to)
  {
    var o := table[n];
    assert table[..n + 1] == table[..n] + [o];
    forall i | 0 <= i < |rows| ensures rows[i].date != o.date {
      assert rows[i] in rows;
    }
  }

  // The lookup changes at one date only.
  ghost predicate LooksUp(before: seq<Override>, after: seq<Override>, date: Date, found: Option<Override>) {
    forall d :: OverrideOn(after, d) == if d == date then found else OverrideOn(before, d)
  }

  lemma Replaced(rows: seq<Override>, n: nat, o: Override)
    requires UniqueDates(rows) && n < |rows| && rows[n].date == o.date
    ensures UniqueDates(rows[n := o]) && LooksUp(rows, rows[n := o], o.date, Some(o))
  {
    var after := rows[n := o];
    assert after[n] == o;
    forall x ensures x in after <==> x == o || (x in rows && x.date != o.date) {
      if x in rows && x.date != o.date {
        var i :| 0 <= i < |rows| && rows[i] == x;
        assert after[i] == x;
      }
    }
    SameElsewhere(rows, after, o);
  }

  lemma Inserted(rows: seq<Override>, o: Override)
    requires UniqueDates(rows) && forall i :: 0 <= i < |rows| ==> rows[i].date != o.date
    ensures UniqueDates(rows + [o]) && LooksUp(rows, rows + [o], o.date, Some(o))
  {
    SameElsewhere(rows, rows + [o], o);
  }

  // The tables differ in the row of one date.
  lemma SameElsewhere(rows: seq<Override>, after: seq<Override>, o: Override)
    requires UniqueDates(rows) && UniqueDates(after) && o in after
    requires forall x :: x in after <==> x == o || (x in rows && x.date != o.date)
    ensures LooksUp(rows, after, o.date, Some(o))
  {
    forall d ensures OverrideOn(after, d) == if d == o.date then Some(o) else OverrideOn(rows, d) {
      OverrideOnExact(after, d);
      OverrideOnExact(rows, d);
    }
  }

  lemma Removed(rows: seq<Override>, n: nat)
    requires UniqueDates(rows) && n < |rows|
    ensures UniqueDates(rows[..n] + rows[n + 1..]) && LooksUp(rows, rows[..n] + rows[n + 1..], rows[n].date, None)
  {
    var after := rows[..n] + rows[n + 1..];
    forall d ensures OverrideOn(after, d) == if d == rows[n].date then None else OverrideOn(rows, d) {
      OverrideOnExact(after, d);
      OverrideOnExact(rows, d);
    }
  }

  // ---------- Keys stay valid ----------

  predicate JobRowsKeyed(jobs: map<JobId, Job>, nextId: nat) {
    forall id :: id in jobs ==> jobs[id].id == id && id < nextId
  }

  lemma AddedJobsKeyed(jobs: map<JobId, Job>, more: seq<Job>, first: nat)
    requires JobRowsKeyed(jobs, first) && Reminders.Numbered(more, first)
    ensures JobRowsKeyed(AddJobs(jobs, more), first + |more|)
  {
    forall id | id in AddJobs(jobs, more) ensures AddJobs(jobs, more)[id].id == id && id < first + |more| {
      Reminders.AddJobsExact(jobs, more, id);
    }
  }

  // A booking row with a token of its own is written, and jobs are made.
  lemma RowKeepsValid(db: Db, after: Db, b: Booking)
    requires db.Valid() && after.nextId >= db.nextId && JobRowsKeyed(after.jobs, after.nextId)
    requires after == db.(bookings := db.bookings[b.id := b], jobs := after.jobs, nextId := after.nextId)
    requires b.id < after.nextId && b.managementToken < after.nextId
    requires if b.id in db.bookings
             then b.managementToken == db.bookings[b.id].managementToken
             else b.managementToken >= db.nextId
    ensures after.Valid()
  {
  }

  lemma BurnKeepsValid(db: Db, token: Token)
    requires db.Valid()
    ensures db.(invitees := MarkUsed(db.invitees, token)).Valid()
  {
  }

  lemma CreateKeepsValid(db: Db, q: SlotQuery, req: CreateRequest, after: Db, b: Booking)
    requires db.Valid() && CreateBooking(db, q, req) == Ok((after, b))
    ensures after.Valid()
  {
    var burn := Reminders.CreateIsCommit(db, q, req, after, b);
    CommitKeepsValid(db, b, burn, q.now, after);
  }

  lemma CommitKeepsValid(db: Db, b: Booking, burn: Option<Token>, now: Instant, after: Db)
    requires db.Valid() && b.id == b.managementToken == db.nextId && Commit(db, b, burn, now) == Ok((after, b))
    ensures after.Valid()
  {
    Reminders.CreationJobsExact(db.eventRules, b, now, db.nextId + 1);
    AddedJobsKeyed(db.jobs, CreationJobs(db.eventRules, b, now, db.nextId + 1), db.nextId + 1);
    var burnt := if burn.Some? then db.(invitees := MarkUsed(db.invitees, burn.value)) else db;
    if burn.Some? {
      BurnKeepsValid(db, burn.value);
    }
    RowKeepsValid(burnt, after, b);
  }

  lemma RescheduleKeepsValid(db: Db, q: SlotQuery, id: BookingId, time: RequestedTime, after: Db, b: Booking)
    requires db.Valid() && id in db.bookings && RescheduleBooking(db, q, id, time) == Ok((after, b))
    ensures after.Valid()
  {
    Reminders.RescheduleIsMove(db, q, id, time, after, b);
    MoveKeepsValid(db, b, q.now, after);
  }

  lemma MoveKeepsValid(db: Db, b: Booking, now: Instant, after: Db)
    requires db.Valid() && b.id in db.bookings && b.managementToken == db.bookings[b.id].managementToken && Live(b)
    requires after == RescheduleJobs(db.(bookings := db.bookings[b.id := b]), b, now)
    ensures after.Valid()
  {
    Reminders.MovedJobs(db, b, now, after);
    Reminders.RescheduleBatchExact(db, b, now);
    AddedJobsKeyed(CancelJobs(db.jobs, b.id), Reminders.RescheduleBatch(db, b, now), db.nextId);
    RowKeepsValid(db, after, b);
  }

  function CancelNotices(db: Db, id: BookingId, now: Instant): seq<Job> {
    NoticeJobs(RulesFor(db, OnCancel), CancellationJob, id, now, db.nextId)
  }

  // The tables after the row of a live booking was cancelled.
  function Released(db: Db, b: Booking, now: Instant): Db
    requires b.id in db.bookings
  {
    CancelRow(db, b).value.(
      jobs := AddJobs(CancelJobs(db.jobs, b.id), CancelNotices(db, b.id, now)),
      nextId := db.nextId + |CancelNotices(db, b.id, now)|)
  }

  // The steps of a reschedule's jobs add up.
  lemma JobsRenewed(db: Db, b: Booking, now: Instant, jobs: map<JobId, Job>, nextId: nat)
    requires var notices := NoticeJobs(RulesFor(db, OnReschedule), JobType.RescheduleJob, b.id, now, db.nextId);
             var reminders := RenewedReminders(db.eventRules, b, now, db.nextId + |notices|);
             && jobs == AddJobs(AddJobs(CancelJobs(db.jobs, b.id), notices), reminders)
             && nextId == db.nextId + |notices| + |reminders|
    ensures db.(jobs := jobs, nextId := nextId) == RescheduleJobs(db, b, now)
  {
  }

  lemma CancelIsRelease(db: Db, ev: Event, id: BookingId, now: Instant)
    requires id in db.bookings && db.bookings[id].id == id
    ensures Handlers.CancelBooking(db, ev, id, now) ==
              (if db.bookings[id].status == Cancelled then Ok((db, db.bookings[id]))
               else if !ev.allowCancel then Err(Forbidden)
               else Ok((Released(db, db.bookings[id], now), db.bookings[id].(status := Cancelled))))
  {
  }

  lemma CancelKeepsValid(db: Db, ev: Event, id: BookingId, now: Instant, after: Db, b: Booking)
    requires db.Valid() && id in db.bookings && CancelBooking(db, ev, id, now) == Ok((after, b))
    ensures after.Valid()
  {
    CancelIsRelease(db, ev, id, now);
    if Live(db.bookings[id]) {
      Reminders.NoticeJobsExact(RulesFor(db, OnCancel), CancellationJob, id, now, db.nextId);
      AddedJobsKeyed(CancelJobs(db.jobs, id), CancelNotices(db, id, now), db.nextId);
      ReleaseKeepsValid(db, id);
      JobsKeepValid(CancelRow(db, db.bookings[id]).value, after);
    }
  }

  lemma JobsKeepValid(db: Db, after: Db)
    requires db.Valid() && after == db.(jobs := after.jobs, nextId := after.nextId)
    requires after.nextId >= db.nextId && JobRowsKeyed(after.jobs, after.nextId)
    ensures after.Valid()
  {
  }

  lemma ReleaseKeepsValid(db: Db, id: BookingId)
    requires db.Valid() && id in db.bookings
    ensures CancelRow(db, db.bookings[id]).Ok? && CancelRow(db, db.bookings[id]).value.Valid()
  {
  }

  lemma UpdateKeepsValid(db: Db, q: SlotQuery, id: BookingId, req: UpdateRequest, after: Db, b: Booking)
    requires db.Valid() && UpdateBooking(db, q, id, req) == Ok((after, b))
    ensures after.Valid()
  {
    Reminders.EditEffect(db, q, id, req, after, b);
    RowKeepsValid(db, after, b);
  }

  lemma DeleteKeepsValid(db: Db, id: BookingId)
    requires db.Valid() && DeleteRow(db, id).Ok?
    ensures DeleteRow(db, id).value.Valid()
  {
  }

  lemma SessionsKeepValid(db: Db, after: Db)
    requires db.Valid() && after == db.(sessions := after.sessions, nextId := after.nextId) && after.nextId >= db.nextId
    requires forall id :: id in after.sessions ==> after.sessions[id].id == id && id < after.nextId
    ensures after.Valid()
  {
  }
}
