// The tables behind the repositories, and each repository call as one step.
// The bookings, sessions and overrides are the rows of one event, because
// every query of the booking core filters by event id.
module Store {
  import opened Results
  import opened Time
  import opened Models
  import opened Counting
  import opened Availability

  type JobId = nat

  // `trigger_type` of a notification rule.
  datatype Trigger =
    | OnBooking
    | OnCancel
    | OnReschedule
    | Reminder24H
    | Reminder1H
    | ReminderMinutes(minutes: int)   // "REMINDER_<minutes>M"
    | OtherTrigger

  // `job_type` of a job: a name of its own, or the trigger of a rule.
  datatype JobType =
    | ConfirmationJob
    | CancellationJob
    | RescheduleJob
    | ReminderJob
    | TriggerJob(trigger: Trigger)
    | CampaignJob

  datatype JobStatus = Pending | Processing | Completed | Failed | CancelledJob

  datatype Job = Job(id: JobId, kind: JobType, booking: BookingId, executeAt: Instant, status: JobStatus)

  datatype InviteeStatus = Active | Used | OtherStatus

  datatype Invitee = Invitee(id: InviteeId, token: Token, status: InviteeStatus)

  // `nextId` stands for the random ids and tokens: every number from it on is
  // unused.
  datatype Db = Db(
    bookings: map<BookingId, Booking>,
    sessions: map<SessionId, Session>,
    overrides: seq<Override>,
    invitees: map<InviteeId, Invitee>,
    jobs: map<JobId, Job>,
    eventRules: seq<Trigger>,
    tenantRules: seq<Trigger>,
    nextId: nat)
  {
    predicate Valid() {
      && (forall id :: id in bookings ==> bookings[id].id == id && id < nextId && bookings[id].managementToken < nextId)
      && (forall id :: id in sessions ==> sessions[id].id == id && id < nextId)
      && (forall id :: id in invitees ==> invitees[id].id == id && id < nextId)
      && (forall id :: id in jobs ==> jobs[id].id == id && id < nextId)
      && (forall i, j :: 0 <= i < j < |overrides| ==> overrides[i].date != overrides[j].date)
      && (forall i, j :: i in invitees && j in invitees && invitees[i].token == invitees[j].token ==> i == j)
      && (forall i :: i in invitees ==> invitees[i].token < nextId)
      && (forall i, j ::
           i in bookings && j in bookings && bookings[i].managementToken == bookings[j].managementToken ==> i == j)
    }
  }

  ghost predicate RowsKeyed(db: Db) {
    forall id :: id in db.bookings ==> db.bookings[id].id == id
  }

  // ---------- Booking rows ----------

  // The row filter of `list_by_range` and `count_overlap`.
  predicate Listed(b: Booking, from: Instant, to: Instant) {
    Live(b) && Overlap(b.start, b.end, from, to)
  }

  ghost predicate DistinctIds(rows: seq<Booking>) {
    forall i, j :: 0 <= i < j < |rows| ==> rows[i].id != rows[j].id
  }

  // `list_by_range` returns each matching row once, in any order.
  ghost predicate IsListing(rows: seq<Booking>, table: map<BookingId, Booking>, from: Instant, to: Instant) {
    && DistinctIds(rows)
    && (forall b :: b in rows <==> b.id in table && table[b.id] == b && Listed(b, from, to))
  }

  function IdsWhere(p: Booking -> bool, rows: seq<Booking>): set<BookingId> {
    set b | b in rows && p(b) :: b.id
  }

  lemma IdsSnoc(p: Booking -> bool, init: seq<Booking>, last: Booking)
    ensures IdsWhere(p, init + [last]) == IdsWhere(p, init) + if p(last) then {last.id} else {}
  {
    var rows := init + [last];
    forall b ensures b in rows <==> b in init || b == last {}
  }

  lemma {:induction false} CountDistinct(p: Booking -> bool, rows: seq<Booking>)
    requires DistinctIds(rows)
    ensures Count(p, rows) == |IdsWhere(p, rows)|
  {
    if rows != [] {
      var last, init := rows[|rows| - 1], rows[..|rows| - 1];
      CountDistinct(p, init);
      assert rows == init + [last];
      IdsSnoc(p, init, last);
      assert last.id !in IdsWhere(p, init);
    }
  }

  function ListedIds(p: Booking -> bool, table: map<BookingId, Booking>, from: Instant, to: Instant): set<BookingId> {
    set id | id in table && Listed(table[id], from, to) && p(table[id])
  }

  // Counting listed rows counts keys of the table.
  lemma CountListing(p: Booking -> bool, rows: seq<Booking>, table: map<BookingId, Booking>, from: Instant, to: Instant)
    requires IsListing(rows, table, from, to) && forall id :: id in table ==> table[id].id == id
    ensures Count(p, rows) == |ListedIds(p, table, from, to)|
  {
    CountDistinct(p, rows);
    forall id ensures id in IdsWhere(p, rows) <==> id in ListedIds(p, table, from, to) {
      if id in ListedIds(p, table, from, to) {
        assert table[id] in rows;
      }
    }
    assert IdsWhere(p, rows) == ListedIds(p, table, from, to);
  }

  // `find_by_token` on the management token.
  ghost predicate FoundByToken(db: Db, token: Token, id: BookingId) {
    id in db.bookings && db.bookings[id].managementToken == token
  }

  function MarkUsed(invitees: map<InviteeId, Invitee>, token: Token): map<InviteeId, Invitee> {
    map id | id in invitees ::
      if invitees[id].token == token && invitees[id].status == Active
      then invitees[id].(status := Used)
      else invitees[id]
  }

  function AddJobs(jobs: map<JobId, Job>, more: seq<Job>): map<JobId, Job> {
    if more == [] then jobs
    else
      var last := more[|more| - 1];
      AddJobs(jobs, more[..|more| - 1])[last.id := last]
  }

  // `create_with_token`: burns the token, inserts the booking and its jobs,
  // or changes nothing.
  function CreateWithToken(db: Db, b: Booking, burn: Option<Token>, jobs: seq<Job>): Result<Db>
  {
    if && burn.Some?
       && !exists i :: i in db.invitees && db.invitees[i].token == burn.value && db.invitees[i].status == Active
    then
      Err(Conflict)
    else if b.id in db.bookings then
      Err(AppError.Database)
    else
      Ok(db.(
        invitees := if burn.Some? then MarkUsed(db.invitees, burn.value) else db.invitees,
        bookings := db.bookings[b.id := b],
        jobs := AddJobs(db.jobs, jobs)))
  }

  // `update` writes the times, the customer, the location and the details, not
  // the status.
  function UpdateRow(db: Db, b: Booking): Result<Db> {
    if b.id !in db.bookings then Err(AppError.Database)
    else Ok(db.(bookings := db.bookings[b.id :=
           db.bookings[b.id].(
             start := b.start, end := b.end, name := b.name, email := b.email, location := b.location,
             details := b.details)]))
  }

  // `cancel` frees the invitee named by the booking that was read.
  function CancelRow(db: Db, b: Booking): Result<Db> {
    if b.id !in db.bookings then Err(AppError.Database)
    else Ok(db.(
           bookings := db.bookings[b.id := db.bookings[b.id].(status := Cancelled)],
           invitees := if b.invitee.Some? && b.invitee.value in db.invitees
                       then db.invitees[b.invitee.value := db.invitees[b.invitee.value].(status := Active)]
                       else db.invitees))
  }

  function DeleteRow(db: Db, id: BookingId): Result<Db> {
    if id !in db.bookings then Err(NotFound) else Ok(db.(bookings := db.bookings - {id}))
  }

  // ---------- Job rows ----------

  // `cancel_jobs_for_booking`
  function CancelJobs(jobs: map<JobId, Job>, booking: BookingId): map<JobId, Job> {
    map id | id in jobs ::
      if jobs[id].booking == booking && jobs[id].status == Pending then jobs[id].(status := CancelledJob) else jobs[id]
  }

  predicate Due(j: Job, now: Instant) {
    j.status == Pending && j.executeAt <= now
  }

  function DueIds(jobs: map<JobId, Job>, now: Instant): set<JobId> {
    set id | id in jobs && Due(jobs[id], now)
  }

  function Claimed(jobs: map<JobId, Job>, ids: set<JobId>): map<JobId, Job> {
    map id | id in jobs :: if id in ids then jobs[id].(status := Processing) else jobs[id]
  }

  // `update_status`, whatever the status was.
  function SetStatus(jobs: map<JobId, Job>, id: JobId, status: JobStatus): map<JobId, Job> {
    if id in jobs then jobs[id := jobs[id].(status := status)] else jobs
  }

  // ---------- Override rows: unique per date ----------

  function OverrideOn(overrides: seq<Override>, d: Date): Option<Override> {
    if overrides == [] then None
    else if overrides[0].date == d then Some(overrides[0])
    else OverrideOn(overrides[1..], d)
  }

  // ---------- Session rows ----------

  // `list_by_range` of sessions, ordered by start.
  ghost predicate IsSessionListing(rows: seq<Session>, table: map<SessionId, Session>, from: Instant, to: Instant) {
    && (forall i, j :: 0 <= i < j < |rows| ==> rows[i].id != rows[j].id && rows[i].start <= rows[j].start)
    && (forall s :: s in rows <==> s.id in table && table[s.id] == s && Overlap(s.start, s.end, from, to))
  }

  // ---------- What a handler reads for one date ----------

  // q holds the rows the store returns for the queries about its date.
  ghost predicate Reads(q: SlotQuery, db: Db) {
    && BoundsOf(q.event.zone, q.date).Some?
    && var day := BoundsOf(q.event.zone, q.date).value;
    && IsListing(q.rows, db.bookings, day.start, day.end)
    && q.rule == (if q.event.schedule == Manual then None else OverrideOn(db.overrides, q.date))
    && (if q.event.schedule == Manual
        then q.sessions.Some? && IsSessionListing(q.sessions.value, db.sessions, day.start, day.end)
        else q.sessions == None)
  }
}
