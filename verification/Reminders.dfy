// Reminders over runs of the booking handlers and the worker, and the rule a
// worker picks for a job (src/background.rs).
module Reminders {
  import opened Results
  import opened Time
  import opened Models
  import opened Counting
  import opened Availability
  import opened Store
  import opened Handlers
  import opened Runs

  predicate IsReminder(j: Job) {
    j.kind == ReminderJob || (j.kind.TriggerJob? && ReminderLead(j.kind.trigger).Some?)
  }

  // The reminder is due at the start of the booking minus the lead of one of
  // the rules.
  ghost predicate OnTime(j: Job, start: Instant, rules: seq<Trigger>) {
    exists t :: t in rules && For(j, start, t)
  }

  predicate For(j: Job, start: Instant, t: Trigger) {
    && ReminderLead(t).Some? && j.executeAt == start - ReminderLead(t).value
    && (j.kind == ReminderJob || j.kind == TriggerJob(t))
  }

  // ---------- The jobs that handlers make ----------

  lemma {:induction false} AddJobsExact(jobs: map<JobId, Job>, more: seq<Job>, id: JobId)
    requires id in AddJobs(jobs, more)
    ensures var j := AddJobs(jobs, more)[id]; (j in more && j.id == id) || (id in jobs && j == jobs[id])
  {
    if more != [] {
      var n := |more| - 1;
      if id != more[n].id {
        AddJobsExact(jobs, more[..n], id);
      }
    }
  }

  // Ids count up from `first`.
  ghost predicate Numbered(jobs: seq<Job>, first: JobId) {
    forall n :: 0 <= n < |jobs| ==> jobs[n].id == first + n
  }

  lemma {:induction false} AddedJob(jobs: map<JobId, Job>, more: seq<Job>, first: JobId, j: Job)
    requires Numbered(more, first) && j in more
    ensures j.id in AddJobs(jobs, more) && AddJobs(jobs, more)[j.id] == j
  {
    var n := |more| - 1;
    assert more == more[..n] + [more[n]];
    if j != more[n] {
      AddedJob(jobs, more[..n], first, j);
    }
  }

  lemma {:induction false} KeptJob(jobs: map<JobId, Job>, more: seq<Job>, id: JobId)
    requires id in jobs && forall j :: j in more ==> j.id != id
    ensures id in AddJobs(jobs, more) && AddJobs(jobs, more)[id] == jobs[id]
  {
    if more != [] {
      KeptJob(jobs, more[..|more| - 1], id);
    }
  }

  function MakesJob(b: Booking, now: Instant): Trigger -> bool {
    (t: Trigger) => CreationJob(t, b, now, 0).Some?
  }

  // One job for each rule that asks for one, each made for some rule.
  lemma {:induction false} CreationJobsExact(rules: seq<Trigger>, b: Booking, now: Instant, first: JobId)
    ensures Numbered(CreationJobs(rules, b, now, first), first)
    ensures |CreationJobs(rules, b, now, first)| == Count(MakesJob(b, now), rules)
    ensures forall j :: j in CreationJobs(rules, b, now, first) ==>
              exists t :: t in rules && CreationJob(t, b, now, j.id) == Some(j)
  {
    if rules != [] {
      var n := |rules| - 1;
      CreationJobsExact(rules[..n], b, now, first);
      assert rules == rules[..n] + [rules[n]];
      forall j | j in CreationJobs(rules, b, now, first)
        ensures exists t :: t in rules && CreationJob(t, b, now, j.id) == Some(j)
      {
        if j in CreationJobs(rules[..n], b, now, first) {
          var t :| t in rules[..n] && CreationJob(t, b, now, j.id) == Some(j);
          assert t in rules;
        } else {
          assert CreationJob(rules[n], b, now, j.id) == Some(j);
        }
      }
    }
  }

  lemma {:induction false} EachRuleServed(rules: seq<Trigger>, b: Booking, now: Instant, first: JobId, t: Trigger)
    requires t in rules && CreationJob(t, b, now, first).Some?
    ensures exists j :: j in CreationJobs(rules, b, now, first) && CreationJob(t, b, now, j.id) == Some(j)
  {
    var n := |rules| - 1;
    assert rules == rules[..n] + [rules[n]];
    var jobs := CreationJobs(rules[..n], b, now, first);
    if t == rules[n] {
      var j := CreationJob(t, b, now, first + |jobs|).value;
      assert j in CreationJobs(rules, b, now, first);
    } else {
      EachRuleServed(rules[..n], b, now, first, t);
      var j :| j in jobs && CreationJob(t, b, now, j.id) == Some(j);
      assert j in CreationJobs(rules, b, now, first);
    }
  }

  lemma CreationRemindersOnTime(rules: seq<Trigger>, b: Booking, now: Instant, first: JobId)
    ensures forall j :: j in CreationJobs(rules, b, now, first) ==>
              j.booking == b.id && (IsReminder(j) ==> OnTime(j, b.start, rules))
  {
    CreationJobsExact(rules, b, now, first);
    forall j | j in CreationJobs(rules, b, now, first)
      ensures j.booking == b.id && (IsReminder(j) ==> OnTime(j, b.start, rules))
    {
      var t :| t in rules && CreationJob(t, b, now, j.id) == Some(j);
      assert IsReminder(j) ==> For(j, b.start, t);
    }
  }

  lemma {:induction false} RenewedRemindersExact(rules: seq<Trigger>, b: Booking, now: Instant, first: JobId)
    ensures Numbered(RenewedReminders(rules, b, now, first), first)
    ensures forall j :: j in RenewedReminders(rules, b, now, first) ==>
              j.kind.TriggerJob? && j.kind.trigger in rules && RenewedReminder(j.kind.trigger, b, now, j.id) == Some(j)
  {
    if rules != [] {
      var n := |rules| - 1;
      RenewedRemindersExact(rules[..n], b, now, first);
      assert rules == rules[..n] + [rules[n]];
    }
  }

  lemma {:induction false} EachRuleRenewed(rules: seq<Trigger>, b: Booking, now: Instant, first: JobId, t: Trigger)
    requires t in rules && RenewedReminder(t, b, now, first).Some?
    ensures exists j :: j in RenewedReminders(rules, b, now, first) && RenewedReminder(t, b, now, j.id) == Some(j)
  {
    var n := |rules| - 1;
    assert rules == rules[..n] + [rules[n]];
    var jobs := RenewedReminders(rules[..n], b, now, first);
    if t == rules[n] {
      var j := RenewedReminder(t, b, now, first + |jobs|).value;
      assert j in RenewedReminders(rules, b, now, first);
    } else {
      EachRuleRenewed(rules[..n], b, now, first, t);
      var j :| j in jobs && RenewedReminder(t, b, now, j.id) == Some(j);
      assert j in RenewedReminders(rules, b, now, first);
    }
  }

  lemma {:induction false} NoticeJobsExact(n: nat, kind: JobType, booking: BookingId, now: Instant, first: JobId)
    ensures Numbered(NoticeJobs(n, kind, booking, now, first), first)
    ensures forall j :: j in NoticeJobs(n, kind, booking, now, first) ==>
              j.booking == booking && j.kind == kind && j.executeAt == now && j.status == Pending
  {
    if n > 0 {
      NoticeJobsExact(n - 1, kind, booking, now, first);
    }
  }

  // ---------- Runs ----------

  // `send_campaign`: one job for each recipient, a booking or an invitee, five
  // seconds apart.
  function CampaignJobs(recipients: seq<BookingId>, now: Instant, first: JobId): (jobs: seq<Job>)
    ensures |jobs| == |recipients|
  {
    seq(|recipients|, (n: nat) requires n < |recipients| =>
      Job(first + n, CampaignJob, recipients[n], now + Seconds(5 * n), Pending))
  }

  // `made` remembers the rules of the event at the time each job was made.
  datatype State = State(db: Db, made: map<JobId, seq<Trigger>>)

  // Jobs made in this step have the rules of this moment.
  function Made(s: State, after: Db): State {
    State(after, map id | id in s.made.Keys + after.jobs.Keys :: if id in s.made then s.made[id] else s.db.eventRules)
  }

  datatype Call =
    | Create(q: SlotQuery, req: CreateRequest)
    | Reschedule(q: SlotQuery, id: BookingId, time: RequestedTime)
    | Edit(q: SlotQuery, id: BookingId, edit: UpdateRequest)
    | Cancel(ev: Event, id: BookingId, now: Instant)
    | Delete(id: BookingId)
    | Claim(ids: set<JobId>)
    | Mark(jid: JobId, status: JobStatus)
    | Campaign(recipients: seq<BookingId>, at: Instant)
    | Other

  ghost predicate StoreStep(db: Db, after: Db, call: Call) {
    match call
    case Create(q, req) => exists b :: CreateBooking(db, q, req) == Ok((after, b))
    case Reschedule(q, id, time) =>
      id in db.bookings && exists b :: RescheduleBooking(db, q, id, time) == Ok((after, b))
    case Edit(q, id, req) =>
      id in db.bookings && exists b :: UpdateBooking(db, q, id, req) == Ok((after, b))
    case Cancel(ev, id, now) => id in db.bookings && exists b :: CancelBooking(db, ev, id, now) == Ok((after, b))
    case Delete(id) => DeleteRow(db, id) == Ok(after)
    case Claim(ids) => after == db.(jobs := Claimed(db.jobs, ids))
    case Mark(id, status) => status != Pending && after == db.(jobs := SetStatus(db.jobs, id, status))
    // Ids that are unused now are not among the recipients.
    case Campaign(recipients, at) =>
      && (forall r :: r in recipients ==> r < db.nextId)
      && after == db.(jobs := AddJobs(db.jobs, CampaignJobs(recipients, at, db.nextId)),
                      nextId := db.nextId + |recipients|)
    // Rules, sessions, overrides and invitees change.
    case Other => after.bookings == db.bookings && after.jobs == db.jobs && after.nextId >= db.nextId
  }

  ghost predicate Step(s: State, s': State, call: Call) {
    && StoreStep(s.db, s'.db, call) && s' == Made(s, s'.db)
    && (call.Edit? ==> call.id in s'.db.bookings && RemindersFollow(s, call.id, s'.db.bookings[call.id].start))
  }

  ghost predicate JobsKeyed(db: Db) {
    && (forall id :: id in db.bookings ==> db.bookings[id].id == id && id < db.nextId)
    && (forall id :: id in db.jobs ==> id < db.nextId && db.jobs[id].booking < db.nextId)
  }

  // A pending reminder whose booking exists is for a live one, on time.
  ghost predicate Fresh(s: State, id: JobId)
    requires id in s.db.jobs
  {
    var j := s.db.jobs[id];
    j.status == Pending && IsReminder(j) && j.booking in s.db.bookings ==>
      && Live(s.db.bookings[j.booking])
      && id in s.made && OnTime(j, s.db.bookings[j.booking].start, s.made[id])
  }

  ghost predicate Inv(s: State) {
    && JobsKeyed(s.db) && s.made.Keys == s.db.jobs.Keys
    && forall id :: id in s.db.jobs ==> Fresh(s, id)
  }

  // ---------- Preservation ----------

  // Job `id` was there before; if it is still pending, its booking has not
  // moved.
  ghost predicate OldJob(db: Db, after: Db, id: JobId)
    requires id in after.jobs
  {
    && id in db.jobs
    && var j := after.jobs[id];
    && j.kind == db.jobs[id].kind && j.booking == db.jobs[id].booking && j.executeAt == db.jobs[id].executeAt
    && (j.status == Pending ==>
          && db.jobs[id].status == Pending
          && (IsReminder(j) && j.booking in after.bookings ==>
                && j.booking in db.bookings
                && after.bookings[j.booking].status == db.bookings[j.booking].status
                && after.bookings[j.booking].start == db.bookings[j.booking].start))
  }

  // Job `id` is new, and on time if it is a reminder.
  ghost predicate NewJob(db: Db, after: Db, id: JobId)
    requires id in after.jobs
  {
    && db.nextId <= id < after.nextId
    && var j := after.jobs[id];
    && j.booking < after.nextId
    && (IsReminder(j) && j.booking in after.bookings ==>
          Live(after.bookings[j.booking]) && OnTime(j, after.bookings[j.booking].start, db.eventRules))
  }

  ghost predicate JobsFollow(db: Db, after: Db) {
    && (forall id :: id in after.bookings ==> after.bookings[id].id == id && id < after.nextId)
    && db.nextId <= after.nextId && db.jobs.Keys <= after.jobs.Keys
    && forall id :: id in after.jobs ==> OldJob(db, after, id) || NewJob(db, after, id)
  }

  lemma FollowsKeepsInv(s: State, s': State)
    requires Inv(s) && JobsFollow(s.db, s'.db) && s' == Made(s, s'.db)
    ensures Inv(s')
  {
    forall id | id in s'.db.jobs ensures Fresh(s', id) && id < s'.db.nextId && s'.db.jobs[id].booking < s'.db.nextId {
      if OldJob(s.db, s'.db, id) {
        assert Fresh(s, id);
      }
    }
  }

  // New jobs for one booking join the table.
  ghost predicate ForBooking(more: seq<Job>, first: JobId, b: Booking, rules: seq<Trigger>) {
    && Numbered(more, first)
    && forall j :: j in more ==> j.booking == b.id && (IsReminder(j) ==> Live(b) && OnTime(j, b.start, rules))
  }

  // `jobs` are the old jobs after the pending ones of the booking, if it was
  // there, are cancelled.
  lemma JobsJoin(db: Db, after: Db, jobs: map<JobId, Job>, more: seq<Job>, first: JobId, b: Booking)
    requires JobsKeyed(db) && jobs.Keys == db.jobs.Keys
    requires jobs == CancelJobs(db.jobs, b.id)
    requires db.nextId <= first && ForBooking(more, first, b, db.eventRules)
    requires after.jobs == AddJobs(jobs, more) && after.nextId == first + |more| && b.id < after.nextId
    requires after.bookings == db.bookings[b.id := b]
    ensures JobsFollow(db, after)
  {
    forall id | id in db.jobs ensures id in after.jobs {
      KeptJob(jobs, more, id);
    }
    forall id | id in after.jobs ensures OldJob(db, after, id) || NewJob(db, after, id) {
      AddJobsExact(jobs, more, id);
    }
  }

  lemma NothingToCancel(db: Db, booking: BookingId)
    requires JobsKeyed(db) && booking >= db.nextId
    ensures CancelJobs(db.jobs, booking) == db.jobs
  {
  }

  lemma CreateFollows(db: Db, q: SlotQuery, req: CreateRequest, after: Db, b: Booking)
    requires JobsKeyed(db) && CreateBooking(db, q, req) == Ok((after, b))
    ensures JobsFollow(db, after)
  {
    var burn := CreateIsCommit(db, q, req, after, b);
    CommitFollows(db, b, burn, q.now, after);
  }

  lemma CommitFollows(db: Db, b: Booking, burn: Option<Token>, now: Instant, after: Db)
    requires JobsKeyed(db) && b.id == db.nextId && Live(b) && Commit(db, b, burn, now) == Ok((after, b))
    ensures JobsFollow(db, after)
  {
    var first := db.nextId + 1;
    CreationJobsExact(db.eventRules, b, now, first);
    CreationRemindersOnTime(db.eventRules, b, now, first);
    NothingToCancel(db, b.id);
    JobsJoin(db, after, db.jobs, CreationJobs(db.eventRules, b, now, first), first, b);
  }

  lemma CreateIsCommit(db: Db, q: SlotQuery, req: CreateRequest, after: Db, b: Booking) returns (burn: Option<Token>)
    requires CreateBooking(db, q, req) == Ok((after, b))
    ensures b.id == db.nextId && b.managementToken == db.nextId && Live(b)
              && Commit(db, b, burn, q.now) == Ok((after, b))
  {
    burn := if CheckAccess(db, q.event.access, req.token).value.Some? then req.token else None;
  }

  lemma RescheduleIsMove(db: Db, q: SlotQuery, id: BookingId, time: RequestedTime, after: Db, b: Booking)
    requires id in db.bookings && db.bookings[id].id == id && RescheduleBooking(db, q, id, time) == Ok((after, b))
    ensures b.id == id && b.managementToken == db.bookings[id].managementToken && Live(b)
    ensures after == RescheduleJobs(db.(bookings := db.bookings[id := b]), b, q.now)
  {
  }

  // Notices and renewed reminders, as one list.
  function RescheduleBatch(db: Db, b: Booking, now: Instant): seq<Job> {
    var notices := NoticeJobs(RulesFor(db, OnReschedule), JobType.RescheduleJob, b.id, now, db.nextId);
    notices + RenewedReminders(db.eventRules, b, now, db.nextId + |notices|)
  }

  lemma {:induction false} AddJobsTwice(jobs: map<JobId, Job>, a: seq<Job>, b: seq<Job>)
    ensures AddJobs(AddJobs(jobs, a), b) == AddJobs(jobs, a + b)
  {
    if b == [] {
      assert a + b == a;
    } else {
      var n := |b| - 1;
      assert (a + b)[..|a + b| - 1] == a + b[..n];
      AddJobsTwice(jobs, a, b[..n]);
    }
  }

  lemma RescheduleBatchExact(db: Db, b: Booking, now: Instant)
    requires Live(b)
    ensures ForBooking(RescheduleBatch(db, b, now), db.nextId, b, db.eventRules)
  {
    var n := RulesFor(db, OnReschedule);
    NoticeJobsExact(n, JobType.RescheduleJob, b.id, now, db.nextId);
    RenewedRemindersExact(db.eventRules, b, now, db.nextId + n);
    forall j | j in RenewedReminders(db.eventRules, b, now, db.nextId + n) ensures OnTime(j, b.start, db.eventRules) {
      assert For(j, b.start, j.kind.trigger);
    }
  }

  lemma RescheduleFollows(db: Db, q: SlotQuery, id: BookingId, time: RequestedTime, after: Db, b: Booking)
    requires JobsKeyed(db) && id in db.bookings && RescheduleBooking(db, q, id, time) == Ok((after, b))
    ensures JobsFollow(db, after)
  {
    RescheduleIsMove(db, q, id, time, after, b);
    MoveFollows(db, b, q.now, after);
  }

  lemma MovedJobs(db: Db, b: Booking, now: Instant, after: Db)
    requires after == RescheduleJobs(db.(bookings := db.bookings[b.id := b]), b, now)
    ensures after.jobs == AddJobs(CancelJobs(db.jobs, b.id), RescheduleBatch(db, b, now))
    ensures after.nextId == db.nextId + |RescheduleBatch(db, b, now)|
    ensures after.bookings == db.bookings[b.id := b]
  {
    var notices := NoticeJobs(RulesFor(db, OnReschedule), JobType.RescheduleJob, b.id, now, db.nextId);
    AddJobsTwice(CancelJobs(db.jobs, b.id), notices, RenewedReminders(db.eventRules, b, now, db.nextId + |notices|));
  }

  lemma MoveFollows(db: Db, b: Booking, now: Instant, after: Db)
    requires JobsKeyed(db) && b.id in db.bookings && Live(b)
    requires after == RescheduleJobs(db.(bookings := db.bookings[b.id := b]), b, now)
    ensures JobsFollow(db, after)
  {
    MovedJobs(db, b, now, after);
    RescheduleBatchExact(db, b, now);
    JobsJoin(db, after, CancelJobs(db.jobs, b.id), RescheduleBatch(db, b, now), db.nextId, b);
  }

  lemma CancelFollows(db: Db, ev: Event, id: BookingId, now: Instant, after: Db, b: Booking)
    requires JobsKeyed(db) && id in db.bookings && CancelBooking(db, ev, id, now) == Ok((after, b))
    ensures JobsFollow(db, after)
  {
    if Live(db.bookings[id]) {
      var n := RulesFor(db, OnCancel);
      var notices := NoticeJobs(n, JobType.CancellationJob, id, now, db.nextId);
      NoticeJobsExact(n, JobType.CancellationJob, id, now, db.nextId);
      JobsJoin(db, after, CancelJobs(db.jobs, id), notices, db.nextId, b);
    } else {
      forall jid | jid in after.jobs ensures OldJob(db, after, jid) {}
    }
  }

  predicate RemindsOf(j: Job, booking: BookingId) {
    j.booking == booking && j.status == Pending && IsReminder(j)
  }

  // Every pending reminder of the booking is on time for this start.
  ghost predicate RemindersFollow(s: State, booking: BookingId, start: Instant) {
    forall id :: id in s.db.jobs && id in s.made && RemindsOf(s.db.jobs[id], booking) ==>
      OnTime(s.db.jobs[id], start, s.made[id])
  }

  // An accepted admin edit keeps reminders fresh if and only if each pending
  // reminder of the booking is on time for its new start too.
  lemma EditExact(s: State, q: SlotQuery, id: BookingId, req: UpdateRequest, after: Db, b: Booking)
    requires Inv(s) && id in s.db.bookings && UpdateBooking(s.db, q, id, req) == Ok((after, b))
    ensures Inv(Made(s, after)) <==> RemindersFollow(s, id, b.start)
  {
    EditEffect(s.db, q, id, req, after, b);
    MovedRowExact(s, id, after, b);
  }

  lemma MovedRowExact(s: State, id: BookingId, after: Db, b: Booking)
    requires Inv(s) && id in s.db.bookings && after == s.db.(bookings := s.db.bookings[id := b])
    requires b.id == id && b.status == s.db.bookings[id].status
    ensures Inv(Made(s, after)) <==> RemindersFollow(s, id, b.start)
  {
    var s' := Made(s, after);
    assert s'.made == s.made;
    forall jid | jid in s.db.jobs
      ensures Fresh(s', jid) <==>
                (RemindsOf(s.db.jobs[jid], id) ==> OnTime(s.db.jobs[jid], b.start, s.made[jid]))
    {
      assert Fresh(s, jid);
    }
    if Inv(s') {
      forall jid | jid in s.db.jobs && RemindsOf(s.db.jobs[jid], id)
        ensures OnTime(s.db.jobs[jid], b.start, s.made[jid])
      {
        assert Fresh(s', jid);
      }
    }
  }

  lemma EditEffect(db: Db, q: SlotQuery, id: BookingId, req: UpdateRequest, after: Db, b: Booking)
    requires (id in db.bookings ==> db.bookings[id].id == id) && UpdateBooking(db, q, id, req) == Ok((after, b))
    ensures id in db.bookings && after == db.(bookings := db.bookings[id := b])
    ensures b.id == id && b.status == db.bookings[id].status && b.managementToken == db.bookings[id].managementToken
  {
  }

  lemma HandlerFollows(db: Db, after: Db, call: Call)
    requires JobsKeyed(db) && StoreStep(db, after, call) && (call.Create? || call.Reschedule? || call.Cancel?)
    ensures JobsFollow(db, after)
  {
    match call
    case Create(q, req) =>
      var b :| CreateBooking(db, q, req) == Ok((after, b));
      CreateFollows(db, q, req, after, b);
    case Reschedule(q, id, time) =>
      var b :| RescheduleBooking(db, q, id, time) == Ok((after, b));
      RescheduleFollows(db, q, id, time, after, b);
    case Cancel(ev, id, now) =>
      var b :| CancelBooking(db, ev, id, now) == Ok((after, b));
      CancelFollows(db, ev, id, now, after, b);
  }

  lemma EditStepKeepsInv(s: State, s': State, q: SlotQuery, id: BookingId, edit: UpdateRequest)
    requires Inv(s) && Step(s, s', Edit(q, id, edit))
    ensures Inv(s')
  {
    var b :| UpdateBooking(s.db, q, id, edit) == Ok((s'.db, b));
    EditEffect(s.db, q, id, edit, s'.db, b);
    MovedRowExact(s, id, s'.db, b);
  }

  lemma StepKeepsInv(s: State, s': State, call: Call)
    requires Inv(s) && Step(s, s', call)
    ensures Inv(s')
  {
    if call.Edit? {
      EditStepKeepsInv(s, s', call.q, call.id, call.edit);
    } else {
      if call.Create? || call.Reschedule? || call.Cancel? {
        HandlerFollows(s.db, s'.db, call);
      } else if call.Campaign? {
        CampaignFollows(s.db, s'.db, call.recipients, call.at);
      } else {
        WorkerFollows(s.db, s'.db, call);
      }
      FollowsKeepsInv(s, s');
    }
  }

  lemma CampaignJobsExact(recipients: seq<BookingId>, now: Instant, first: JobId)
    ensures Numbered(CampaignJobs(recipients, now, first), first)
    ensures forall j :: j in CampaignJobs(recipients, now, first) ==>
              j.kind == CampaignJob && j.booking in recipients && first <= j.id < first + |recipients|
  {
    var more := CampaignJobs(recipients, now, first);
    forall j | j in more ensures j.kind == CampaignJob && j.booking in recipients {
      var n :| 0 <= n < |more| && more[n] == j;
      assert j.booking == recipients[n];
    }
  }

  lemma CampaignFollows(db: Db, after: Db, recipients: seq<BookingId>, now: Instant)
    requires JobsKeyed(db) && StoreStep(db, after, Campaign(recipients, now))
    ensures JobsFollow(db, after)
  {
    var more := CampaignJobs(recipients, now, db.nextId);
    CampaignJobsExact(recipients, now, db.nextId);
    forall id | id in db.jobs ensures id in after.jobs {
      KeptJob(db.jobs, more, id);
    }
    forall id | id in after.jobs ensures OldJob(db, after, id) || NewJob(db, after, id) {
      AddJobsExact(db.jobs, more, id);
    }
  }

  lemma WorkerFollows(db: Db, after: Db, call: Call)
    requires JobsKeyed(db) && StoreStep(db, after, call)
    requires call.Delete? || call.Claim? || call.Mark? || call.Other?
    ensures JobsFollow(db, after)
  {
    forall id | id in after.jobs ensures OldJob(db, after, id) {}
  }

  ghost predicate Run(run: seq<State>, calls: seq<Call>) {
    && Trace(Step, run, calls)
    && run[0].db.bookings == map[] && run[0].db.jobs == map[] && run[0].made == map[]
  }

  lemma StepsKeepInv()
    ensures Keeps(Inv, Step)
  {
    forall s, s', call | Inv(s) && Step(s, s', call) ensures Inv(s') {
      StepKeepsInv(s, s', call);
    }
  }

  // Between handler calls, every pending reminder of a booking is due at the
  // current start minus the lead of a rule in force when it was made, and no
  // cancelled booking has one.
  lemma NoStaleReminders(run: seq<State>, calls: seq<Call>, n: nat, id: JobId)
    requires Run(run, calls) && n < |run| && id in run[n].db.jobs
    ensures var j := run[n].db.jobs[id];
            j.status == Pending && IsReminder(j) && j.booking in run[n].db.bookings ==>
              && run[n].db.bookings[j.booking].status == Confirmed
              && id in run[n].made && OnTime(j, run[n].db.bookings[j.booking].start, run[n].made[id])
  {
    StepsKeepInv();
    Invariant(Inv, Step, run, calls, n);
    assert Fresh(run[n], id);
  }

  // ---------- Reminders after a reschedule ----------

  // A pending reminder of the booking for rule t at that time.
  ghost predicate Reminds(db: Db, booking: BookingId, t: Trigger, at: Instant) {
    exists id :: id in db.jobs
      && db.jobs[id].booking == booking && db.jobs[id].status == Pending
      && db.jobs[id].kind == TriggerJob(t) && db.jobs[id].executeAt == at
  }

  // After a reschedule, the pending reminders of the booking are exactly
  // those its rules ask for at the new start, as far as they lie ahead.
  lemma RescheduleRenewsReminders(db: Db, q: SlotQuery, id: BookingId, time: RequestedTime, after: Db, b: Booking,
      t: Trigger, at: Instant)
    requires JobsKeyed(db) && id in db.bookings && RescheduleBooking(db, q, id, time) == Ok((after, b))
    ensures Reminds(after, id, t, at) <==>
              t in db.eventRules && ReminderLead(t).Some? && at == b.start - ReminderLead(t).value && at > q.now
    ensures forall jid :: jid in after.jobs && after.jobs[jid].booking == id && after.jobs[jid].status == Pending ==>
              after.jobs[jid].kind != ReminderJob
  {
    RescheduleIsMove(db, q, id, time, after, b);
    MovedJobs(db, b, q.now, after);
    MovedReminds(db, b, q.now, after, t, at);
  }

  // A reschedule makes one notice for each rule, on the spot, and otherwise
  // only reminders.
  lemma RescheduleMakesNotices(db: Db, q: SlotQuery, id: BookingId, time: RequestedTime, after: Db, b: Booking,
      kind: JobType, at: Instant)
    requires JobsKeyed(db) && id in db.bookings && RescheduleBooking(db, q, id, time) == Ok((after, b))
               && !kind.TriggerJob?
    ensures HasJob(after.jobs, id, kind, at) <==>
              kind == JobType.RescheduleJob && RulesFor(db, OnReschedule) > 0 && at == q.now
    ensures |after.jobs| ==
              |db.jobs| + RulesFor(db, OnReschedule) + |RenewedReminders(db.eventRules, b, q.now, after.nextId)|
  {
    RescheduleIsMove(db, q, id, time, after, b);
    MovedJobs(db, b, q.now, after);
    MovedNotices(db, b, q.now, after, kind, at);
    MovedJobCount(db, b, q.now, after);
  }

  lemma MovedJobCount(db: Db, b: Booking, now: Instant, after: Db)
    requires JobsKeyed(db) && Live(b) && after.jobs == AddJobs(CancelJobs(db.jobs, b.id), RescheduleBatch(db, b, now))
    ensures |after.jobs| ==
              |db.jobs| + RulesFor(db, OnReschedule) + |RenewedReminders(db.eventRules, b, now, after.nextId)|
  {
    RescheduleBatchExact(db, b, now);
    var jobs := CancelJobs(db.jobs, b.id);
    AddedSize(jobs, RescheduleBatch(db, b, now), db.nextId);
    assert jobs.Keys == db.jobs.Keys;
    assert |jobs| == |jobs.Keys| == |db.jobs.Keys|;
    ReminderCount(db.eventRules, b, now, db.nextId + RulesFor(db, OnReschedule), after.nextId);
  }

  lemma {:induction false} ReminderCount(rules: seq<Trigger>, b: Booking, now: Instant, first: JobId, other: JobId)
    ensures |RenewedReminders(rules, b, now, first)| == |RenewedReminders(rules, b, now, other)|
  {
    if rules != [] {
      ReminderCount(rules[..|rules| - 1], b, now, first, other);
    }
  }

  lemma MovedNotices(db: Db, b: Booking, now: Instant, after: Db, kind: JobType, at: Instant)
    requires Live(b) && after.jobs == AddJobs(CancelJobs(db.jobs, b.id), RescheduleBatch(db, b, now))
               && !kind.TriggerJob?
    ensures HasJob(after.jobs, b.id, kind, at) <==>
              kind == JobType.RescheduleJob && RulesFor(db, OnReschedule) > 0 && at == now
  {
    PendingIsNew(db, b, now, after);
    BatchNotices(db, b, now);
    if RulesFor(db, OnReschedule) > 0 {
      NoticeIsAdded(db, b, now, after);
    }
  }

  lemma BatchNotices(db: Db, b: Booking, now: Instant)
    ensures forall j :: j in RescheduleBatch(db, b, now) && !j.kind.TriggerJob? ==>
              j.kind == JobType.RescheduleJob && j.executeAt == now && RulesFor(db, OnReschedule) > 0
  {
    var n := RulesFor(db, OnReschedule);
    NoticeJobsExact(n, JobType.RescheduleJob, b.id, now, db.nextId);
    RenewedRemindersExact(db.eventRules, b, now, db.nextId + n);
  }

  lemma NoticeIsAdded(db: Db, b: Booking, now: Instant, after: Db)
    requires Live(b) && after.jobs == AddJobs(CancelJobs(db.jobs, b.id), RescheduleBatch(db, b, now))
    requires RulesFor(db, OnReschedule) > 0
    ensures HasJob(after.jobs, b.id, JobType.RescheduleJob, now)
  {
    var notices := NoticeJobs(RulesFor(db, OnReschedule), JobType.RescheduleJob, b.id, now, db.nextId);
    NoticeJobsExact(RulesFor(db, OnReschedule), JobType.RescheduleJob, b.id, now, db.nextId);
    RescheduleBatchExact(db, b, now);
    assert notices[0] in RescheduleBatch(db, b, now);
    AddedJob(CancelJobs(db.jobs, b.id), RescheduleBatch(db, b, now), db.nextId, notices[0]);
  }

  // A cancellation leaves the booking with one pending notice for each rule
  // and no other pending job.
  lemma CancelMakesNotices(db: Db, ev: Event, id: BookingId, now: Instant, after: Db, b: Booking, kind: JobType,
      at: Instant)
    requires JobsKeyed(db) && id in db.bookings && Live(db.bookings[id])
               && CancelBooking(db, ev, id, now) == Ok((after, b))
    ensures HasJob(after.jobs, id, kind, at) <==>
              kind == JobType.CancellationJob && RulesFor(db, OnCancel) > 0 && at == now
    ensures |after.jobs| == |db.jobs| + RulesFor(db, OnCancel)
  {
    var n := RulesFor(db, OnCancel);
    var notices := NoticeJobs(n, JobType.CancellationJob, id, now, db.nextId);
    assert after.jobs == AddJobs(CancelJobs(db.jobs, id), notices);
    CancelledNotices(db.jobs, id, notices, n, now, db.nextId, after.jobs, kind, at);
  }

  lemma CancelledNotices(
    jobs: map<JobId, Job>, id: BookingId, notices: seq<Job>, n: nat, now: Instant, first: JobId, after: map<JobId, Job>,
      kind: JobType, at: Instant)
    requires notices == NoticeJobs(n, JobType.CancellationJob, id, now, first) && forall j :: j in jobs ==> j < first
    requires after == AddJobs(CancelJobs(jobs, id), notices)
    ensures HasJob(after, id, kind, at) <==> kind == JobType.CancellationJob && n > 0 && at == now
    ensures |after| == |jobs| + n
  {
    NoticeJobsExact(n, JobType.CancellationJob, id, now, first);
    AddedSize(CancelJobs(jobs, id), notices, first);
    assert CancelJobs(jobs, id).Keys == jobs.Keys;
    assert |CancelJobs(jobs, id)| == |CancelJobs(jobs, id).Keys| == |jobs.Keys|;
    forall jid | jid in after && after[jid].booking == id && after[jid].status == Pending
      ensures after[jid] in notices
    {
      AddJobsExact(CancelJobs(jobs, id), notices, jid);
    }
    if n > 0 {
      AddedJob(CancelJobs(jobs, id), notices, first, notices[0]);
    }
  }

  lemma MovedReminds(db: Db, b: Booking, now: Instant, after: Db, t: Trigger, at: Instant)
    requires Live(b) && after.jobs == AddJobs(CancelJobs(db.jobs, b.id), RescheduleBatch(db, b, now))
    ensures Reminds(after, b.id, t, at) <==>
              t in db.eventRules && ReminderLead(t).Some? && at == b.start - ReminderLead(t).value && at > now
    ensures forall jid :: jid in after.jobs && after.jobs[jid].booking == b.id && after.jobs[jid].status == Pending ==>
              after.jobs[jid].kind != ReminderJob
  {
    BatchReminders(db, b, now);
    PendingIsNew(db, b, now, after);
    if t in db.eventRules && ReminderLead(t).Some? && at == b.start - ReminderLead(t).value && at > now {
      BatchHasRule(db, b, now, t, after);
    }
  }

  lemma PendingIsNew(db: Db, b: Booking, now: Instant, after: Db)
    requires after.jobs == AddJobs(CancelJobs(db.jobs, b.id), RescheduleBatch(db, b, now))
    ensures forall id :: id in after.jobs && after.jobs[id].booking == b.id && after.jobs[id].status == Pending ==>
              after.jobs[id] in RescheduleBatch(db, b, now)
  {
    forall id | id in after.jobs && after.jobs[id].booking == b.id && after.jobs[id].status == Pending
      ensures after.jobs[id] in RescheduleBatch(db, b, now)
    {
      AddJobsExact(CancelJobs(db.jobs, b.id), RescheduleBatch(db, b, now), id);
    }
  }

  lemma BatchReminders(db: Db, b: Booking, now: Instant)
    ensures forall j :: j in RescheduleBatch(db, b, now) ==>
              || j.kind == JobType.RescheduleJob
              || (j.kind.TriggerJob? && j.kind.trigger in db.eventRules
                   && RenewedReminder(j.kind.trigger, b, now, j.id) == Some(j))
  {
    var n := RulesFor(db, OnReschedule);
    NoticeJobsExact(n, JobType.RescheduleJob, b.id, now, db.nextId);
    RenewedRemindersExact(db.eventRules, b, now, db.nextId + n);
  }

  lemma BatchHasRule(db: Db, b: Booking, now: Instant, t: Trigger, after: Db)
    requires Live(b) && after.jobs == AddJobs(CancelJobs(db.jobs, b.id), RescheduleBatch(db, b, now))
    requires t in db.eventRules && ReminderLead(t).Some? && b.start - ReminderLead(t).value > now
    ensures Reminds(after, b.id, t, b.start - ReminderLead(t).value)
  {
    var first := db.nextId + RulesFor(db, OnReschedule);
    EachRuleRenewed(db.eventRules, b, now, first, t);
    var j :| j in RenewedReminders(db.eventRules, b, now, first) && RenewedReminder(t, b, now, j.id) == Some(j);
    assert j in RescheduleBatch(db, b, now);
    RescheduleBatchExact(db, b, now);
    AddedJob(CancelJobs(db.jobs, b.id), RescheduleBatch(db, b, now), db.nextId, j);
  }

  // ---------- Jobs of a new booking ----------

  ghost predicate HasJob(jobs: map<JobId, Job>, booking: BookingId, kind: JobType, at: Instant) {
    exists id :: id in jobs && jobs[id].booking == booking && jobs[id].status == Pending
      && jobs[id].kind == kind && jobs[id].executeAt == at
  }

  // A rule of the event asks for a reminder at this time, which lies ahead.
  ghost predicate ReminderDue(db: Db, start: Instant, at: Instant, now: Instant) {
    exists t :: t in db.eventRules && ReminderLead(t).Some? && at == start - ReminderLead(t).value && at > now
  }

  // A new booking has a confirmation exactly when a rule asks for one, and
  // exactly the reminders its rules ask for that still lie ahead.
  lemma CreateMakesJobs(db: Db, q: SlotQuery, req: CreateRequest, after: Db, b: Booking, at: Instant)
    requires JobsKeyed(db) && CreateBooking(db, q, req) == Ok((after, b))
    ensures HasJob(after.jobs, b.id, ConfirmationJob, at) <==> OnBooking in db.eventRules && at == q.now
    ensures HasJob(after.jobs, b.id, ReminderJob, at) <==> ReminderDue(db, b.start, at, q.now)
    ensures |after.jobs| == |db.jobs| + Count(MakesJob(b, q.now), db.eventRules)
  {
    var burn := CreateIsCommit(db, q, req, after, b);
    CommitMakesJobs(db, b, burn, q.now, after, at);
  }

  lemma {:induction false} AddedSize(jobs: map<JobId, Job>, more: seq<Job>, first: JobId)
    requires Numbered(more, first) && forall id :: id in jobs ==> id < first
    ensures |AddJobs(jobs, more)| == |jobs| + |more|
    ensures forall id :: id in AddJobs(jobs, more) ==> id < first + |more|
  {
    if more != [] {
      var n := |more| - 1;
      AddedSize(jobs, more[..n], first);
      var before := AddJobs(jobs, more[..n]);
      assert AddJobs(jobs, more).Keys == before.Keys + {more[n].id};
      assert |AddJobs(jobs, more).Keys| == |before.Keys| + 1;
    }
  }

  lemma CommitMakesJobs(db: Db, b: Booking, burn: Option<Token>, now: Instant, after: Db, at: Instant)
    requires JobsKeyed(db) && b.id == db.nextId && Commit(db, b, burn, now) == Ok((after, b))
    ensures HasJob(after.jobs, b.id, ConfirmationJob, at) <==> OnBooking in db.eventRules && at == now
    ensures HasJob(after.jobs, b.id, ReminderJob, at) <==> ReminderDue(db, b.start, at, now)
    ensures |after.jobs| == |db.jobs| + Count(MakesJob(b, now), db.eventRules)
  {
    assert after.jobs == AddJobs(db.jobs, CreationJobs(db.eventRules, b, now, db.nextId + 1));
    MadeJobCount(db, b, now, after.jobs);
    MadeJobs(db, b, now, after.jobs, at);
  }

  lemma MadeJobCount(db: Db, b: Booking, now: Instant, jobs: map<JobId, Job>)
    requires JobsKeyed(db) && jobs == AddJobs(db.jobs, CreationJobs(db.eventRules, b, now, db.nextId + 1))
    ensures |jobs| == |db.jobs| + Count(MakesJob(b, now), db.eventRules)
  {
    CreationJobsExact(db.eventRules, b, now, db.nextId + 1);
    AddedSize(db.jobs, CreationJobs(db.eventRules, b, now, db.nextId + 1), db.nextId + 1);
  }

  lemma MadeJobs(db: Db, b: Booking, now: Instant, jobs: map<JobId, Job>, at: Instant)
    requires JobsKeyed(db) && b.id == db.nextId
               && jobs == AddJobs(db.jobs, CreationJobs(db.eventRules, b, now, db.nextId + 1))
    ensures HasJob(jobs, b.id, ConfirmationJob, at) <==> OnBooking in db.eventRules && at == now
    ensures HasJob(jobs, b.id, ReminderJob, at) <==> ReminderDue(db, b.start, at, now)
  {
    JobsComeFromRules(db, b, now, jobs, at);
    if ReminderDue(db, b.start, at, now) {
      var t :| t in db.eventRules && ReminderLead(t).Some? && at == b.start - ReminderLead(t).value && at > now;
      RuleHasJob(db, b, now, jobs, t);
    }
    if OnBooking in db.eventRules {
      RuleHasJob(db, b, now, jobs, OnBooking);
    }
  }

  lemma JobsComeFromRules(db: Db, b: Booking, now: Instant, jobs: map<JobId, Job>, at: Instant)
    requires JobsKeyed(db) && b.id == db.nextId
    requires jobs == AddJobs(db.jobs, CreationJobs(db.eventRules, b, now, db.nextId + 1))
    ensures HasJob(jobs, b.id, ConfirmationJob, at) ==> OnBooking in db.eventRules && at == now
    ensures HasJob(jobs, b.id, ReminderJob, at) ==> ReminderDue(db, b.start, at, now)
  {
    NewJobsAreAdded(db, b, now, jobs);
  }

  lemma RuleHasJob(db: Db, b: Booking, now: Instant, jobs: map<JobId, Job>, t: Trigger)
    requires JobsKeyed(db) && jobs == AddJobs(db.jobs, CreationJobs(db.eventRules, b, now, db.nextId + 1))
    requires t in db.eventRules && CreationJob(t, b, now, 0).Some?
    ensures var j := CreationJob(t, b, now, 0).value; HasJob(jobs, b.id, j.kind, j.executeAt)
  {
    var first := db.nextId + 1;
    CreationJobsExact(db.eventRules, b, now, first);
    EachRuleServed(db.eventRules, b, now, first, t);
    var j :| j in CreationJobs(db.eventRules, b, now, first) && CreationJob(t, b, now, j.id) == Some(j);
    AddedHasJob(db.jobs, CreationJobs(db.eventRules, b, now, first), first, j);
    assert j == CreationJob(t, b, now, 0).value.(id := j.id);
  }

  lemma AddedHasJob(jobs: map<JobId, Job>, more: seq<Job>, first: JobId, j: Job)
    requires Numbered(more, first) && j in more && j.status == Pending
    ensures HasJob(AddJobs(jobs, more), j.booking, j.kind, j.executeAt)
  {
    AddedJob(jobs, more, first, j);
    assert AddJobs(jobs, more)[j.id] == j;
  }

  lemma NewJobsAreAdded(db: Db, b: Booking, now: Instant, jobs: map<JobId, Job>)
    requires JobsKeyed(db) && b.id == db.nextId
               && jobs == AddJobs(db.jobs, CreationJobs(db.eventRules, b, now, db.nextId + 1))
    ensures forall id :: id in jobs && jobs[id].booking == b.id ==>
              exists t :: t in db.eventRules && CreationJob(t, b, now, jobs[id].id) == Some(jobs[id])
  {
    var more := CreationJobs(db.eventRules, b, now, db.nextId + 1);
    CreationJobsExact(db.eventRules, b, now, db.nextId + 1);
    forall id | id in jobs && jobs[id].booking == b.id
      ensures exists t :: t in db.eventRules && CreationJob(t, b, now, jobs[id].id) == Some(jobs[id])
    {
      AddJobsExact(db.jobs, more, id);
      assert jobs[id] in more;
    }
  }

  // ---------- The rule a worker picks ----------

  // `num_hours` cuts towards zero.
  function HoursBetween(s: Instant, e: Instant): int {
    if s <= e then (e - s) / Minutes(60) else -((s - e) / Minutes(60))
  }

  // `resolved_trigger` of a job that is not a campaign job.
  function ResolvedTrigger(j: Job, start: Instant): Trigger {
    match j.kind
    case ConfirmationJob => OnBooking
    case CancellationJob => OnCancel
    case RescheduleJob => OnReschedule
    case ReminderJob => if HoursBetween(j.executeAt, start) >= 23 then Reminder24H else Reminder1H
    case TriggerJob(t) => t
    case CampaignJob => OtherTrigger
  }

  // A reminder that is on time is sent under the rule it was made for exactly
  // when it carries that rule's name or the rule is one of the two standard
  // ones: a custom reminder made with the booking is taken for one of those.
  lemma ReminderResolution(j: Job, start: Instant, t: Trigger)
    requires For(j, start, t)
    ensures ResolvedTrigger(j, start) == t <==> j.kind == TriggerJob(t) || t == Reminder24H || t == Reminder1H
    ensures j.kind == ReminderJob && t.ReminderMinutes? ==>
              ResolvedTrigger(j, start) == if t.minutes >= 23 * 60 then Reminder24H else Reminder1H
  {
    var lead := ReminderLead(t).value;
    assert start - j.executeAt == lead;
    if lead >= 0 {
      assert HoursBetween(j.executeAt, start) >= 23 <==> lead >= 23 * Minutes(60);
    }
  }

  // While the booking stays where it was, the worker finds for a job of a new
  // booking the rule it was made for, except for custom reminders; for jobs
  // of a reschedule it always does, wherever the booking is.
  lemma JobResolution(t: Trigger, b: Booking, now: Instant, id: JobId, start: Instant)
    ensures var j := CreationJob(t, b, now, id);
            j.Some? ==> (ResolvedTrigger(j.value, b.start) == t <==> !t.ReminderMinutes?)
    ensures var j := RenewedReminder(t, b, now, id);
            j.Some? ==> ResolvedTrigger(j.value, start) == t
    ensures forall j :: j in NoticeJobs(1, JobType.RescheduleJob, b.id, now, id) ==>
              ResolvedTrigger(j, start) == OnReschedule
    ensures forall j :: j in NoticeJobs(1, JobType.CancellationJob, b.id, now, id) ==>
              ResolvedTrigger(j, start) == OnCancel
  {
    var j := CreationJob(t, b, now, id);
    if j.Some? && ReminderLead(t).Some? {
      ReminderResolution(j.value, b.start, t);
    }
    NoticeJobsExact(1, JobType.RescheduleJob, b.id, now, id);
    NoticeJobsExact(1, JobType.CancellationJob, b.id, now, id);
  }
}
