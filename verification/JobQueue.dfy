// The job queue (src/infra/repositories/postgres_job_repo.rs and
// sqlite_job_repo.rs) and its workers (src/background.rs).
module JobQueue {
  import opened Results
  import opened Time
  import opened Models
  import opened Availability
  import opened Store
  import opened Runs

  type WorkerId = nat

  // ---------- The repository ----------

  // What `find_pending` may claim: due jobs, as many as the limit allows.
  ghost predicate ClaimBatch(jobs: map<JobId, Job>, now: Instant, limit: nat, ids: set<JobId>) {
    ids <= DueIds(jobs, now) && |ids| == Min(limit, |DueIds(jobs, now)|)
  }

  predicate Distinct(ids: seq<JobId>) {
    forall i, j :: 0 <= i < j < |ids| ==> ids[i] != ids[j]
  }

  ghost predicate NoLater(jobs: map<JobId, Job>, a: set<JobId>, b: set<JobId>) {
    forall c, l :: c in a && l in b && c in jobs && l in jobs ==> jobs[c].executeAt <= jobs[l].executeAt
  }

  // Postgres takes the earliest; SQLite takes any.
  ghost predicate EarliestFirst(jobs: map<JobId, Job>, now: Instant, ids: set<JobId>) {
    NoLater(jobs, ids, DueIds(jobs, now) - ids)
  }

  function Elements(ids: seq<JobId>): set<JobId> {
    set id | id in ids
  }

  lemma ElementsSnoc(ids: seq<JobId>, id: JobId)
    requires Distinct(ids) && id !in ids
    ensures Elements(ids + [id]) == Elements(ids) + {id} && Distinct(ids + [id])
  {
  }

  lemma {:induction false} DistinctSize(ids: seq<JobId>)
    requires Distinct(ids)
    ensures |Elements(ids)| == |ids|
  {
    if ids != [] {
      var n := |ids| - 1;
      DistinctSize(ids[..n]);
      assert ids == ids[..n] + [ids[n]];
      ElementsSnoc(ids[..n], ids[n]);
    }
  }

  // `batch` lists the jobs of `due` that are not `left`, none later than those.
  ghost predicate Selected(jobs: map<JobId, Job>, due: set<JobId>, batch: seq<JobId>, left: set<JobId>) {
    Distinct(batch) && Elements(batch) == due - left && NoLater(jobs, Elements(batch), left)
  }

  lemma SelectNext(jobs: map<JobId, Job>, due: set<JobId>, batch: seq<JobId>, left: set<JobId>, id: JobId)
    requires Selected(jobs, due, batch, left) && left <= due <= jobs.Keys
    requires id in left && forall l :: l in left ==> jobs[id].executeAt <= jobs[l].executeAt
    ensures Selected(jobs, due, batch + [id], left - {id})
  {
    assert id !in Elements(batch);
    ElementsSnoc(batch, id);
  }

  lemma SelectedIsBatch(jobs: map<JobId, Job>, now: Instant, limit: nat, batch: seq<JobId>, left: set<JobId>)
    requires Selected(jobs, DueIds(jobs, now), batch, left) && left <= DueIds(jobs, now)
    requires |batch| <= limit && (|batch| == limit || left == {})
    ensures ClaimBatch(jobs, now, limit, Elements(batch)) && EarliestFirst(jobs, now, Elements(batch))
  {
    var due := DueIds(jobs, now);
    DistinctSize(batch);
    assert due - Elements(batch) == left && due == Elements(batch) + left;
  }

  class JobRepo {
    var jobs: map<JobId, Job>

    constructor ()
      ensures jobs == map[]
    {
      jobs := map[];
    }

    method Create(job: Job)
      modifies this
      ensures jobs == old(jobs)[job.id := job]
    {
      jobs := jobs[job.id := job];
    }

    method Earliest(ids: set<JobId>) returns (first: JobId)
      requires ids != {} && ids <= jobs.Keys
      ensures first in ids && forall id :: id in ids ==> jobs[first].executeAt <= jobs[id].executeAt
    {
      first :| first in ids;
      var rest := ids - {first};
      while rest != {}
        invariant first in ids && rest <= ids
        invariant forall id :: id in ids - rest ==> jobs[first].executeAt <= jobs[id].executeAt
        decreases rest
      {
        var id :| id in rest;
        if jobs[id].executeAt < jobs[first].executeAt {
          first := id;
        }
        rest := rest - {id};
      }
    }

    // The due jobs in the order Postgres reads them, cut off at the limit.
    method SelectPending(limit: nat, now: Instant) returns (batch: seq<JobId>)
      ensures Distinct(batch) && ClaimBatch(jobs, now, limit, Elements(batch))
                && EarliestFirst(jobs, now, Elements(batch))
    {
      batch := [];
      var due := DueIds(jobs, now);
      var left := due;
      while |batch| < limit && left != {}
        invariant left <= due && |batch| <= limit && Selected(jobs, due, batch, left)
        decreases left
      {
        var id := Earliest(left);
        SelectNext(jobs, due, batch, left, id);
        batch := batch + [id];
        left := left - {id};
      }
      SelectedIsBatch(jobs, now, limit, batch, left);
    }

    // `find_pending` on Postgres with no row locked.
    method FindPending(limit: nat, now: Instant) returns (batch: seq<JobId>)
      modifies this
      ensures Distinct(batch)
      ensures ClaimBatch(old(jobs), now, limit, Elements(batch)) && EarliestFirst(old(jobs), now, Elements(batch))
      ensures jobs == Claimed(old(jobs), Elements(batch))
    {
      batch := SelectPending(limit, now);
      jobs := Claimed(jobs, Elements(batch));
    }

    method UpdateStatus(id: JobId, status: JobStatus, works: bool) returns (r: Result<()>)
      modifies this
      ensures r.Ok? <==> works
      ensures jobs == if works then SetStatus(old(jobs), id, status) else old(jobs)
    {
      if !works {
        return Err(AppError.Database);
      }
      if id in jobs {
        jobs := jobs[id := jobs[id].(status := status)];
      }
      r := Ok(());
    }

    method CancelJobsForBooking(booking: BookingId)
      modifies this
      ensures jobs == CancelJobs(old(jobs), booking)
    {
      jobs := CancelJobs(jobs, booking);
    }

    // One round of the worker loop: claim, then process and mark each job. A
    // mark that fails is passed over, and its job stays in processing.
    method PollOnce(limit: nat, now: Instant, succeeds: JobId -> bool, marks: JobId -> bool) returns (batch: seq<JobId>)
      modifies this
      ensures Distinct(batch)
      ensures ClaimBatch(old(jobs), now, limit, Elements(batch)) && EarliestFirst(old(jobs), now, Elements(batch))
      ensures jobs.Keys == old(jobs).Keys
      ensures forall id :: id in jobs ==>
                jobs[id] == if id in Elements(batch)
                            then old(jobs)[id].(status := Marked(succeeds(id), marks(id)))
                            else old(jobs)[id]
    {
      batch := FindPending(limit, now);
      ghost var claimed := jobs;
      for n := 0 to |batch|
        invariant jobs.Keys == claimed.Keys
        invariant forall id :: id in jobs ==>
                    jobs[id] == if id in batch[..n]
                                then claimed[id].(status := Marked(succeeds(id), marks(id)))
                                else claimed[id]
      {
        assert batch[..n + 1] == batch[..n] + [batch[n]];
        if succeeds(batch[n]) {
          var written := UpdateStatus(batch[n], Completed, marks(batch[n]));
        } else {
          var written := UpdateStatus(batch[n], Failed, marks(batch[n]));
        }
      }
      assert batch[..|batch|] == batch;
    }
  }

  function Marked(success: bool, mark: bool): JobStatus {
    if !mark then Processing else if success then Completed else Failed
  }

  // ---------- Any number of workers ----------

  // `hands` holds the claimed jobs each worker has still to mark; `log` lists
  // every claim so far.
  datatype State = State(jobs: map<JobId, Job>, hands: map<WorkerId, seq<JobId>>, log: seq<JobId>)

  function Hand(s: State, w: WorkerId): seq<JobId> {
    if w in s.hands then s.hands[w] else []
  }

  datatype Action =
    | Add(job: Job)
    | Claim(worker: WorkerId, batch: seq<JobId>, now: Instant)
    | Mark(worker: WorkerId, success: bool)
    | LoseMark(worker: WorkerId)              // `update_status` fails
    | Crash(worker: WorkerId)
    | CancelFor(booking: BookingId)
    | DeletePending(ids: set<JobId>)          // `delete_jobs_by_type_and_event`

  ghost predicate Step(s: State, s': State, e: Action) {
    match e
    case Add(job) =>
      job.status == Pending && job.id !in s.jobs && job.id !in s.log && s' == s.(jobs := s.jobs[job.id := job])
    case Claim(w, batch, now) =>
      && Hand(s, w) == [] && Distinct(batch) && (forall id :: id in batch ==> id in DueIds(s.jobs, now))
      && s' == State(Claimed(s.jobs, Elements(batch)), s.hands[w := batch], s.log + batch)
    case Mark(w, success) =>
      && Hand(s, w) != []
      && s' == s.(jobs := SetStatus(s.jobs, Hand(s, w)[0], if success then Completed else Failed),
                  hands := s.hands[w := Hand(s, w)[1..]])
    case LoseMark(w) => Hand(s, w) != [] && s' == s.(hands := s.hands[w := Hand(s, w)[1..]])
    case Crash(w) => s' == s.(hands := s.hands[w := []])
    case CancelFor(booking) => s' == s.(jobs := CancelJobs(s.jobs, booking))
    case DeletePending(ids) =>
      (forall id :: id in ids && id in s.jobs ==> s.jobs[id].status == Pending) && s' == s.(jobs := s.jobs - ids)
  }

  predicate Terminal(status: JobStatus) {
    status == Completed || status == Failed || status == CancelledJob
  }

  // A claimed job is in the table and was neither cancelled nor put back; a
  // job in hand is being processed and in no other hand.
  ghost predicate Owned(s: State) {
    && Distinct(s.log)
    && (forall id :: id in s.log ==> id in s.jobs && s.jobs[id].status in {Processing, Completed, Failed})
    && (forall w, id :: w in s.hands && id in s.hands[w] ==>
         id in s.jobs && s.jobs[id].status == Processing && id in s.log)
    && (forall w :: w in s.hands ==> Distinct(s.hands[w]))
    && (forall v, w, id :: v in s.hands && w in s.hands && id in s.hands[v] && id in s.hands[w] ==> v == w)
  }

  lemma ClaimKeepsOwned(s: State, s': State, w: WorkerId, batch: seq<JobId>, now: Instant)
    requires Owned(s) && Step(s, s', Claim(w, batch, now))
    ensures Owned(s')
  {
    forall id | id in batch ensures id !in s.log && s.jobs[id].status == Pending {
      assert id in DueIds(s.jobs, now);
    }
    assert Distinct(s'.log) by {
      forall i, j | 0 <= i < j < |s'.log| ensures s'.log[i] != s'.log[j] {
        assert i < |s.log| ==> s'.log[i] in s.log;
        assert j >= |s.log| ==> s'.log[j] == batch[j - |s.log|] && s'.log[j] in batch;
        assert i >= |s.log| ==> s'.log[i] == batch[i - |s.log|];
      }
    }
  }

  lemma StepKeepsOwned(s: State, s': State, e: Action)
    requires Owned(s) && Step(s, s', e)
    ensures Owned(s')
  {
    match e
    case Claim(w, batch, now) => ClaimKeepsOwned(s, s', w, batch, now);
    case Mark(w, success) => TakeFirst(s, s', w);
    case LoseMark(w) => TakeFirst(s, s', w);
    case _ =>
  }

  lemma TakeFirst(s: State, s': State, w: WorkerId)
    requires Owned(s) && Hand(s, w) != [] && s'.log == s.log && s'.hands == s.hands[w := Hand(s, w)[1..]]
    requires s'.jobs.Keys == s.jobs.Keys
    requires forall id :: id in s.jobs && id != Hand(s, w)[0] ==> s'.jobs[id] == s.jobs[id]
    requires s'.jobs[Hand(s, w)[0]].status in {Processing, Completed, Failed}
    ensures Owned(s')
  {
    var first, rest := Hand(s, w)[0], Hand(s, w)[1..];
    assert Hand(s, w) == [first] + rest && first !in rest;
    forall v, id | v in s'.hands && id in s'.hands[v] ensures v in s.hands && id in s.hands[v] && id != first {
      if v == w {
        assert id in rest;
      }
    }
  }

  // What is final stays final, although `update_status` asks no questions.
  lemma FinalStaysFinal(s: State, s': State, e: Action, id: JobId)
    requires Owned(s) && Step(s, s', e) && id in s.jobs && Terminal(s.jobs[id].status)
    ensures id in s'.jobs && s'.jobs[id].status == s.jobs[id].status
  {
    match e
    case Mark(w, success) =>
      assert Hand(s, w)[0] in s.hands[w];
    case _ =>
  }

  ghost predicate Run(run: seq<State>, actions: seq<Action>) {
    Trace(Step, run, actions) && run[0] == State(map[], map[], [])
  }

  lemma StepsKeepOwned()
    ensures Keeps(Owned, Step)
  {
    forall s, s', e | Owned(s) && Step(s, s', e) ensures Owned(s') {
      StepKeepsOwned(s, s', e);
    }
  }

  lemma RunOwned(run: seq<State>, actions: seq<Action>, n: nat)
    requires Run(run, actions) && n < |run|
    ensures Owned(run[n])
  {
    StepsKeepOwned();
    Invariant(Owned, Step, run, actions, n);
  }

  // In every interleaving no job is claimed twice, and a cancelled job never
  // was and never will be claimed.
  lemma ExactlyOnceClaiming(run: seq<State>, actions: seq<Action>, n: nat)
    requires Run(run, actions) && n < |run|
    ensures Distinct(run[n].log)
    ensures forall id :: id in run[n].jobs && run[n].jobs[id].status == CancelledJob ==> id !in run[n].log
    ensures forall m: nat, id :: m <= n && id in run[m].jobs && run[m].jobs[id].status == CancelledJob ==>
              id !in run[n].log
  {
    RunOwned(run, actions, n);
    forall m: nat, id | m <= n && id in run[m].jobs && run[m].jobs[id].status == CancelledJob
      ensures id !in run[n].log
    {
      FinalForever(run, actions, m, n, id);
    }
  }

  lemma {:induction false} FinalForever(run: seq<State>, actions: seq<Action>, m: nat, n: nat, id: JobId)
    requires Run(run, actions) && m <= n < |run| && id in run[m].jobs && Terminal(run[m].jobs[id].status)
    ensures id in run[n].jobs && run[n].jobs[id].status == run[m].jobs[id].status
    decreases n - m
  {
    if m < n {
      FinalForever(run, actions, m, n - 1, id);
      RunOwned(run, actions, n - 1);
      FinalStaysFinal(run[n - 1], run[n], actions[n - 1], id);
    }
  }

  // ---------- Draining ----------

  // Successive polls at one time, by any mix of workers.
  ghost predicate Polls(jobs: map<JobId, Job>, now: Instant, limit: nat, batches: seq<set<JobId>>)
    decreases |batches|
  {
    batches == []
    || (ClaimBatch(jobs, now, limit, batches[0]) && Polls(Claimed(jobs, batches[0]), now, limit, batches[1..]))
  }

  function AfterPolls(jobs: map<JobId, Job>, batches: seq<set<JobId>>): map<JobId, Job>
    decreases |batches|
  {
    if batches == [] then jobs else AfterPolls(Claimed(jobs, batches[0]), batches[1..])
  }

  function Union(batches: seq<set<JobId>>): set<JobId> {
    if batches == [] then {} else batches[0] + Union(batches[1..])
  }

  lemma ClaimLeavesRest(jobs: map<JobId, Job>, now: Instant, ids: set<JobId>)
    requires ids <= DueIds(jobs, now)
    ensures DueIds(Claimed(jobs, ids), now) == DueIds(jobs, now) - ids
    ensures |DueIds(jobs, now) - ids| == |DueIds(jobs, now)| - |ids|
  {
    assert DueIds(jobs, now) == ids + (DueIds(jobs, now) - ids);
  }

  // The batches split the due jobs into those claimed and those left.
  lemma {:induction false} PollsPartition(jobs: map<JobId, Job>, now: Instant, limit: nat, batches: seq<set<JobId>>)
    requires Polls(jobs, now, limit, batches)
    ensures Union(batches) <= DueIds(jobs, now)
    ensures DueIds(AfterPolls(jobs, batches), now) == DueIds(jobs, now) - Union(batches)
    decreases |batches|
  {
    if batches != [] {
      ClaimLeavesRest(jobs, now, batches[0]);
      PollsPartition(Claimed(jobs, batches[0]), now, limit, batches[1..]);
    }
  }

  lemma {:induction false} BatchInUnion(batches: seq<set<JobId>>, i: nat)
    requires i < |batches|
    ensures batches[i] <= Union(batches)
  {
    if i > 0 {
      BatchInUnion(batches[1..], i - 1);
    }
  }

  lemma {:induction false} PollsDisjoint(jobs: map<JobId, Job>, now: Instant, limit: nat, batches: seq<set<JobId>>,
      i: nat, j: nat)
    requires Polls(jobs, now, limit, batches) && i < j < |batches|
    ensures batches[i] !! batches[j]
    decreases |batches|
  {
    var next, rest := Claimed(jobs, batches[0]), batches[1..];
    if i > 0 {
      PollsDisjoint(next, now, limit, rest, i - 1, j - 1);
    } else {
      ClaimLeavesRest(jobs, now, batches[0]);
      PollsPartition(next, now, limit, rest);
      BatchInUnion(rest, j - 1);
    }
  }

  // Each poll takes `limit` jobs while there are that many.
  lemma {:induction false} PollsCount(jobs: map<JobId, Job>, now: Instant, limit: nat, batches: seq<set<JobId>>)
    requires Polls(jobs, now, limit, batches)
    ensures |DueIds(AfterPolls(jobs, batches), now)| == Max(0, |DueIds(jobs, now)| - limit * |batches|)
    decreases |batches|
  {
    if batches != [] {
      var rest := batches[1..];
      ClaimLeavesRest(jobs, now, batches[0]);
      PollsCount(Claimed(jobs, batches[0]), now, limit, rest);
      TakeAtMost(|DueIds(jobs, now)|, limit, |rest|);
    }
  }

  lemma TakeAtMost(n: nat, limit: nat, polls: nat)
    ensures Max(0, n - Min(limit, n) - limit * polls) == Max(0, n - limit * (polls + 1))
  {
    assert limit * (polls + 1) == limit + limit * polls;
    assert limit * polls >= 0;
  }

  // n due jobs are claimed after n / limit polls, rounded up: every one of
  // them, each by one poll.
  lemma QueueDrains(jobs: map<JobId, Job>, now: Instant, limit: nat, batches: seq<set<JobId>>)
    requires limit > 0 && Polls(jobs, now, limit, batches)
    ensures DueIds(AfterPolls(jobs, batches), now) == {} <==> |batches| >= (|DueIds(jobs, now)| + limit - 1) / limit
    ensures Union(batches) + DueIds(AfterPolls(jobs, batches), now) == DueIds(jobs, now)
    ensures Union(batches) !! DueIds(AfterPolls(jobs, batches), now)
    ensures forall i, j :: 0 <= i < j < |batches| ==> batches[i] !! batches[j]
  {
    PollsPartition(jobs, now, limit, batches);
    PollsCount(jobs, now, limit, batches);
    forall i, j | 0 <= i < j < |batches| ensures batches[i] !! batches[j] {
      PollsDisjoint(jobs, now, limit, batches, i, j);
    }
    RoundedUp(|DueIds(jobs, now)|, limit, |batches|);
    var left := DueIds(AfterPolls(jobs, batches), now);
    assert left == {} <==> |left| == 0;
  }

  lemma RoundedUp(n: nat, limit: nat, polls: nat)
    requires limit > 0
    ensures n <= limit * polls <==> polls >= (n + limit - 1) / limit
  {
    var up := (n + limit - 1) / limit;
    assert limit * up <= n + limit - 1 < limit * up + limit;
    if polls >= up {
      assert limit * polls >= limit * up by { assert limit * (polls - up) >= 0; }
    } else {
      assert limit * polls <= limit * up - limit by { assert limit * (up - 1 - polls) >= 0; }
    }
  }

  // Each poll claims the earliest jobs.
  ghost predicate Ordered(jobs: map<JobId, Job>, now: Instant, batches: seq<set<JobId>>)
    decreases |batches|
  {
    batches == []
    || (EarliestFirst(jobs, now, batches[0]) && Ordered(Claimed(jobs, batches[0]), now, batches[1..]))
  }

  // On Postgres no claimed job is later than one left behind.
  lemma {:induction false} EarliestAreClaimed(jobs: map<JobId, Job>, now: Instant, limit: nat, batches: seq<set<JobId>>)
    requires Polls(jobs, now, limit, batches) && Ordered(jobs, now, batches)
    ensures NoLater(jobs, Union(batches), DueIds(AfterPolls(jobs, batches), now))
    decreases |batches|
  {
    if batches != [] {
      var next, rest := Claimed(jobs, batches[0]), batches[1..];
      ClaimLeavesRest(jobs, now, batches[0]);
      PollsPartition(next, now, limit, rest);
      EarliestAreClaimed(next, now, limit, rest);
      NoLaterUnclaimed(jobs, batches[0], Union(rest), DueIds(AfterPolls(next, rest), now));
    }
  }

  lemma NoLaterUnclaimed(jobs: map<JobId, Job>, claimed: set<JobId>, a: set<JobId>, b: set<JobId>)
    requires NoLater(Claimed(jobs, claimed), a, b)
    ensures NoLater(jobs, a, b)
  {
    forall c, l | c in a && l in b && c in jobs && l in jobs ensures jobs[c].executeAt <= jobs[l].executeAt {
      assert Claimed(jobs, claimed)[c].executeAt <= Claimed(jobs, claimed)[l].executeAt;
    }
  }
}
