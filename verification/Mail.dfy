// The mail ledger: the idempotency check of `process_job` in
// src/background.rs, and `record_success` in
// src/domain/services/communication_service.rs.
module Mail {
  import opened Results
  import opened Counting
  import opened Runs

  type JobId = nat
  type WorkerId = nat

  datatype MailStatus = Sent | SkippedDuplicate

  // Recipient, template name and context hash.
  datatype Key = Key(recipient: string, template: string, hash: string)

  datatype MailLog = MailLog(job: JobId, key: Key, status: MailStatus)

  // What the worker finds for a job: its tenant, booking, event or template is
  // missing, no rule asks for the mail, or everything is there. A campaign job
  // names its template and needs no rule.
  datatype Lookup = Missing | NoRule | Found

  // What happens to the message of a job: each step may fail.
  datatype Delivery = Delivery(found: Lookup, logs: bool, renders: bool, sends: bool, records: bool)

  // A job and its message; `context` is the JSON text that is hashed after the
  // name of the template.
  datatype Message = Message(job: JobId, campaign: bool, recipient: string, template: string, context: string)

  predicate HasSent(logs: seq<MailLog>, key: Key) {
    exists n :: 0 <= n < |logs| && logs[n].key == key && logs[n].status == Sent
  }

  function KeyOf(hash: string -> string, m: Message): Key {
    Key(m.recipient, m.template, hash(m.template + m.context))
  }

  // There is a message to send.
  predicate Prepared(m: Message, d: Delivery) {
    d.found == Found || (m.campaign && d.found == NoRule)
  }

  // The ledger after a job, by one worker.
  function Processed(hash: string -> string, logs: seq<MailLog>, m: Message, d: Delivery): seq<MailLog> {
    var key := KeyOf(hash, m);
    if !Prepared(m, d) then logs
    else if !m.campaign && HasSent(logs, key) then
      if d.logs then logs + [MailLog(m.job, key, SkippedDuplicate)] else logs
    else if d.renders && d.sends && d.records then logs + [MailLog(m.job, key, Sent)]
    else logs
  }

  class Mailer {
    const hash: string -> string
    var logs: seq<MailLog>
    var outbox: seq<Key>    // messages handed to the mail service

    constructor (hash: string -> string)
      ensures this.hash == hash && logs == [] && outbox == []
    {
      this.hash := hash;
      logs, outbox := [], [];
    }

    method LogMail(log: MailLog, works: bool) returns (r: Result<()>)
      modifies this`logs
      ensures r.Ok? <==> works
      ensures logs == if works then old(logs) + [log] else old(logs)
    {
      if !works {
        return Err(Database);
      }
      logs := logs + [log];
      r := Ok(());
    }

    method HasMailBeenSent(key: Key) returns (sent: bool)
      ensures sent <==> HasSent(logs, key)
    {
      var count := 0;
      for n := 0 to |logs|
        invariant count >= 0
        invariant count > 0 <==> HasSent(logs[..n], key)
      {
        assert logs[..n + 1] == logs[..n] + [logs[n]];
        if logs[n].key == key && logs[n].status == Sent {
          assert logs[..n + 1][n] == logs[n];
          count := count + 1;
        } else {
          assert forall i :: 0 <= i < n ==> logs[..n + 1][i] == logs[..n][i];
        }
      }
      assert logs[..|logs|] == logs;
      sent := count > 0;
    }

    method RecordSuccess(m: Message, works: bool) returns (r: Result<()>)
      modifies this`logs
      ensures r.Ok? <==> works
      ensures logs == if works then old(logs) + [MailLog(m.job, KeyOf(hash, m), Sent)] else old(logs)
    {
      r := LogMail(MailLog(m.job, Key(m.recipient, m.template, hash(m.template + m.context)), Sent), works);
    }

    // A job without a rule and a skipped duplicate count as success. Mail
    // leaves at most once for a job, and any other success means that it left
    // and was recorded.
    method ProcessJob(m: Message, d: Delivery) returns (r: Result<()>)
      modifies this
      ensures logs == Processed(hash, old(logs), m, d)
      ensures outbox == old(outbox) || outbox == old(outbox) + [KeyOf(hash, m)]
      ensures outbox != old(outbox) <==>
                Prepared(m, d) && (m.campaign || !HasSent(old(logs), KeyOf(hash, m))) && d.renders && d.sends
      ensures d.found == Missing ==> r == Err(NotFound)
      ensures d.found == NoRule && !m.campaign ==> r == Ok(())
      ensures r.Ok? && Prepared(m, d) ==> HasSent(logs, KeyOf(hash, m))
    {
      if d.found == Missing {
        return Err(NotFound);
      }
      if d.found == NoRule && !m.campaign {
        return Ok(());
      }
      var key := KeyOf(hash, m);
      if !m.campaign {
        var sent := HasMailBeenSent(key);
        if sent {
          r := LogMail(MailLog(m.job, key, SkippedDuplicate), d.logs);
          if d.logs {
            StillSent(old(logs), logs[|old(logs)|], key);
          }
          return;
        }
      }
      if !d.renders || !d.sends {
        return Err(Internal);
      }
      outbox := outbox + [key];
      r := RecordSuccess(m, d.records);
      if r.Ok? {
        assert logs[|logs| - 1].key == key;
      }
    }
  }

  lemma StillSent(logs: seq<MailLog>, more: MailLog, key: Key)
    requires HasSent(logs, key)
    ensures HasSent(logs + [more], key)
  {
    var n :| 0 <= n < |logs| && logs[n].key == key && logs[n].status == Sent;
    assert (logs + [more])[n] == logs[n];
  }

  // ---------- One worker ----------

  ghost predicate WorkerRun(hash: string -> string, run: seq<seq<MailLog>>, messages: seq<Message>,
      deliveries: seq<Delivery>) {
    && |run| == |messages| + 1 && |deliveries| == |messages| && run[0] == []
    && forall n {:trigger messages[n]} :: 0 <= n < |messages| ==>
         run[n + 1] == Processed(hash, run[n], messages[n], deliveries[n])
  }

  // Row n is the only SENT row of its key up to there.
  ghost predicate FirstSent(logs: seq<MailLog>, n: nat)
    requires n < |logs|
  {
    forall m :: 0 <= m < n && logs[m].status == Sent ==> logs[m].key != logs[n].key
  }

  // Over any run of the worker, a SENT row of a standard job is the first one
  // of its recipient, template and context.
  lemma {:induction false} NoSecondSending(
    hash: string -> string, run: seq<seq<MailLog>>, messages: seq<Message>, deliveries: seq<Delivery>,
      campaigns: set<JobId>, n: nat)
    requires WorkerRun(hash, run, messages, deliveries) && n < |run|
    requires forall i :: 0 <= i < |messages| ==> (messages[i].campaign <==> messages[i].job in campaigns)
    ensures forall i :: 0 <= i < |run[n]| && run[n][i].status == Sent && run[n][i].job !in campaigns ==>
              FirstSent(run[n], i)
  {
    if n > 0 {
      NoSecondSending(hash, run, messages, deliveries, campaigns, n - 1);
      var before, m := run[n - 1], messages[n - 1];
      assert run[n] == Processed(hash, before, m, deliveries[n - 1]);
      forall i | 0 <= i < |run[n]| && run[n][i].status == Sent && run[n][i].job !in campaigns
        ensures FirstSent(run[n], i)
      {
        if i < |before| {
          assert run[n][i] == before[i] && FirstSent(before, i);
        } else {
          assert !HasSent(before, KeyOf(hash, m));
        }
      }
    }
  }

  // ---------- Several workers ----------

  // A message that has passed the check of its worker and is not recorded yet.
  datatype Draft = Draft(job: JobId, key: Key)

  datatype State = State(logs: seq<MailLog>, drafts: map<WorkerId, Draft>)

  datatype Action =
    | Check(worker: WorkerId, draft: Draft)
    | Record(w: WorkerId)
    | Drop(w: WorkerId)               // rendering, sending or recording fails, or the worker stops
    | Campaign(job: JobId, key: Key)

  ghost predicate Step(workers: nat, campaigns: set<JobId>, s: State, s': State, e: Action) {
    match e
    case Check(w, draft) =>
      && w < workers && w !in s.drafts && draft.job !in campaigns
      && (if HasSent(s.logs, draft.key)
          then s' == s || s' == s.(logs := s.logs + [MailLog(draft.job, draft.key, SkippedDuplicate)])
          else s' == s.(drafts := s.drafts[w := draft]))
    case Record(w) =>
      && w in s.drafts
      && s' == State(s.logs + [MailLog(s.drafts[w].job, s.drafts[w].key, Sent)], s.drafts - {w})
    case Drop(w) => s' == s.(drafts := s.drafts - {w})
    case Campaign(job, key) => job in campaigns && s' == s.(logs := s.logs + [MailLog(job, key, Sent)])
  }

  function SentFor(campaigns: set<JobId>, key: Key): MailLog -> bool {
    (l: MailLog) => l.status == Sent && l.key == key && l.job !in campaigns
  }

  function Drafting(s: State, key: Key): set<WorkerId> {
    set w | w in s.drafts && s.drafts[w].key == key
  }

  // SENT rows of standard jobs, made or about to be made.
  function Load(campaigns: set<JobId>, s: State, key: Key): nat {
    Count(SentFor(campaigns, key), s.logs) + |Drafting(s, key)|
  }

  ghost predicate Inv(workers: nat, campaigns: set<JobId>, s: State) {
    && (forall w :: w in s.drafts ==> w < workers && s.drafts[w].job !in campaigns)
    && forall key :: Load(campaigns, s, key) <= workers
  }

  lemma CountLast(p: MailLog -> bool, logs: seq<MailLog>, more: MailLog)
    ensures Count(p, logs + [more]) == Count(p, logs) + if p(more) then 1 else 0
  {
    assert (logs + [more])[..|logs|] == logs;
  }

  lemma {:induction false} NoneSent(campaigns: set<JobId>, logs: seq<MailLog>, key: Key)
    requires !HasSent(logs, key)
    ensures Count(SentFor(campaigns, key), logs) == 0
  {
    if logs != [] {
      var n := |logs| - 1;
      assert forall i :: 0 <= i < n ==> logs[..n][i] == logs[i];
      NoneSent(campaigns, logs[..n], key);
    }
  }

  function Numbers(n: nat): (r: set<nat>)
    ensures |r| == n && forall w: nat :: w in r <==> w < n
  {
    if n == 0 then {} else Numbers(n - 1) + {n - 1}
  }

  lemma CheckKeeps(workers: nat, campaigns: set<JobId>, s: State, s': State, w: WorkerId, draft: Draft, key: Key)
    requires Inv(workers, campaigns, s) && Step(workers, campaigns, s, s', Check(w, draft))
    ensures Load(campaigns, s', key) <= workers
  {
    assert Load(campaigns, s, key) <= workers;
    if HasSent(s.logs, draft.key) {
      CountLast(SentFor(campaigns, key), s.logs, MailLog(draft.job, draft.key, SkippedDuplicate));
      assert Drafting(s', key) == Drafting(s, key);
    } else if key == draft.key {
      NoneSent(campaigns, s.logs, key);
      SubsetSize(Drafting(s', key), Numbers(workers));
    } else {
      assert Drafting(s', key) == Drafting(s, key);
    }
  }

  lemma RecordKeeps(workers: nat, campaigns: set<JobId>, s: State, s': State, w: WorkerId, key: Key)
    requires Inv(workers, campaigns, s) && Step(workers, campaigns, s, s', Record(w))
    ensures Load(campaigns, s', key) <= workers
  {
    assert Load(campaigns, s, key) <= workers;
    CountLast(SentFor(campaigns, key), s.logs, MailLog(s.drafts[w].job, s.drafts[w].key, Sent));
    assert Drafting(s', key) == Drafting(s, key) - {w};
  }

  lemma StepKeepsInv(workers: nat, campaigns: set<JobId>, s: State, s': State, e: Action)
    requires Inv(workers, campaigns, s) && Step(workers, campaigns, s, s', e)
    ensures Inv(workers, campaigns, s')
  {
    forall key ensures Load(campaigns, s', key) <= workers {
      assert Load(campaigns, s, key) <= workers;
      match e
      case Check(w, draft) => CheckKeeps(workers, campaigns, s, s', w, draft, key);
      case Record(w) => RecordKeeps(workers, campaigns, s, s', w, key);
      case Drop(w) => SubsetSize(Drafting(s', key), Drafting(s, key));
      case Campaign(job, k) =>
        CountLast(SentFor(campaigns, key), s.logs, MailLog(job, k, Sent));
        assert Drafting(s', key) == Drafting(s, key);
    }
  }

  ghost predicate Run(workers: nat, campaigns: set<JobId>, run: seq<State>, actions: seq<Action>) {
    Trace(StepOf(workers, campaigns), run, actions) && run[0] == State([], map[])
  }

  ghost function StepOf(workers: nat, campaigns: set<JobId>): (State, State, Action) -> bool {
    (s: State, s': State, e: Action) => Step(workers, campaigns, s, s', e)
  }

  ghost function InvOf(workers: nat, campaigns: set<JobId>): State -> bool {
    (s: State) => Inv(workers, campaigns, s)
  }

  lemma StepsKeepInv(workers: nat, campaigns: set<JobId>)
    ensures Keeps(InvOf(workers, campaigns), StepOf(workers, campaigns))
  {
    forall s, s', e | InvOf(workers, campaigns)(s) && StepOf(workers, campaigns)(s, s', e)
      ensures InvOf(workers, campaigns)(s')
    {
      StepKeepsInv(workers, campaigns, s, s', e);
    }
  }

  // With any interleaving of several workers, standard jobs record the same
  // message at most as often as there are workers.
  lemma AtMostOnePerWorker(workers: nat, campaigns: set<JobId>, run: seq<State>, actions: seq<Action>, n: nat, key: Key)
    requires Run(workers, campaigns, run, actions) && n < |run|
    ensures Inv(workers, campaigns, run[n])
    ensures Count(SentFor(campaigns, key), run[n].logs) <= workers
  {
    forall k ensures Load(campaigns, run[0], k) == 0 {
      assert Drafting(run[0], k) == {};
    }
    StepsKeepInv(workers, campaigns);
    Invariant(InvOf(workers, campaigns), StepOf(workers, campaigns), run, actions, n);
    assert Load(campaigns, run[n], key) <= workers;
  }

  // ---------- The bound is met ----------

  // Workers lo, ..., hi - 1 have a draft of the same message.
  function Drafts(lo: nat, hi: nat, key: Key): map<WorkerId, Draft> {
    map w: WorkerId | lo <= w < hi :: Draft(w, key)
  }

  function SentRows(n: nat, key: Key): (rows: seq<MailLog>)
    ensures |rows| == n
  {
    seq(n, (w: nat) => MailLog(w, key, Sent))
  }

  lemma {:induction false} AllSent(n: nat, key: Key)
    ensures Count(SentFor({}, key), SentRows(n, key)) == n
  {
    if n > 0 {
      AllSent(n - 1, key);
      assert SentRows(n, key) == SentRows(n - 1, key) + [MailLog(n - 1, key, Sent)];
      CountLast(SentFor({}, key), SentRows(n - 1, key), MailLog(n - 1, key, Sent));
    }
  }

  // The first n workers check before any of them records.
  lemma {:induction false} AllCheck(workers: nat, n: nat, key: Key) returns (run: seq<State>, actions: seq<Action>)
    requires n <= workers
    ensures Run(workers, {}, run, actions) && run[|run| - 1] == State([], Drafts(0, n, key))
  {
    if n == 0 {
      run, actions := [State([], map[])], [];
    } else {
      run, actions := AllCheck(workers, n - 1, key);
      var e := Check(n - 1, Draft(n - 1, key));
      var next := State([], Drafts(0, n, key));
      assert Drafts(0, n, key) == Drafts(0, n - 1, key)[n - 1 := Draft(n - 1, key)];
      assert StepOf(workers, {})(run[|run| - 1], next, e);
      ExtendTrace(StepOf(workers, {}), run, actions, next, e);
      run, actions := run + [next], actions + [e];
    }
  }

  lemma {:induction false} AllRecord(workers: nat, n: nat, key: Key) returns (run: seq<State>, actions: seq<Action>)
    requires n <= workers
    ensures Run(workers, {}, run, actions)
    ensures run[|run| - 1] == State(SentRows(n, key), Drafts(n, workers, key))
  {
    if n == 0 {
      run, actions := AllCheck(workers, workers, key);
      assert SentRows(0, key) == [];
    } else {
      run, actions := AllRecord(workers, n - 1, key);
      var next := State(SentRows(n, key), Drafts(n, workers, key));
      assert SentRows(n, key) == SentRows(n - 1, key) + [MailLog(n - 1, key, Sent)];
      assert Drafts(n, workers, key) == Drafts(n - 1, workers, key) - {n - 1};
      assert StepOf(workers, {})(run[|run| - 1], next, Record(n - 1));
      ExtendTrace(StepOf(workers, {}), run, actions, next, Record(n - 1));
      run, actions := run + [next], actions + [Record(n - 1)];
    }
  }

  // However many workers there are, each of them can record the message.
  lemma EveryWorkerRepeats(workers: nat, key: Key) returns (run: seq<State>, actions: seq<Action>)
    ensures Run(workers, {}, run, actions)
    ensures Count(SentFor({}, key), run[|run| - 1].logs) == workers
  {
    run, actions := AllRecord(workers, workers, key);
    AllSent(workers, key);
  }
}
