// Invitation tokens of RESTRICTED events: `create_booking` reads the token,
// checks, and burns it later in `create_with_token`.
module Invitations {
  import opened Results
  import opened Models
  import opened Store
  import opened Handlers
  import opened Runs

  type RequestId = nat

  // A request that has read an active invitation and has yet to commit.
  datatype Passed = Passed(invitee: InviteeId, token: Token)

  datatype State = State(db: Db, passed: map<RequestId, Passed>)

  // ---------- Steps ----------

  datatype Action =
    | ReadToken(r: RequestId, token: Token)
    | Commit(r: RequestId, b: Booking, jobs: seq<Job>)
    | CommitOpen(b: Booking, jobs: seq<Job>)          // no token needed
    | GiveUp(r: RequestId)
    | Cancel(id: BookingId)                           // reads and writes at once
    | Move(b: Booking)
    | Delete(id: BookingId)
    | Invite(invitee: Invitee)
    | Uninvite(id: InviteeId)
    | SetStatus(id: InviteeId, status: InviteeStatus) // by an admin
    | Other

  ghost predicate DbStep(s: State, after: Db, e: Action) {
    var db := s.db;
    match e
    case ReadToken(r, token) => after == db
    case Commit(r, b, jobs) =>
      r in s.passed && b.invitee == Some(s.passed[r].invitee)
      && CreateWithToken(db, b, Some(s.passed[r].token), jobs) == Ok(after)
    case CommitOpen(b, jobs) => b.invitee.None? && CreateWithToken(db, b, None, jobs) == Ok(after)
    case GiveUp(r) => after == db
    case Cancel(id) =>
      id in db.bookings && (if Live(db.bookings[id]) then CancelRow(db, db.bookings[id]) == Ok(after) else after == db)
    case Move(b) => UpdateRow(db, b) == Ok(after)
    case Delete(id) => DeleteRow(db, id) == Ok(after)
    // Ids and tokens are new.
    case Invite(invitee) =>
      && invitee.id >= db.nextId && invitee.token >= db.nextId
      && after.bookings == db.bookings && after.invitees == db.invitees[invitee.id := invitee]
      && after.nextId > invitee.id && after.nextId > invitee.token
    case Uninvite(id) => after == db.(invitees := db.invitees - {id})
    case SetStatus(id, status) => id in db.invitees && after == WithStatus(db, id, status)
      && (status == Active ==> !Holds(db, id))
    case Other => after.bookings == db.bookings && after.invitees == db.invitees && after.nextId >= db.nextId
  }

  function PassedAfter(s: State, e: Action): map<RequestId, Passed> {
    match e
    case ReadToken(r, token) => s.passed
    case Commit(r, b, jobs) => s.passed - {r}
    case GiveUp(r) => s.passed - {r}
    case _ => s.passed
  }

  // `CheckAccess` accepts the token for an invitee.
  ghost predicate Step(s: State, s': State, e: Action) {
    && DbStep(s, s'.db, e)
    && if e.ReadToken?
       then exists i ::
         CheckAccess(s.db, Restricted, Some(e.token)) == Ok(Some(i)) && s'.passed == s.passed[e.r := Passed(i, e.token)]
       else s'.passed == PassedAfter(s, e)
  }

  function WithStatus(db: Db, id: InviteeId, status: InviteeStatus): Db
    requires id in db.invitees
  {
    db.(invitees := db.invitees[id := db.invitees[id].(status := status)])
  }

  // The invitee has a live booking.
  ghost predicate Holds(db: Db, i: InviteeId) {
    exists id :: id in db.bookings && HeldBy(db.bookings[id], i)
  }

  predicate HeldBy(b: Booking, i: InviteeId) {
    Live(b) && b.invitee == Some(i)
  }

  // ---------- The invariant ----------

  ghost predicate InviteesKeyed(db: Db) {
    && (forall i :: i in db.invitees ==> db.invitees[i].id == i && i < db.nextId && db.invitees[i].token < db.nextId)
    && (forall i, j :: i in db.invitees && j in db.invitees && db.invitees[i].token == db.invitees[j].token ==> i == j)
    && (forall id :: id in db.bookings ==>
          db.bookings[id].id == id && (db.bookings[id].invitee.Some? ==> db.bookings[id].invitee.value < db.nextId))
  }

  ghost predicate OneEach(db: Db) {
    && (forall a, b, i ::
         a in db.bookings && b in db.bookings && HeldBy(db.bookings[a], i) && HeldBy(db.bookings[b], i) ==> a == b)
    && (forall i :: i in db.invitees && db.invitees[i].status == Active ==> !Holds(db, i))
  }

  // No other invitee has or will have the token that was read.
  ghost predicate TokensNamed(s: State) {
    forall r :: r in s.passed ==>
      && s.passed[r].invitee < s.db.nextId && s.passed[r].token < s.db.nextId
      && forall i :: i in s.db.invitees && s.db.invitees[i].token == s.passed[r].token ==> i == s.passed[r].invitee
  }

  ghost predicate Inv(s: State) {
    InviteesKeyed(s.db) && OneEach(s.db) && TokensNamed(s)
  }

  // ---------- Commit ----------

  // A successful commit takes exactly the invitee with the token from Active
  // to Used and adds one booking; a failing one has nothing to write.
  lemma BurnsOne(db: Db, b: Booking, token: Token, jobs: seq<Job>)
    requires InviteesKeyed(db)
    ensures var r := CreateWithToken(db, b, Some(token), jobs);
            && (r == Err(Conflict) <==>
                 forall i :: i in db.invitees && db.invitees[i].token == token ==> db.invitees[i].status != Active)
            && (r.Ok? ==> exists i :: i in db.invitees && Burnt(db, r.value, i, token, b))
  {
    var r := CreateWithToken(db, b, Some(token), jobs);
    if r.Ok? {
      var i :| i in db.invitees && db.invitees[i].token == token && db.invitees[i].status == Active;
      assert Burnt(db, r.value, i, token, b);
    }
  }

  ghost predicate Burnt(db: Db, after: Db, i: InviteeId, token: Token, b: Booking)
    requires i in db.invitees
  {
    && db.invitees[i].token == token && db.invitees[i].status == Active
    && after.invitees == db.invitees[i := db.invitees[i].(status := Used)]
    && after.bookings == db.bookings[b.id := b] && b.id !in db.bookings && after.nextId == db.nextId
  }

  lemma CommitKeeps(s: State, s': State, r: RequestId, b: Booking, jobs: seq<Job>)
    requires Inv(s) && Step(s, s', Commit(r, b, jobs))
    ensures Inv(s')
  {
    var p := s.passed[r];
    BurnsOne(s.db, b, p.token, jobs);
    var i :| i in s.db.invitees && Burnt(s.db, s'.db, i, p.token, b);
    assert i == p.invitee;
    BurntKeeps(s.db, s'.db, i, p.token, b);
  }

  lemma BurntKeeps(db: Db, after: Db, i: InviteeId, token: Token, b: Booking)
    requires InviteesKeyed(db) && OneEach(db) && i in db.invitees && Burnt(db, after, i, token, b)
               && b.invitee == Some(i)
    ensures InviteesKeyed(after) && OneEach(after)
  {
    assert !Holds(db, i);
    forall j | j in after.invitees && after.invitees[j].status == Active ensures !Holds(after, j) {
      assert !Holds(db, j);
    }
  }

  // ---------- Cancel ----------

  // The invitee holds no live booking but this one.
  ghost predicate HoldsOnly(db: Db, i: InviteeId, booking: BookingId) {
    forall id :: id in db.bookings && HeldBy(db.bookings[id], i) ==> id == booking
  }

  // Cancelling a booking that was read with its invitee keeps one booking per
  // token exactly when the invitee holds no other live booking by then.
  lemma CancelExact(db: Db, b: Booking, after: Db)
    requires InviteesKeyed(db) && OneEach(db) && b.id in db.bookings && db.bookings[b.id].invitee == b.invitee
    requires CancelRow(db, b) == Ok(after)
    ensures InviteesKeyed(after)
    ensures OneEach(after) <==>
              (b.invitee.Some? && b.invitee.value in db.invitees ==> HoldsOnly(db, b.invitee.value, b.id))
  {
    if b.invitee.Some? && b.invitee.value in db.invitees {
      var i := b.invitee.value;
      if HoldsOnly(db, i, b.id) {
        CancelFrees(db, b, after, i);
      } else {
        var id :| id in db.bookings && HeldBy(db.bookings[id], i) && id != b.id;
        assert HeldBy(after.bookings[id], i);
        assert Holds(after, i) && after.invitees[i].status == Active;
      }
    } else {
      ReleaseKeeps(db, after);
    }
  }

  lemma CancelFrees(db: Db, b: Booking, after: Db, i: InviteeId)
    requires OneEach(db) && b.id in db.bookings && HoldsOnly(db, i, b.id)
    requires b.invitee == Some(i) && i in db.invitees && CancelRow(db, b) == Ok(after)
    ensures OneEach(after)
  {
    forall id, j | id in after.bookings && HeldBy(after.bookings[id], j)
      ensures id != b.id && HeldBy(db.bookings[id], j) {}
    forall j | j in after.invitees && after.invitees[j].status == Active ensures !Holds(after, j) {
      assert j != i ==> !Holds(db, j);
    }
  }

  // A second cancellation, read before the first one wrote, hands the token
  // out again although its invitee has rebooked.
  lemma StaleCancel() returns (db: Db, read: Booking, after: Db)
    ensures InviteesKeyed(db) && OneEach(db) && read.id in db.bookings && Live(read)
    ensures read.(status := Cancelled) == db.bookings[read.id]
    ensures CancelRow(db, read) == Ok(after) && !OneEach(after)
  {
    read := Booking(1, Some(3), 0, 1, "", "", None, Confirmed, 1, Details(None, None, None));
    var rebooked := Booking(2, Some(3), 0, 1, "", "", None, Confirmed, 2, Details(None, None, None));
    var invitees := map[3 := Invitee(3, 4, Used)];
    db := Db(map[1 := read.(status := Cancelled), 2 := rebooked], map[], [], invitees, map[], [], [], 5);
    after := CancelRow(db, read).value;
    assert HeldBy(db.bookings[2], 3);
    CancelExact(db, read, after);
  }

  // ---------- The other steps ----------

  // Bookings drop out, lose liveness or keep their holder; no invitee becomes
  // active.
  ghost predicate Releases(db: Db, after: Db) {
    && (forall id :: id in after.bookings ==>
          && id in db.bookings && after.bookings[id].id == id && after.bookings[id].invitee == db.bookings[id].invitee
          && (Live(after.bookings[id]) ==> Live(db.bookings[id])))
    && (forall i :: i in after.invitees ==>
          && i in db.invitees && after.invitees[i].id == i && after.invitees[i].token == db.invitees[i].token
          && (after.invitees[i].status == Active ==> db.invitees[i].status == Active))
    && after.nextId >= db.nextId
  }

  lemma ReleaseKeeps(db: Db, after: Db)
    requires InviteesKeyed(db) && OneEach(db) && Releases(db, after)
    ensures InviteesKeyed(after) && OneEach(after)
  {
    forall id, i | id in after.bookings && HeldBy(after.bookings[id], i) ensures HeldBy(db.bookings[id], i) {}
    forall i | i in after.invitees && after.invitees[i].status == Active ensures !Holds(after, i) {
      assert !Holds(db, i);
    }
  }

  lemma InviteKeeps(s: State, s': State, invitee: Invitee)
    requires Inv(s) && Step(s, s', Invite(invitee))
    ensures Inv(s')
  {
    forall i | i in s'.db.invitees && s'.db.invitees[i].status == Active ensures !Holds(s'.db, i) {
      assert i != invitee.id ==> !Holds(s.db, i);
    }
  }

  // An admin may reactivate an invitee exactly when no live booking is held.
  lemma ReactivationExact(db: Db, i: InviteeId)
    requires InviteesKeyed(db) && OneEach(db) && i in db.invitees
    ensures InviteesKeyed(WithStatus(db, i, Active))
    ensures OneEach(WithStatus(db, i, Active)) <==> !Holds(db, i)
  {
    var after := WithStatus(db, i, Active);
    forall j ensures Holds(after, j) <==> Holds(db, j) {}
  }

  lemma OpenCommitWrites(db: Db, b: Booking, jobs: seq<Job>, after: Db)
    requires CreateWithToken(db, b, None, jobs) == Ok(after)
    ensures after.bookings == db.bookings[b.id := b] && after.invitees == db.invitees && after.nextId == db.nextId
  {
  }

  lemma UnheldKeeps(db: Db, after: Db, b: Booking)
    requires InviteesKeyed(db) && OneEach(db) && b.invitee.None?
    requires after.bookings == db.bookings[b.id := b] && after.invitees == db.invitees && after.nextId == db.nextId
    ensures InviteesKeyed(after) && OneEach(after)
  {
    forall i | i in after.invitees && after.invitees[i].status == Active ensures !Holds(after, i) {
      assert !Holds(db, i);
    }
  }

  lemma ReadKeeps(s: State, s': State, r: RequestId, token: Token)
    requires Inv(s) && Step(s, s', ReadToken(r, token))
    ensures Inv(s')
  {
    var i :| CheckAccess(s.db, Restricted, Some(token)) == Ok(Some(i)) && s'.passed == s.passed[r := Passed(i, token)];
    var found := InviteeWith(s.db.invitees, token).value;
    assert found.id == i && i in s.db.invitees && s.db.invitees[i].token == token;
  }

  lemma OpenCommitKeeps(s: State, s': State, b: Booking, jobs: seq<Job>)
    requires Inv(s) && Step(s, s', CommitOpen(b, jobs))
    ensures Inv(s')
  {
    OpenCommitWrites(s.db, b, jobs, s'.db);
    UnheldKeeps(s.db, s'.db, b);
  }

  lemma CancelKeeps(s: State, s': State, id: BookingId)
    requires Inv(s) && Step(s, s', Cancel(id))
    ensures Inv(s')
  {
    if Live(s.db.bookings[id]) {
      CancelExact(s.db, s.db.bookings[id], s'.db);
    }
  }

  lemma StatusKeeps(s: State, s': State, id: InviteeId, status: InviteeStatus)
    requires Inv(s) && Step(s, s', SetStatus(id, status))
    ensures Inv(s')
  {
    if status == Active {
      ReactivationExact(s.db, id);
    } else {
      ReleaseKeeps(s.db, s'.db);
    }
  }

  lemma StepKeepsInv(s: State, s': State, e: Action)
    requires Inv(s) && Step(s, s', e)
    ensures Inv(s')
  {
    match e
    case ReadToken(r, token) => ReadKeeps(s, s', r, token);
    case Commit(r, b, jobs) => CommitKeeps(s, s', r, b, jobs);
    case CommitOpen(b, jobs) => OpenCommitKeeps(s, s', b, jobs);
    case Cancel(id) => CancelKeeps(s, s', id);
    case Invite(invitee) => InviteKeeps(s, s', invitee);
    case SetStatus(id, status) => StatusKeeps(s, s', id, status);
    case _ => ReleaseKeeps(s.db, s'.db);
  }

  // ---------- Runs ----------

  ghost predicate Run(run: seq<State>, actions: seq<Action>) {
    && Trace(Step, run, actions)
    && run[0].db.bookings == map[] && run[0].db.invitees == map[] && run[0].passed == map[]
  }

  lemma StepsKeepInv()
    ensures Keeps(Inv, Step)
  {
    forall s, s', e | Inv(s) && Step(s, s', e) ensures Inv(s') {
      StepKeepsInv(s, s', e);
    }
  }

  // However the requests interleave, an invitation backs at most one live
  // booking, and an active one backs none.
  lemma TokenBacksOneBooking(run: seq<State>, actions: seq<Action>, n: nat, i: InviteeId)
    requires Run(run, actions) && n < |run|
    ensures forall a, b :: (a in run[n].db.bookings && b in run[n].db.bookings
              && HeldBy(run[n].db.bookings[a], i) && HeldBy(run[n].db.bookings[b], i)) ==> a == b
    ensures i in run[n].db.invitees && run[n].db.invitees[i].status == Active ==> !Holds(run[n].db, i)
  {
    StepsKeepInv();
    Invariant(Inv, Step, run, actions, n);
  }
}
