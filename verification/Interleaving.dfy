// Requests that read first and write later, whatever they book: how many
// bookings an interval of time can come to hold while they interleave.
module Interleaving {
  import opened Results
  import opened Time
  import opened Models
  import opened Counting
  import opened Store

  type RequestId = nat

  // A request that has read and has yet to write. An edit without a new time
  // writes back the times it read.
  datatype Passed =
    | ToCreate(start: Instant, end: Instant)
    | ToMove(id: BookingId, start: Instant, end: Instant)
    | ToEdit(id: BookingId, start: Instant, end: Instant)

  datatype State = State(db: Db, passed: map<RequestId, Passed>)

  // Jobs, invitees and the rest may change at any time.
  predicate SameRows(a: Db, b: Db) {
    a.bookings == b.bookings && a.overrides == b.overrides && a.sessions == b.sessions
  }

  // ---------- Steps ----------

  // A request joins those that have read.
  ghost predicate Enters(k: nat, s: State, s': State, r: RequestId, x: Passed) {
    r !in s.passed && |s.passed| < k && s'.db == s.db && s'.passed == s.passed[r := x]
  }

  // An admin edit without a new time reads a live booking.
  ghost predicate EditStep(k: nat, s: State, s': State, r: RequestId, id: BookingId) {
    && id in s.db.bookings && Live(s.db.bookings[id])
    && Enters(k, s, s', r, ToEdit(id, s.db.bookings[id].start, s.db.bookings[id].end))
  }

  // The write of a new booking, whose id no request has seen.
  ghost predicate CreateStep(s: State, s': State, r: RequestId, b: Booking, burn: Option<Token>, jobs: seq<Job>) {
    && r in s.passed && s.passed[r] == ToCreate(b.start, b.end)
    && (forall o :: o in s.passed && !s.passed[o].ToCreate? ==> s.passed[o].id != b.id)
    && CreateWithToken(s.db, b, burn, jobs).Ok?
    && SameRows(CreateWithToken(s.db, b, burn, jobs).value, s'.db)
    && s'.passed == s.passed - {r}
  }

  // The write of times to a booking, whatever became of it meanwhile.
  ghost predicate MoveStep(s: State, s': State, r: RequestId, b: Booking) {
    && r in s.passed && (s.passed[r] == ToMove(b.id, b.start, b.end) || s.passed[r] == ToEdit(b.id, b.start, b.end))
    && UpdateRow(s.db, b).Ok?
    && SameRows(UpdateRow(s.db, b).value, s'.db)
    && s'.passed == s.passed - {r}
  }

  // A request fails before its write, or in it.
  ghost predicate FailStep(s: State, s': State, r: RequestId) {
    SameRows(s.db, s'.db) && s'.passed == s.passed - {r}
  }

  // A cancellation, a deletion, or an edit of a booking that is not live.
  ghost predicate ReleaseStep(s: State, s': State, b: Booking) {
    && s'.passed == s.passed
    && (|| (CancelRow(s.db, b).Ok? && SameRows(CancelRow(s.db, b).value, s'.db))
        || (DeleteRow(s.db, b.id).Ok? && SameRows(DeleteRow(s.db, b.id).value, s'.db))
        || (b.id in s.db.bookings && !Live(s.db.bookings[b.id]) && SameRows(UpdateRow(s.db, b).value, s'.db)))
  }

  // Every step but the read of a request that looks for a free time.
  ghost predicate BlindStep(k: nat, s: State, s': State) {
    || (exists r, id :: EditStep(k, s, s', r, id))
    || (exists r, b, burn, jobs :: CreateStep(s, s', r, b, burn, jobs))
    || (exists r, b :: MoveStep(s, s', r, b))
    || (exists r :: FailStep(s, s', r))
    || (exists b :: ReleaseStep(s, s', b))
    || (SameRows(s.db, s'.db) && s'.passed == s.passed)
  }

  // ---------- What can come to hold a place ----------

  // The intervals that take up a place: a minute of a day, a session.
  type Place = (Instant, Instant) -> bool

  function Occupants(db: Db, place: Place): set<BookingId> {
    set id | id in db.bookings && Live(db.bookings[id]) && place(db.bookings[id].start, db.bookings[id].end)
  }

  // A request that will put booking `id` on the place.
  predicate Sends(x: Passed, id: BookingId, place: Place) {
    !x.ToCreate? && x.id == id && place(x.start, x.end)
  }

  // Live bookings that are on the place or may be put there.
  function Holders(s: State, place: Place): set<BookingId> {
    set id | id in s.db.bookings && Live(s.db.bookings[id])
      && (place(s.db.bookings[id].start, s.db.bookings[id].end)
          || exists r :: r in s.passed && Sends(s.passed[r], id, place))
  }

  function Newcomers(s: State, place: Place): set<RequestId> {
    set r | r in s.passed && s.passed[r].ToCreate? && place(s.passed[r].start, s.passed[r].end)
  }

  function Load(s: State, place: Place): nat {
    |Holders(s, place)| + |Newcomers(s, place)|
  }

  lemma OccupantsHold(s: State, place: Place)
    ensures |Occupants(s.db, place)| <= Load(s, place)
  {
    SubsetSize(Occupants(s.db, place), Holders(s, place));
  }

  // ---------- Reads ----------

  // The bookings that requests other than creations will write to.
  function Targets(passed: map<RequestId, Passed>): set<BookingId> {
    set r | r in passed && !passed[r].ToCreate? :: passed[r].id
  }

  function Creations(passed: map<RequestId, Passed>): set<RequestId> {
    set r | r in passed && passed[r].ToCreate?
  }

  lemma {:induction false} TargetsSize(passed: map<RequestId, Passed>)
    ensures |Targets(passed)| + |Creations(passed)| <= |passed.Keys|
    decreases |passed.Keys|
  {
    if passed == map[] {
      assert Targets(passed) == {} && Creations(passed) == {};
    } else {
      var r :| r in passed;
      var rest := passed - {r};
      assert passed.Keys == rest.Keys + {r};
      TargetsSize(rest);
      if passed[r].ToCreate? {
        assert Targets(passed) == Targets(rest) && Creations(passed) == Creations(rest) + {r};
      } else {
        SubsetSize(Targets(passed), Targets(rest) + {passed[r].id});
        assert Creations(passed) == Creations(rest);
      }
    }
  }

  // Whatever the requests are, they add no more than their number.
  lemma LoadAtMost(s: State, place: Place)
    ensures Load(s, place) <= |Occupants(s.db, place)| + |s.passed|
  {
    SubsetSize(Holders(s, place), Occupants(s.db, place) + Targets(s.passed));
    SubsetSize(Newcomers(s, place), Creations(s.passed));
    TargetsSize(s.passed);
    assert |s.passed| == |s.passed.Keys|;
  }

  lemma EnterSize(k: nat, s: State, s': State, r: RequestId, x: Passed)
    requires Enters(k, s, s', r, x)
    ensures |s'.passed| <= k
  {
    assert s'.passed.Keys == s.passed.Keys + {r};
    assert |s'.passed| == |s'.passed.Keys| && |s.passed| == |s.passed.Keys|;
  }

  // A request for another place adds nothing, and neither does an edit that
  // has read where its booking is.
  lemma EnterKeepsLoad(k: nat, s: State, s': State, r: RequestId, x: Passed, place: Place)
    requires Enters(k, s, s', r, x)
    requires !place(x.start, x.end)
             || (x.ToEdit? && x.id in s.db.bookings && x.start == s.db.bookings[x.id].start
                  && x.end == s.db.bookings[x.id].end)
    ensures Load(s', place) <= Load(s, place)
  {
    forall id | id in Holders(s', place) ensures id in Holders(s, place) {
      var b := s.db.bookings[id];
      if !place(b.start, b.end) {
        var o :| o in s'.passed && Sends(s'.passed[o], id, place);
        assert o != r && Sends(s.passed[o], id, place);
      }
    }
    SubsetSize(Holders(s', place), Holders(s, place));
    SubsetSize(Newcomers(s', place), Newcomers(s, place));
  }

  // ---------- Writes ----------

  // Only row `id` changes, to the times of request r, or becomes a new row
  // with them.
  ghost predicate Writes(s: State, s': State, r: RequestId, id: BookingId) {
    && r in s.passed && s'.passed == s.passed - {r}
    && s'.db.bookings.Keys == s.db.bookings.Keys + {id}
    && (forall j :: j in s.db.bookings && j != id ==> s'.db.bookings[j] == s.db.bookings[j])
    && s'.db.bookings[id].id == id
    && s'.db.bookings[id].start == s.passed[r].start && s'.db.bookings[id].end == s.passed[r].end
    && (if s.passed[r].ToCreate?
        then id !in s.db.bookings && forall o :: o in s.passed && !s.passed[o].ToCreate? ==> s.passed[o].id != id
        else id in s.db.bookings && id == s.passed[r].id && s'.db.bookings[id].status == s.db.bookings[id].status)
  }

  lemma MoveKeepsLoad(s: State, s': State, r: RequestId, id: BookingId, place: Place)
    requires Writes(s, s', r, id) && !s.passed[r].ToCreate?
    ensures Load(s', place) <= Load(s, place)
  {
    forall j | j in Holders(s', place) ensures j in Holders(s, place) {
      if place(s'.db.bookings[j].start, s'.db.bookings[j].end) {
        assert j == id ==> Sends(s.passed[r], id, place);
      } else {
        var o :| o in s'.passed && Sends(s'.passed[o], j, place);
        assert Sends(s.passed[o], j, place);
      }
    }
    SubsetSize(Holders(s', place), Holders(s, place));
    SubsetSize(Newcomers(s', place), Newcomers(s, place));
  }

  lemma CreateKeepsLoad(s: State, s': State, r: RequestId, id: BookingId, place: Place)
    requires Writes(s, s', r, id) && s.passed[r].ToCreate?
    ensures Load(s', place) <= Load(s, place)
  {
    forall j | j in Holders(s', place) && j != id ensures j in Holders(s, place) {
      if !place(s.db.bookings[j].start, s.db.bookings[j].end) {
        var o :| o in s'.passed && Sends(s'.passed[o], j, place);
        assert Sends(s.passed[o], j, place);
      }
    }
    assert Newcomers(s', place) == Newcomers(s, place) - {r};
    if r in Newcomers(s, place) {
      SubsetSize(Holders(s', place), Holders(s, place) + {id});
    } else {
      assert id !in Holders(s', place);
      SubsetSize(Holders(s', place), Holders(s, place));
    }
  }

  lemma WriteKeepsLoad(s: State, s': State, r: RequestId, id: BookingId, place: Place)
    requires Writes(s, s', r, id)
    ensures Load(s', place) <= Load(s, place)
  {
    if s.passed[r].ToCreate? {
      CreateKeepsLoad(s, s', r, id, place);
    } else {
      MoveKeepsLoad(s, s', r, id, place);
    }
  }

  lemma CreateWrites(s: State, s': State, r: RequestId, b: Booking, burn: Option<Token>, jobs: seq<Job>)
    requires CreateStep(s, s', r, b, burn, jobs)
    ensures Writes(s, s', r, b.id)
  {
  }

  lemma MoveWrites(s: State, s': State, r: RequestId, b: Booking)
    requires MoveStep(s, s', r, b) && RowsKeyed(s.db)
    ensures Writes(s, s', r, b.id)
  {
  }

  lemma FewerPassed(s: State, s': State, r: RequestId)
    requires s'.passed == s.passed - {r}
    ensures |s'.passed| <= |s.passed|
  {
    SubsetSize(s'.passed.Keys, s.passed.Keys);
  }

  // Live rows only drop out, requests only drop out.
  ghost predicate Shrinks(s: State, s': State) {
    && (forall r :: r in s'.passed ==> r in s.passed && s'.passed[r] == s.passed[r])
    && (forall id :: id in s'.db.bookings ==>
          && s'.db.bookings[id].id == id && id in s.db.bookings
          && (Live(s'.db.bookings[id]) ==>
                && Live(s.db.bookings[id])
                && s'.db.bookings[id].start == s.db.bookings[id].start
                && s'.db.bookings[id].end == s.db.bookings[id].end))
  }

  lemma ShrinkKeepsLoad(s: State, s': State, place: Place)
    requires Shrinks(s, s')
    ensures Load(s', place) <= Load(s, place)
  {
    forall j | j in Holders(s', place) ensures j in Holders(s, place) {
      if !place(s'.db.bookings[j].start, s'.db.bookings[j].end) {
        var o :| o in s'.passed && Sends(s'.passed[o], j, place);
        assert Sends(s.passed[o], j, place);
      }
    }
    SubsetSize(Holders(s', place), Holders(s, place));
    SubsetSize(Newcomers(s', place), Newcomers(s, place));
  }

  lemma ShrinkSize(s: State, s': State)
    requires Shrinks(s, s')
    ensures |s'.passed| <= |s.passed|
  {
    SubsetSize(s'.passed.Keys, s.passed.Keys);
  }

  lemma ReleaseShrinks(s: State, s': State, b: Booking)
    requires ReleaseStep(s, s', b) && RowsKeyed(s.db)
    ensures Shrinks(s, s')
  {
  }

  // ---------- Times ----------

  // The times of live bookings and of requests meet a test.
  ghost predicate AllTimes(test: Place, s: State) {
    && RowsKeyed(s.db)
    && (forall id :: id in s.db.bookings && Live(s.db.bookings[id]) ==>
         test(s.db.bookings[id].start, s.db.bookings[id].end))
    && (forall r :: r in s.passed ==> test(s.passed[r].start, s.passed[r].end))
  }

  lemma EnterTimes(test: Place, k: nat, s: State, s': State, r: RequestId, x: Passed)
    requires AllTimes(test, s) && test(x.start, x.end) && Enters(k, s, s', r, x)
    ensures AllTimes(test, s')
  {
  }

  lemma WriteTimes(test: Place, s: State, s': State, r: RequestId, id: BookingId)
    requires AllTimes(test, s) && Writes(s, s', r, id)
    ensures AllTimes(test, s')
  {
    forall j | j in s'.db.bookings && Live(s'.db.bookings[j])
      ensures test(s'.db.bookings[j].start, s'.db.bookings[j].end)
    {
      if j != id {
        assert s'.db.bookings[j] == s.db.bookings[j];
      }
    }
  }

  lemma ShrinkTimes(test: Place, s: State, s': State)
    requires AllTimes(test, s) && Shrinks(s, s')
    ensures AllTimes(test, s')
  {
  }

  // ---------- Every blind step ----------

  // What no blind step spoils.
  ghost predicate Kept(k: nat, test: Place, s: State, s': State) {
    && AllTimes(test, s') && |s'.passed| <= k
    && s'.db.overrides == s.db.overrides && s'.db.sessions == s.db.sessions
    && forall place: Place :: Load(s', place) <= Load(s, place)
  }

  lemma EditKeeps(k: nat, test: Place, s: State, s': State, r: RequestId, id: BookingId)
    requires AllTimes(test, s) && EditStep(k, s, s', r, id)
    ensures Kept(k, test, s, s')
  {
    var x := ToEdit(id, s.db.bookings[id].start, s.db.bookings[id].end);
    EnterTimes(test, k, s, s', r, x);
    EnterSize(k, s, s', r, x);
    forall place: Place ensures Load(s', place) <= Load(s, place) {
      EnterKeepsLoad(k, s, s', r, x, place);
    }
  }

  lemma WriteKeeps(k: nat, test: Place, s: State, s': State, r: RequestId, id: BookingId)
    requires AllTimes(test, s) && |s.passed| <= k && Writes(s, s', r, id)
    requires s'.db.overrides == s.db.overrides && s'.db.sessions == s.db.sessions
    ensures Kept(k, test, s, s')
  {
    WriteTimes(test, s, s', r, id);
    FewerPassed(s, s', r);
    forall place: Place ensures Load(s', place) <= Load(s, place) {
      WriteKeepsLoad(s, s', r, id, place);
    }
  }

  lemma ShrinkKeeps(k: nat, test: Place, s: State, s': State)
    requires AllTimes(test, s) && |s.passed| <= k && Shrinks(s, s')
    requires s'.db.overrides == s.db.overrides && s'.db.sessions == s.db.sessions
    ensures Kept(k, test, s, s')
  {
    ShrinkTimes(test, s, s');
    ShrinkSize(s, s');
    forall place: Place ensures Load(s', place) <= Load(s, place) {
      ShrinkKeepsLoad(s, s', place);
    }
  }

  // A step that looks for no free time makes no place fuller than bookings
  // and waiting requests could already make it.
  lemma BlindKeeps(k: nat, test: Place, s: State, s': State)
    requires AllTimes(test, s) && |s.passed| <= k && BlindStep(k, s, s')
    ensures Kept(k, test, s, s')
  {
    if r, id :| EditStep(k, s, s', r, id) {
      EditKeeps(k, test, s, s', r, id);
    } else if r, b, burn, jobs :| CreateStep(s, s', r, b, burn, jobs) {
      CreateWrites(s, s', r, b, burn, jobs);
      WriteKeeps(k, test, s, s', r, b.id);
    } else if r, b :| MoveStep(s, s', r, b) {
      MoveWrites(s, s', r, b);
      WriteKeeps(k, test, s, s', r, b.id);
    } else {
      if b :| ReleaseStep(s, s', b) {
        ReleaseShrinks(s, s', b);
      }
      ShrinkKeeps(k, test, s, s');
    }
  }

  // A request that passes on a place with room joins those waiting for it.
  lemma PassKeepsBound(k: nat, s: State, s': State, r: RequestId, x: Passed, place: Place, room: int)
    requires Enters(k, s, s', r, x) && Load(s, place) <= room + k - 1
    requires place(x.start, x.end) ==> |Occupants(s.db, place)| < room
    ensures Load(s', place) <= room + k - 1
  {
    if place(x.start, x.end) {
      LoadAtMost(s', place);
      EnterSize(k, s, s', r, x);
    } else {
      EnterKeepsLoad(k, s, s', r, x, place);
    }
  }
}
