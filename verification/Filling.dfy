// Requests for one place, one after the other up to one less than there is
// room for, and then k that all read before any writes.
module Filling {
  import opened Results
  import opened Time
  import opened Models
  import opened Store
  import opened Handlers
  import opened Interleaving
  import opened Runs

  function Granted(id: BookingId, p: Placement): Booking {
    Booking(id, None, p.start, p.end, "", "", p.location, Confirmed, id, Details(None, None, None))
  }

  function AllGranted(n: nat, p: Placement): (m: map<BookingId, Booking>)
    ensures forall id: nat :: id in m <==> id < n
    ensures forall id :: id in m ==> m[id] == Granted(id, p)
    ensures |m.Keys| == n
  {
    if n == 0 then map[]
    else
      var before := AllGranted(n - 1, p);
      var m := before[n - 1 := Granted(n - 1, p)];
      assert m.Keys == before.Keys + {n - 1};
      m
  }

  // Requests lo, ..., hi - 1 have passed for the same slot.
  function Waiting(lo: nat, hi: nat, p: Placement): (m: map<RequestId, Passed>)
    ensures forall r: nat :: r in m <==> lo <= r < hi
    ensures forall r :: r in m ==> m[r] == ToCreate(p.start, p.end)
  {
    if hi <= lo then map[] else Waiting(lo, hi - 1, p)[hi - 1 := ToCreate(p.start, p.end)]
  }

  lemma {:induction false} WaitingSize(lo: nat, hi: nat, p: Placement)
    requires lo <= hi
    ensures |Waiting(lo, hi, p)| == hi - lo
  {
    if lo < hi {
      var before := Waiting(lo, hi - 1, p);
      WaitingSize(lo, hi - 1, p);
      assert Waiting(lo, hi, p).Keys == before.Keys + {hi - 1};
      assert |Waiting(lo, hi, p).Keys| == |before.Keys| + 1;
    }
  }

  // Requests 0, ..., lo - 1 have written, lo, ..., hi - 1 have read.
  function Moment(db: Db, lo: nat, hi: nat, p: Placement): State {
    State(db.(bookings := AllGranted(lo, p)), Waiting(lo, hi, p))
  }

  function Rows(n: nat, p: Placement): seq<Booking> {
    seq(n, (id: nat) => Granted(id, p))
  }

  lemma RowsAreListed(n: nat, p: Placement, from: Instant, to: Instant)
    requires Overlap(p.start, p.end, from, to)
    ensures IsListing(Rows(n, p), AllGranted(n, p), from, to)
  {
    var rows := Rows(n, p);
    forall b ensures b in rows <==> b.id in AllGranted(n, p) && AllGranted(n, p)[b.id] == b && Listed(b, from, to) {
      if b.id in AllGranted(n, p) && AllGranted(n, p)[b.id] == b {
        assert rows[b.id] == b;
      }
    }
  }

  lemma EnterMoment(k: nat, db: Db, lo: nat, hi: nat, p: Placement)
    requires lo <= hi < lo + k
    ensures Enters(k, Moment(db, lo, hi, p), Moment(db, lo, hi + 1, p), hi, ToCreate(p.start, p.end))
  {
    WaitingSize(lo, hi, p);
    assert Waiting(lo, hi + 1, p) == Waiting(lo, hi, p)[hi := ToCreate(p.start, p.end)];
  }

  // ---------- Writes ----------

  // The machine makes at least the steps that look for no free time.
  ghost predicate MakesBlindSteps(step: (State, State) -> bool, k: nat) {
    forall s, s' :: BlindStep(k, s, s') ==> step(s, s')
  }

  lemma GrantIsBlind(k: nat, s: State, s': State, r: RequestId, b: Booking)
    requires r in s.passed && s.passed[r] == ToCreate(b.start, b.end) && b.id !in s.db.bookings
    requires forall o :: o in s.passed ==> s.passed[o].ToCreate?
    requires s'.db == s.db.(bookings := s.db.bookings[b.id := b]) && s'.passed == s.passed - {r}
    ensures BlindStep(k, s, s')
  {
    assert CreateStep(s, s', r, b, None, []);
  }

  lemma FirstWaitingLeaves(lo: nat, hi: nat, p: Placement)
    ensures Waiting(lo + 1, hi, p) == Waiting(lo, hi, p) - {lo}
  {
  }

  lemma OneMoreGranted(n: nat, p: Placement)
    ensures AllGranted(n + 1, p) == AllGranted(n, p)[n := Granted(n, p)]
  {
  }

  lemma WriteIsBlind(k: nat, db: Db, lo: nat, hi: nat, p: Placement)
    requires lo < hi
    ensures BlindStep(k, Moment(db, lo, hi, p), Moment(db, lo + 1, hi, p))
  {
    FirstWaitingLeaves(lo, hi, p);
    OneMoreGranted(lo, p);
    GrantIsBlind(k, Moment(db, lo, hi, p), Moment(db, lo + 1, hi, p), lo, Granted(lo, p));
  }

  lemma WritesAllowed(step: (State, State) -> bool, k: nat, db: Db, p: Placement)
    requires MakesBlindSteps(step, k)
    ensures AllWrites(step, MomentAt(db, p))
  {
    forall lo: nat, hi: nat | lo < hi ensures WritesOne(step, MomentAt(db, p), lo, hi) {
      WriteIsBlind(k, db, lo, hi, p);
    }
  }

  // ---------- The run ----------

  function MomentAt(db: Db, p: Placement): (nat, nat) -> State {
    (lo: nat, hi: nat) => Moment(db, lo, hi, p)
  }

  // `at(lo, hi)` is the state in which lo requests have written and hi have
  // read.
  ghost predicate ReadsOne<S>(step: (S, S) -> bool, at: (nat, nat) -> S, lo: nat, hi: nat) {
    step(at(lo, hi), at(lo, hi + 1))
  }

  ghost predicate WritesOne<S>(step: (S, S) -> bool, at: (nat, nat) -> S, lo: nat, hi: nat) {
    step(at(lo, hi), at(lo + 1, hi))
  }

  // n requests, each of which writes before the next one reads.
  function Serial<S>(at: (nat, nat) -> S, n: nat): seq<S> {
    if n == 0 then [] else Serial(at, n - 1) + [at(n - 1, n - 1), at(n - 1, n)]
  }

  function Reading<S>(at: (nat, nat) -> S, n: nat, k: nat): seq<S> {
    seq(k, (i: nat) => at(n, n + i))
  }

  function Writing<S>(at: (nat, nat) -> S, n: nat, k: nat): seq<S> {
    seq(k + 1, (i: nat) => at(n + i, n + k))
  }

  function Filling<S>(at: (nat, nat) -> S, n: nat, k: nat): seq<S> {
    Serial(at, n) + (Reading(at, n, k) + Writing(at, n, k))
  }

  // k reads at once while fewer than `room` have written, writes at any time.
  ghost predicate Allowed<S>(step: (S, S) -> bool, at: (nat, nat) -> S, room: nat, k: nat) {
    AllReads(step, at, room, k) && AllWrites(step, at)
  }

  ghost predicate AllReads<S>(step: (S, S) -> bool, at: (nat, nat) -> S, room: nat, k: nat) {
    forall lo: nat, hi: nat :: lo <= hi < lo + k && lo < room ==> ReadsOne(step, at, lo, hi)
  }

  ghost predicate AllWrites<S>(step: (S, S) -> bool, at: (nat, nat) -> S) {
    forall lo: nat, hi: nat :: lo < hi ==> WritesOne(step, at, lo, hi)
  }

  lemma {:induction false} SerialChain<S>(step: (S, S) -> bool, at: (nat, nat) -> S, room: nat, k: nat, n: nat)
    requires Allowed(step, at, room, k) && k >= 1 && n <= room
    ensures Chain(step, Serial(at, n))
    ensures n > 0 ==> step(Serial(at, n)[|Serial(at, n)| - 1], at(n, n))
  {
    if n > 0 {
      SerialChain(step, at, room, k, n - 1);
      assert ReadsOne(step, at, n - 1, n - 1) && WritesOne(step, at, n - 1, n);
      JoinChains(step, Serial(at, n - 1), [at(n - 1, n - 1), at(n - 1, n)]);
    }
  }

  lemma ReadingChain<S>(step: (S, S) -> bool, at: (nat, nat) -> S, room: nat, k: nat, n: nat)
    requires Allowed(step, at, room, k) && n < room
    ensures Chain(step, Reading(at, n, k))
    ensures k > 0 ==> step(Reading(at, n, k)[k - 1], at(n, n + k))
  {
    var run := Reading(at, n, k);
    forall i | 0 <= i < |run| - 1 ensures step(run[i], run[i + 1]) {
      assert ReadsOne(step, at, n, n + i);
    }
    if k > 0 {
      assert ReadsOne(step, at, n, n + k - 1);
    }
  }

  lemma WritingChain<S>(step: (S, S) -> bool, at: (nat, nat) -> S, room: nat, k: nat, n: nat)
    requires Allowed(step, at, room, k)
    ensures Chain(step, Writing(at, n, k))
  {
    var run := Writing(at, n, k);
    forall i | 0 <= i < |run| - 1 ensures step(run[i], run[i + 1]) {
      assert WritesOne(step, at, n + i, n + k);
    }
  }

  lemma FillingChain<S>(step: (S, S) -> bool, at: (nat, nat) -> S, room: nat, k: nat, n: nat)
    requires Allowed(step, at, room, k) && k >= 1 && n < room
    ensures Chain(step, Filling(at, n, k))
  {
    SerialChain(step, at, room, k, n);
    ReadingChain(step, at, room, k, n);
    WritingChain(step, at, room, k, n);
    JoinChains(step, Reading(at, n, k), Writing(at, n, k));
    JoinChains(step, Serial(at, n), Reading(at, n, k) + Writing(at, n, k));
  }

  lemma {:induction false} SerialStarts<S>(at: (nat, nat) -> S, n: nat)
    requires n > 0
    ensures |Serial(at, n)| > 0 && Serial(at, n)[0] == at(0, 0)
  {
    if n > 1 {
      SerialStarts(at, n - 1);
    }
  }

  lemma FillingEnds<S>(at: (nat, nat) -> S, n: nat, k: nat)
    requires k >= 1
    ensures |Filling(at, n, k)| > 0 && Filling(at, n, k)[0] == at(0, 0)
    ensures Filling(at, n, k)[|Filling(at, n, k)| - 1] == at(n + k, n + k)
  {
    if n > 0 {
      SerialStarts(at, n);
    }
  }

  lemma AllOccupy(db: Db, n: nat, p: Placement, place: Place)
    requires place(p.start, p.end)
    ensures |Occupants(Moment(db, n, n, p).db, place)| == n
  {
    assert Occupants(Moment(db, n, n, p).db, place) == AllGranted(n, p).Keys;
  }

  function Last<S>(run: seq<S>): S
    requires run != []
  {
    run[|run| - 1]
  }

  lemma FilledChain(step: (State, State) -> bool, db: Db, p: Placement, room: nat, k: nat)
    requires AllReads(step, MomentAt(db, p), room, k) && MakesBlindSteps(step, k) && room >= 1 && k >= 1
    ensures Chain(step, Filling(MomentAt(db, p), room - 1, k))
  {
    WritesAllowed(step, k, db, p);
    FillingChain(step, MomentAt(db, p), room, k, room - 1);
  }

  lemma FirstMoment(db: Db, p: Placement)
    requires db.bookings == map[]
    ensures MomentAt(db, p)(0, 0) == State(db, map[])
  {
    assert db.(bookings := AllGranted(0, p)) == db;
  }

  lemma LastMoment(db: Db, p: Placement, place: Place, full: nat)
    requires place(p.start, p.end)
    ensures |Occupants(MomentAt(db, p)(full, full).db, place)| == full
  {
    AllOccupy(db, full, p, place);
  }

  lemma FilledEnds(at: (nat, nat) -> State, place: Place, n: nat, k: nat, full: nat, run: seq<State>)
    requires k >= 1 && full == n + k && run == Filling(at, n, k) && |Occupants(at(full, full).db, place)| == full
    ensures run != [] && run[0] == at(0, 0) && |Occupants(Last(run).db, place)| == full
  {
    FillingEnds(at, n, k);
  }

  lemma FilledWhole(db: Db, p: Placement, place: Place, n: nat, k: nat, full: nat, run: seq<State>)
    requires db.bookings == map[] && place(p.start, p.end) && k >= 1 && full == n + k
    requires run == Filling(MomentAt(db, p), n, k)
    ensures run != [] && run[0] == State(db, map[]) && |Occupants(Last(run).db, place)| == full
  {
    FirstMoment(db, p);
    LastMoment(db, p, place, full);
    FilledEnds(MomentAt(db, p), place, n, k, full, run);
  }

  // As many requests as there are places and k - 1 more end up on the place.
  lemma FilledRun(step: (State, State) -> bool, db: Db, p: Placement, place: Place, room: nat, k: nat, full: nat)
    returns (run: seq<State>)
    requires AllReads(step, MomentAt(db, p), room, k) && MakesBlindSteps(step, k)
    requires db.bookings == map[] && place(p.start, p.end) && room >= 1 && k >= 1 && full == room + k - 1
    ensures run != [] && Chain(step, run) && run[0] == State(db, map[]) && |Occupants(Last(run).db, place)| == full
  {
    run := Filling(MomentAt(db, p), room - 1, k);
    FilledChain(step, db, p, room, k);
    FilledWhole(db, p, place, room - 1, k, full, run);
  }
}
