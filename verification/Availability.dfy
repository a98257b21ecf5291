// `calculate_slots` of src/domain/services/availability.rs.
module Availability {
  import opened Results
  import opened Time
  import opened Models
  import opened Counting
  import opened Rfc3339
  import opened Sorting

  const TOTAL_MINUTES := 1440

  type U8 = n: int | 0 <= n <= 255

  function Max(a: int, b: int): int { if a < b then b else a }

  function Min(a: int, b: int): int { if a < b then a else b }

  // Local midnight and 23:59:59 of a date, as instants.
  datatype DayBounds = DayBounds(start: Instant, end: Instant)

  function BoundsOf(zone: Zone, d: Date): Option<DayBounds> {
    var s, e := zone.Single(Midnight(d)), zone.Single(DayEnd(d));
    if s.Some? && e.Some? then Some(DayBounds(s.value, e.value)) else None
  }

  // ---------- The minute counters ----------

  predicate Touches(b: Booking, day: DayBounds) {
    Max(b.start, day.start) < Min(b.end, day.end)
  }

  // Whole minutes from the start of the day, from timestamps in seconds.
  function MinuteIndex(t: Instant, day: DayBounds): int {
    Max(0, Min((t / SECOND - day.start / SECOND) / 60, TOTAL_MINUTES))
  }

  predicate Counts(b: Booking, day: DayBounds, i: int) {
    && Touches(b, day)
    && MinuteIndex(Max(b.start, day.start), day) <= i < MinuteIndex(Min(b.end, day.end), day)
  }

  function CountsAt(day: DayBounds, i: int): Booking -> bool {
    (b: Booking) => Counts(b, day, i)
  }

  // The number of bookings that count towards minute i.
  function Busy(rows: seq<Booking>, day: DayBounds, i: int): nat {
    Count(CountsAt(day, i), rows)
  }

  function Saturated(n: nat): U8 {
    if n > 255 then 255 else n
  }

  // Some booking of the day starts before t.
  predicate FollowsABooking(rows: seq<Booking>, day: DayBounds, t: Instant) {
    exists b :: b in rows && Touches(b, day) && b.start < t
  }

  // ---------- Slots ----------

  function WindowEnd(w: Window): int {
    if w.end == 1439 then 1440 else w.end
  }

  function Overlapping(s: Session): Booking -> bool {
    (b: Booking) => Overlap(b.start, b.end, s.start, s.end)
  }

  // The arguments of one slot computation.
  datatype SlotQuery = SlotQuery(
    event: Event,
    date: Date,
    rows: seq<Booking>,
    rule: Option<Override>,
    sessions: Option<seq<Session>>,
    now: Instant)
  {
    predicate Unavailable() {
      rule.Some? && rule.value.unavailable
    }

    function Windows(): seq<Window> {
      (if rule.Some? && rule.value.config.Some? then rule.value.config.value else event.config).On(date)
    }

    // Window capacity before override capacity before event capacity.
    function Capacity(w: Window): int {
      if w.capacity.Some? then w.capacity.value
      else if rule.Some? && rule.value.capacity.Some? then rule.value.capacity.value
      else event.capacity
    }

    function Cursor(w: Window, k: nat): int {
      w.start + k * event.interval
    }

    predicate HasRoom(day: DayBounds, cursor: int, capacity: int) {
      forall i :: cursor <= i < Min(cursor + event.duration, TOTAL_MINUTES) ==> Saturated(Busy(rows, day, i)) < capacity
    }

    function Cutoff(day: DayBounds, t: Instant): Instant {
      now + Minutes(if FollowsABooking(rows, day, t) then event.noticeGeneral else event.noticeFirst)
    }

    // The k-th step through window w offers the slot at t.
    predicate Offers(day: DayBounds, w: Window, k: nat, t: Instant) {
      && Cursor(w, k) + event.duration <= WindowEnd(w)
      && event.zone.Single(ClockTime(date, Cursor(w, k))) == Some(t)
      && HasRoom(day, Cursor(w, k), Capacity(w))
      && t > Cutoff(day, t)
      && t >= event.activeStart
      && t + Minutes(event.duration) <= event.activeEnd
    }

    ghost predicate RecurringSlot(t: Instant) {
      && !Unavailable()
      && event.duration > 0 && event.interval > 0
      && BoundsOf(event.zone, date).Some?
      && OfferedIn(BoundsOf(event.zone, date).value, Windows(), t)
    }

    ghost predicate OfferedIn(day: DayBounds, windows: seq<Window>, t: Instant) {
      exists w, k: nat :: w in windows && Offers(day, w, k, t)
    }

    predicate Open(s: Session) {
      && DateOf(event.zone.Local(s.start)) == date
      && Count(Overlapping(s), rows) < s.capacity
    }

    ghost predicate ManualSlot(t: Instant) {
      && sessions.Some?
      && exists s :: s in sessions.value && Open(s) && s.start == t
    }

    ghost predicate IsSlot(t: Instant) {
      if event.schedule == Manual then ManualSlot(t) else RecurringSlot(t)
    }

    // Local midnight or 23:59:59 is skipped or repeated.
    predicate Panics() {
      event.schedule != Manual && !Unavailable() && BoundsOf(event.zone, date).None?
    }
  }

  // ---------- The computation ----------

  // Fills the minute counters and finds the earliest start of a booking that
  // touches the day.
  method CountMinutes(rows: seq<Booking>, day: DayBounds) returns (counts: array<U8>, earliest: Option<Instant>)
    ensures fresh(counts) && counts.Length == TOTAL_MINUTES
    ensures forall i :: 0 <= i < TOTAL_MINUTES ==> counts[i] == Saturated(Busy(rows, day, i))
    ensures forall t :: FollowsABooking(rows, day, t) <==> (earliest.Some? && earliest.value < t)
  {
    counts := new U8[TOTAL_MINUTES](_ => 0);
    earliest := None;
    for n := 0 to |rows|
      invariant forall i :: 0 <= i < TOTAL_MINUTES ==> counts[i] == Saturated(Busy(rows[..n], day, i))
      invariant forall b :: b in rows[..n] && Touches(b, day) ==> earliest.Some? && earliest.value <= b.start
      invariant earliest.Some? ==> exists b :: b in rows[..n] && Touches(b, day) && b.start == earliest.value
    {
      var booking := rows[n];
      assert rows[..n + 1] == rows[..n] + [booking];
      forall i
        ensures Busy(rows[..n + 1], day, i) == Busy(rows[..n], day, i) + if Counts(booking, day, i) then 1 else 0
      {
        CountSnoc(CountsAt(day, i), rows, n);
      }
      var start, end := Max(booking.start, day.start), Min(booking.end, day.end);
      if start < end {
        if earliest.None? || booking.start < earliest.value {
          earliest := Some(booking.start);
        }
        IncrementRange(counts, MinuteIndex(start, day), MinuteIndex(end, day));
      }
    }
    assert rows[..|rows|] == rows;
  }

  // `saturating_add(1)` on a range of counters.
  method IncrementRange(counts: array<U8>, lo: nat, hi: nat)
    requires lo <= hi <= counts.Length
    modifies counts
    ensures forall i :: 0 <= i < counts.Length ==>
              counts[i] == if lo <= i < hi && old(counts[i]) < 255 then old(counts[i]) + 1 else old(counts[i])
  {
    for j := lo to hi
      invariant forall i :: 0 <= i < counts.Length ==>
                  counts[i] == if lo <= i < j && old(counts[i]) < 255 then old(counts[i]) + 1 else old(counts[i])
    {
      counts[j] := if counts[j] < 255 then counts[j] + 1 else 255;
    }
  }

  method CheckRoom(counts: array<U8>, cursor: nat, duration: nat, capacity: int) returns (ok: bool)
    requires counts.Length == TOTAL_MINUTES
    ensures ok <==> forall i :: cursor <= i < Min(cursor + duration, TOTAL_MINUTES) ==> counts[i] < capacity
  {
    for i := cursor to cursor + duration
      invariant forall j :: cursor <= j < Min(i, TOTAL_MINUTES) ==> counts[j] < capacity
    {
      if i < TOTAL_MINUTES && counts[i] >= capacity {
        return false;
      }
    }
    return true;
  }

  lemma CursorGrows(q: SlotQuery, w: Window, k: nat, j: nat)
    requires k <= j
    ensures q.Cursor(w, k) <= q.Cursor(w, j)
  {
    assert (j - k) * q.event.interval >= 0;
    assert q.Cursor(w, j) == q.Cursor(w, k) + (j - k) * q.event.interval;
  }

  // The cursor loop over one window.
  method WalkWindow(q: SlotQuery, day: DayBounds, w: Window, counts: array<U8>, earliest: Option<Instant>)
    returns (found: seq<Instant>)
    requires q.event.duration > 0 && q.event.interval > 0
    requires counts.Length == TOTAL_MINUTES
    requires forall i :: 0 <= i < TOTAL_MINUTES ==> counts[i] == Saturated(Busy(q.rows, day, i))
    requires forall t :: FollowsABooking(q.rows, day, t) <==> (earliest.Some? && earliest.value < t)
    ensures forall t :: t in found <==> exists k: nat :: q.Offers(day, w, k, t)
  {
    found := [];
    var cursor := w.start;
    ghost var k: nat := 0;
    while cursor + q.event.duration <= WindowEnd(w)
      invariant w.start <= cursor == q.Cursor(w, k)
      invariant forall t :: t in found <==> exists j: nat :: j < k && q.Offers(day, w, j, t)
      decreases WindowEnd(w) - cursor
    {
      var slot := q.event.zone.Single(ClockTime(q.date, cursor));
      ghost var was := found;
      if slot.Some? {
        var cutoff := if earliest.Some? && slot.value > earliest.value
                      then q.now + Minutes(q.event.noticeGeneral) else q.now + Minutes(q.event.noticeFirst);
        var isCapacityOk := CheckRoom(counts, cursor, q.event.duration, q.Capacity(w));
        if slot.value > cutoff && slot.value >= q.event.activeStart
          && slot.value + Minutes(q.event.duration) <= q.event.activeEnd && isCapacityOk
        {
          found := found + [slot.value];
        }
      }
      forall t ensures t in found <==> exists j: nat :: j < k + 1 && q.Offers(day, w, j, t) {
        assert t in found <==> t in was || q.Offers(day, w, k, t);
      }
      cursor := cursor + q.event.interval;
      k := k + 1;
    }
    forall j: nat, t | q.Offers(day, w, j, t) ensures j < k {
      if k <= j {
        CursorGrows(q, w, k, j);
      }
    }
  }

  function Written(at: seq<Instant>): seq<string> {
    if at == [] then [] else Written(at[..|at| - 1]) + [ToRfc3339(at[|at| - 1])]
  }

  lemma {:induction false} WrittenExact(at: seq<Instant>)
    ensures forall s :: s in Written(at) <==> exists t :: t in at && s == ToRfc3339(t)
  {
    if at != [] {
      var n := |at| - 1;
      WrittenExact(at[..n]);
      assert at == at[..n] + [at[n]];
    }
  }

  // The slots of a day as sorted, deduplicated strings.
  ghost predicate IsSlotList(q: SlotQuery, list: seq<string>) {
    && StrictlyAscending(list)
    && forall s :: s in list <==> exists t :: q.IsSlot(t) && s == ToRfc3339(t)
  }

  method CalculateSlots(q: SlotQuery) returns (r: Result<seq<string>>)
    ensures q.Panics() ==> r == Err(Panic)
    ensures !q.Panics() ==> r.Ok? && IsSlotList(q, r.value)
  {
    var found: seq<Instant> := [];
    if q.event.schedule == Manual {
      if q.sessions.Some? {
        found := ManualStarts(q);
      }
    } else if !q.Unavailable() {
      var bounds := BoundsOf(q.event.zone, q.date);
      if bounds.None? {
        return Err(Panic);
      }
      found := RecurringStarts(q, bounds.value);
    }
    var slots := Written(found);
    WrittenExact(found);
    SortDedup(slots);
    r := Ok(Dedup(Sort(slots)));
  }

  method RecurringStarts(q: SlotQuery, day: DayBounds) returns (found: seq<Instant>)
    requires BoundsOf(q.event.zone, q.date) == Some(day) && !q.Unavailable()
    ensures forall t :: t in found <==> q.RecurringSlot(t)
  {
    found := [];
    var counts, earliest := CountMinutes(q.rows, day);
    if q.event.duration == 0 || q.event.interval == 0 {
      return;
    }
    found := WalkWindows(q, day, q.Windows(), counts, earliest);
  }

  method WalkWindows(q: SlotQuery, day: DayBounds, windows: seq<Window>, counts: array<U8>, earliest: Option<Instant>)
    returns (found: seq<Instant>)
    requires q.event.duration > 0 && q.event.interval > 0
    requires counts.Length == TOTAL_MINUTES
    requires forall i :: 0 <= i < TOTAL_MINUTES ==> counts[i] == Saturated(Busy(q.rows, day, i))
    requires forall t :: FollowsABooking(q.rows, day, t) <==> (earliest.Some? && earliest.value < t)
    ensures forall t :: t in found <==> q.OfferedIn(day, windows, t)
  {
    found := [];
    for n := 0 to |windows|
      invariant forall t :: t in found <==> q.OfferedIn(day, windows[..n], t)
    {
      var more := WalkWindow(q, day, windows[n], counts, earliest);
      found := found + more;
      assert windows[..n + 1] == windows[..n] + [windows[n]];
      OfferedSnoc(q, day, windows[..n], windows[n]);
    }
    assert windows[..|windows|] == windows;
  }

  lemma OfferedSnoc(q: SlotQuery, day: DayBounds, windows: seq<Window>, w: Window)
    ensures forall t :: q.OfferedIn(day, windows + [w], t) <==>
              q.OfferedIn(day, windows, t) || exists k: nat :: q.Offers(day, w, k, t)
  {
    forall t | exists k: nat :: q.Offers(day, w, k, t) ensures q.OfferedIn(day, windows + [w], t) {
      assert w in windows + [w];
    }
    forall t | q.OfferedIn(day, windows, t) ensures q.OfferedIn(day, windows + [w], t) {
      var v, k: nat :| v in windows && q.Offers(day, v, k, t);
      assert v in windows + [w];
    }
  }

  method ManualStarts(q: SlotQuery) returns (found: seq<Instant>)
    requires q.event.schedule == Manual && q.sessions.Some?
    ensures forall t :: t in found <==> q.ManualSlot(t)
  {
    found := [];
    var sessions := q.sessions.value;
    for n := 0 to |sessions|
      invariant forall t :: t in found <==> exists s :: s in sessions[..n] && q.Open(s) && s.start == t
    {
      var session := sessions[n];
      ghost var was := found;
      assert sessions[..n + 1] == sessions[..n] + [session];
      if q.Open(session) {
        found := found + [session.start];
      }
      forall t ensures t in found <==> exists s :: s in sessions[..n + 1] && q.Open(s) && s.start == t {
        assert t in found <==> t in was || (q.Open(session) && t == session.start);
      }
    }
    assert sessions[..|sessions|] == sessions;
  }
}
