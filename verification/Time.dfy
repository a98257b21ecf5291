// Instants, wall-clock times and time zones.
module Time {
  import opened Results

  // An instant counts nanoseconds since 1970-01-01T00:00:00 UTC; a wall-clock
  // time counts nanoseconds since 1970-01-01T00:00:00 on the local clock; a
  // date counts days since 1970-01-01.
  type Instant = int
  type WallTime = int
  type Date = int

  const SECOND := 1_000_000_000
  const DAY := 86_400_000_000_000

  function Seconds(n: int): int {
    1_000_000_000 * n
  }

  function Minutes(n: int): int {
    60_000_000_000 * n
  }

  function Midnight(d: Date): WallTime {
    86_400_000_000_000 * d
  }

  // Wall-clock time `m` minutes into date `d`.
  function ClockTime(d: Date, m: int): WallTime {
    Midnight(d) + Minutes(m)
  }

  // 23:59:59, the last second the day queries look at.
  function DayEnd(d: Date): WallTime {
    Midnight(d) + Seconds(86_399)
  }

  function DateOf(w: WallTime): Date {
    w / 86_400_000_000_000
  }

  function TimeOfDay(w: WallTime): int {
    w % 86_400_000_000_000
  }

  // From instant `at` on, the local clock is ahead of UTC by `offset`.
  datatype Change = Change(at: Instant, offset: int)

  // A time zone as a piecewise-constant offset. Segment 0 reaches back
  // forever; segment i > 0 starts with the change at index i - 1.
  datatype Zone = Zone(base: int, changes: seq<Change>) {

    predicate Valid() {
      && (forall i, j :: 0 <= i < j < |changes| ==> changes[i].at < changes[j].at)
      && (forall i :: 0 <= i <= |changes| ==> -DAY < Offset(i) < DAY && Offset(i) % SECOND == 0)
    }

    function Offset(i: nat): int
      requires i <= |changes|
    {
      if i == 0 then base else changes[i - 1].offset
    }

    predicate InSegment(i: nat, u: Instant)
      requires i <= |changes|
    {
      && (i == 0 || changes[i - 1].at <= u)
      && (i == |changes| || u < changes[i].at)
    }

    // The number of changes among the first `n` that lie at or before `u`,
    // looked up from the latest one.
    function SegmentUpTo(u: Instant, n: nat): (i: nat)
      requires n <= |changes|
      ensures i <= n
      ensures i == 0 || changes[i - 1].at <= u
      ensures i == n || u < changes[i].at
    {
      if n == 0 then 0
      else if changes[n - 1].at <= u then n
      else SegmentUpTo(u, n - 1)
    }

    function SegmentOf(u: Instant): (i: nat)
      ensures i <= |changes| && InSegment(i, u)
    {
      SegmentUpTo(u, |changes|)
    }

    // The wall-clock reading at an instant (`with_timezone`).
    function Local(u: Instant): WallTime {
      u + Offset(SegmentOf(u))
    }

    // The instants in segments i, i + 1, ... whose wall-clock reading is `w`.
    function Preimages(w: WallTime, i: nat): seq<Instant>
      requires i <= |changes| + 1
      decreases |changes| + 1 - i
    {
      if i == |changes| + 1 then []
      else
        var u := w - Offset(i);
        (if InSegment(i, u) then [u] else []) + Preimages(w, i + 1)
    }

    // `from_local_datetime(w).single()`: the instant, unless the wall-clock
    // time is skipped or repeated.
    function Single(w: WallTime): Option<Instant> {
      var candidates := Preimages(w, 0);
      if |candidates| == 1 then Some(candidates[0]) else None
    }

    // Segments last longer than the two jumps that bound them.
    predicate Regular() {
      && Valid()
      && (forall k :: 0 < k < |changes| ==> changes[k].at - changes[k - 1].at > Jump(k - 1) + Jump(k))
    }

    function Jump(k: nat): nat
      requires k < |changes|
    {
      var d := Offset(k + 1) - Offset(k);
      if d < 0 then -d else d
    }

    // Every wall-clock time of the date is one offset away from its instant.
    predicate Steady(d: Date) {
      && Single(Midnight(d)).Some?
      && (forall m :: Midnight(d) <= m < Midnight(d) + DAY ==>
            Single(m) == Some(Single(Midnight(d)).value + (m - Midnight(d))))
    }

    lemma LaterSegment(i: nat, j: nat, u: Instant, v: Instant)
      requires Valid() && i < j <= |changes| && InSegment(i, u) && InSegment(j, v)
      ensures u < v
    {
      assert changes[i].at <= changes[j - 1].at;
    }

    lemma SegmentUnique(i: nat, u: Instant)
      requires Valid() && i <= |changes| && InSegment(i, u)
      ensures SegmentOf(u) == i
    {
      var j := SegmentOf(u);
      if j < i {
        LaterSegment(j, i, u, u);
      } else if i < j {
        LaterSegment(i, j, u, u);
      }
    }

    lemma {:induction false} PreimagesMember(w: WallTime, i: nat, v: Instant)
      requires Valid() && i <= |changes| + 1
      ensures v in Preimages(w, i) <==> Local(v) == w && i <= SegmentOf(v)
      decreases |changes| + 1 - i
    {
      if i <= |changes| {
        PreimagesMember(w, i + 1, v);
        if InSegment(i, v) {
          SegmentUnique(i, v);
        }
      }
    }

    lemma {:induction false} PreimagesDistinct(w: WallTime, i: nat)
      requires Valid() && i <= |changes| + 1
      ensures forall a, b :: 0 <= a < b < |Preimages(w, i)| ==> Preimages(w, i)[a] != Preimages(w, i)[b]
      decreases |changes| + 1 - i
    {
      if i <= |changes| {
        PreimagesDistinct(w, i + 1);
        var u := w - Offset(i);
        if InSegment(i, u) {
          SegmentUnique(i, u);
          PreimagesMember(w, i + 1, u);
        }
      }
    }

    lemma PreimagesExact(w: WallTime)
      requires Valid()
      ensures forall u :: u in Preimages(w, 0) <==> Local(u) == w
      ensures forall a, b :: 0 <= a < b < |Preimages(w, 0)| ==> Preimages(w, 0)[a] != Preimages(w, 0)[b]
    {
      forall u ensures u in Preimages(w, 0) <==> Local(u) == w {
        PreimagesMember(w, 0, u);
      }
      PreimagesDistinct(w, 0);
    }

    // `single()` answers exactly the wall-clock times shown once.
    lemma SingleExact(w: WallTime, u: Instant)
      requires Valid()
      ensures Single(w) == Some(u) <==> Local(u) == w && forall v :: Local(v) == w ==> v == u
    {
      PreimagesExact(w);
      var p := Preimages(w, 0);
      if Local(u) == w && forall v :: Local(v) == w ==> v == u {
        assert u in p;
        if |p| > 1 {
          assert p[0] in p && p[1] in p;
        }
      }
      if |p| == 1 {
        assert p[0] in p;
      }
      if Single(w) == Some(u) {
        forall v | Local(v) == w ensures v == u {
          assert v in p;
        }
      }
    }

    lemma {:induction false} GapExceedsDrift(i: nat, j: nat)
      requires Regular() && i + 2 <= j <= |changes|
      ensures changes[j - 1].at - changes[i].at > Jump(j - 1)
      ensures changes[j - 1].at - changes[i].at > Offset(j) - Offset(i)
      ensures changes[j - 1].at - changes[i].at > Offset(i) - Offset(j)
      decreases j
    {
      assert changes[j - 1].at - changes[j - 2].at > Jump(j - 2) + Jump(j - 1);
      if j > i + 2 {
        GapExceedsDrift(i, j - 1);
      }
    }

    // If the clock shows a later time before a change than after it, it shows
    // the later one again.
    lemma ShownAgain(v: Instant, u: Instant) returns (again: Instant)
      requires Regular() && v <= u && SegmentOf(v) + 1 == SegmentOf(u) && Local(u) < Local(v)
      ensures again > v && Local(again) == Local(v)
    {
      var j := SegmentOf(u);
      var back := Offset(j - 1) - Offset(j);
      again := v + back;
      assert v < changes[j - 1].at <= u && u < again;
      if j < |changes| {
        assert changes[j].at - changes[j - 1].at > Jump(j - 1);
        assert again < changes[j].at;
      }
      SegmentUnique(j, again);
    }

    // Only a jump backwards shows an earlier time at a later instant.
    lemma ShownBackwards(v: Instant, u: Instant)
      requires Regular() && v <= u && Local(u) < Local(v)
      ensures SegmentOf(v) + 1 == SegmentOf(u)
    {
      var i, j := SegmentOf(v), SegmentOf(u);
      if j < i {
        LaterSegment(j, i, u, v);
      } else if i + 2 <= j {
        GapExceedsDrift(i, j);
      }
    }

    lemma SingleShows(w: WallTime, u: Instant)
      requires Valid() && Single(w) == Some(u)
      ensures Local(u) == w
    {
      SingleExact(w, u);
    }

    lemma ShownOnce(w: WallTime, u: Instant, v: Instant)
      requires Valid() && Single(w) == Some(u) && Local(v) == w
      ensures v == u
    {
      SingleExact(w, u);
    }

    // In a regular zone, wall-clock times shown once come in the order of
    // their instants.
    lemma OrderKept(a: WallTime, b: WallTime)
      requires Regular() && Single(a).Some? && Single(b).Some? && a < b
      ensures Single(a).value < Single(b).value
    {
      var u, v := Single(a).value, Single(b).value;
      SingleShows(a, u);
      SingleShows(b, v);
      if v <= u {
        ShownBackwards(v, u);
        var again := ShownAgain(v, u);
        ShownOnce(b, v, again);
      }
    }

    // A zone without changes keeps every date steady.
    lemma FixedIsSteady(d: Date)
      requires Valid() && changes == []
      ensures Regular() && Steady(d)
    {
      forall m ensures Single(m) == Some(m - base) {
        SingleExact(m, m - base);
      }
    }
  }
}
