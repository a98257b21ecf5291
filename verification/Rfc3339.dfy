// `to_rfc3339` for UTC instants, and the order of the strings it writes.
module Rfc3339 {
  import opened Time

  // ---------- Lexicographic order of strings ----------

  predicate Before(a: string, b: string) {
    if a == [] then b != []
    else b != [] && (a[0] < b[0] || (a[0] == b[0] && Before(a[1..], b[1..])))
  }

  lemma {:induction false} BeforeAppend(a: string, b: string, x: string, y: string)
    requires |a| == |b|
    ensures Before(a + x, b + y) <==> Before(a, b) || (a == b && Before(x, y))
  {
    if a == [] {
      assert a + x == x && b + y == y;
    } else {
      BeforeAppend(a[1..], b[1..], x, y);
      assert (a + x)[1..] == a[1..] + x && (b + y)[1..] == b[1..] + y;
      assert a == [a[0]] + a[1..] && b == [b[0]] + b[1..];
    }
  }

  lemma {:induction false} BeforeTransitive(a: string, b: string, c: string)
    requires Before(a, b) && Before(b, c)
    ensures Before(a, c)
  {
    if a != [] && a[0] == b[0] == c[0] {
      BeforeTransitive(a[1..], b[1..], c[1..]);
    }
  }

  lemma {:induction false} BeforeTotal(a: string, b: string)
    ensures (if Before(a, b) then 1 else 0) + (if a == b then 1 else 0) + (if Before(b, a) then 1 else 0) == 1
  {
    if a != [] && b != [] {
      BeforeTotal(a[1..], b[1..]);
      assert a == b <==> a[0] == b[0] && a[1..] == b[1..] by {
        assert a == [a[0]] + a[1..] && b == [b[0]] + b[1..];
      }
    }
  }

  // ---------- Decimal text ----------

  function Power10(k: nat): (p: nat)
    ensures p > 0
  {
    if k == 0 then 1 else 10 * Power10(k - 1)
  }

  function Digit(n: nat): char {
    (48 + n % 10) as char
  }

  // The last k decimal digits of n.
  function Digits(n: nat, k: nat): (s: string)
    ensures |s| == k
  {
    if k == 0 then [] else Digits(n / 10, k - 1) + [Digit(n)]
  }

  lemma {:induction false} DigitsOrder(n: nat, m: nat, k: nat)
    requires n < m < Power10(k)
    ensures Before(Digits(n, k), Digits(m, k))
  {
    assert k > 0;
    BeforeAppend(Digits(n / 10, k - 1), Digits(m / 10, k - 1), [Digit(n)], [Digit(m)]);
    if n / 10 < m / 10 {
      DigitsOrder(n / 10, m / 10, k - 1);
    }
  }

  // ---------- The proleptic Gregorian calendar ----------

  predicate Leap(y: int) {
    y % 4 == 0 && (y % 100 != 0 || y % 400 == 0)
  }

  function YearLength(y: int): nat {
    if Leap(y) then 366 else 365
  }

  function MonthLengths(leap: bool): seq<nat> {
    [31, if leap then 29 else 28, 31, 30, 31, 30, 31, 31, 30, 31, 30, 31]
  }

  function Sum(lengths: seq<nat>): nat {
    if lengths == [] then 0 else lengths[0] + Sum(lengths[1..])
  }

  lemma MonthsFillYear(leap: bool)
    ensures Sum(MonthLengths(leap)) == if leap then 366 else 365
  {
    var m := MonthLengths(leap);
    ThreeSteps(m, 0);
    ThreeSteps(m, 3);
    ThreeSteps(m, 6);
    ThreeSteps(m, 9);
    assert m[0..] == m && m[12..] == [];
  }

  lemma ThreeSteps(lengths: seq<nat>, i: nat)
    requires i + 3 <= |lengths|
    ensures Sum(lengths[i..]) == lengths[i] + lengths[i + 1] + lengths[i + 2] + Sum(lengths[i + 3..])
  {
    SumStep(lengths, i);
    SumStep(lengths, i + 1);
    SumStep(lengths, i + 2);
  }

  lemma SumStep(lengths: seq<nat>, i: nat)
    requires i < |lengths|
    ensures Sum(lengths[i..]) == lengths[i] + Sum(lengths[i + 1..])
    ensures lengths[0..] == lengths
  {
    assert lengths[i..][1..] == lengths[i + 1..];
  }

  // The year that holds day n of the years y, y + 1, ..., and the day's
  // index in it.
  function YearFrom(y: int, n: nat): (r: (int, nat))
    ensures r.0 >= y && r.1 < YearLength(r.0)
    decreases n
  {
    if n < YearLength(y) then (y, n) else YearFrom(y + 1, n - YearLength(y))
  }

  // The piece that holds position n of pieces laid end to end, and the
  // position in it.
  function Place(lengths: seq<nat>, n: nat): (r: (nat, nat))
    requires n < Sum(lengths)
    ensures r.0 < |lengths| && r.1 < lengths[r.0]
  {
    if n < lengths[0] then (0, n)
    else
      var r := Place(lengths[1..], n - lengths[0]);
      (r.0 + 1, r.1)
  }

  const EPOCH_DAY := 719_528    // 1970-01-01 counted from 0000-01-01

  // The year that holds the n-th day before year y, and the day's index in it.
  function YearBefore(y: int, n: nat): (r: (int, nat))
    requires n > 0
    ensures r.0 < y && r.1 < YearLength(r.0)
    decreases n
  {
    var length := YearLength(y - 1);
    if n <= length then (y - 1, length - n) else YearBefore(y - 1, n - length)
  }

  function YearAndDay(d: Date): (r: (int, nat))
    ensures r.1 < YearLength(r.0)
  {
    var n := d + EPOCH_DAY;
    if n >= 0 then YearFrom(0, n) else YearBefore(0, -n)
  }

  function MonthAndDay(d: Date): (r: (nat, nat))
    ensures 1 <= r.0 <= 12 && 1 <= r.1 <= 31
  {
    var (y, n) := YearAndDay(d);
    MonthsFillYear(Leap(y));
    var r := Place(MonthLengths(Leap(y)), n);
    (r.0 + 1, r.1 + 1)
  }

  // ---------- The calendar in closed form ----------

  // Days from 0000-01-01 to the first day of year y.
  function DaysBefore(y: nat): int {
    365 * y + (y + 3) / 4 - (y + 99) / 100 + (y + 399) / 400
  }

  lemma Fourth(y: nat)
    ensures (y + 4) / 4 == (y + 3) / 4 + if y % 4 == 0 then 1 else 0
  {
  }

  lemma Hundredth(y: nat)
    ensures (y + 100) / 100 == (y + 99) / 100 + if y % 100 == 0 then 1 else 0
    ensures y % 100 == 0 ==> y % 4 == 0
  {
    assert y == 4 * (25 * (y / 100)) + y % 100;
  }

  lemma FourHundredth(y: nat)
    ensures (y + 400) / 400 == (y + 399) / 400 + if y % 400 == 0 then 1 else 0
    ensures y % 400 == 0 ==> y % 100 == 0
  {
    assert y == 100 * (4 * (y / 400)) + y % 400;
  }

  lemma YearCloses(y: nat)
    ensures DaysBefore(y + 1) == DaysBefore(y) + YearLength(y)
  {
    Fourth(y);
    Hundredth(y);
    FourHundredth(y);
    var a, b, c := (y + 3) / 4, (y + 99) / 100, (y + 399) / 400;
    var p, q, r := y % 4 == 0, y % 100 == 0, y % 400 == 0;
    LeapSum(a, b, c, p, q, r);
  }

  // A leap day more for each of the fourth years, one less for each of the
  // hundredth, one more for each of the four-hundredth.
  lemma LeapSum(a: int, b: int, c: int, p: bool, q: bool, r: bool)
    requires (q ==> p) && (r ==> q)
    ensures (a + if p then 1 else 0) - (b + if q then 1 else 0) + (c + if r then 1 else 0)
            == a - b + c + if p && (!q || r) then 1 else 0
  {
  }

  lemma {:induction false} LaterYears(y: nat, z: nat)
    requires y <= z
    ensures DaysBefore(y) <= DaysBefore(z)
    decreases z - y
  {
    if y < z {
      LaterYears(y, z - 1);
      YearCloses(z - 1);
    }
  }

  lemma {:induction false} YearFromDays(y: nat, z: nat, k: nat)
    requires y <= z && k < YearLength(z)
    ensures DaysBefore(z) >= DaysBefore(y) && YearFrom(y, DaysBefore(z) - DaysBefore(y) + k) == (z, k)
    decreases z - y
  {
    LaterYears(y, z);
    if y < z {
      YearCloses(y);
      LaterYears(y + 1, z);
      YearFromDays(y + 1, z, k);
    }
  }

  // Walking the years one by one finds the day the closed form names; day 0
  // is 1970-01-01.
  lemma CalendarClosedForm(y: nat, k: nat)
    requires k < YearLength(y)
    ensures YearAndDay(DaysBefore(y) + k - EPOCH_DAY) == (y, k)
    ensures EPOCH_DAY == DaysBefore(1970)
  {
    LaterYears(0, y);
    YearFromDays(0, y, k);
  }

  // ---------- Text of an instant ----------

  function Decimal(n: nat): string {
    if n < 10 then [Digit(n)] else Decimal(n / 10) + [Digit(n)]
  }

  // The digits of a year outside 0000 to 9999.
  function Magnitude(n: nat): string {
    if n <= 9999 then Digits(n, 4) else Decimal(n)
  }

  // Four digits in the years RFC 3339 covers, a sign and at least four digits
  // outside of them.
  function YearText(y: int): string {
    if 0 <= y <= 9999 then Digits(y, 4)
    else
      var n := if y < 0 then -y else y;
      (if y < 0 then "-" else "+") + Magnitude(n)
  }

  function DateText(d: Date): string {
    var (m, n) := MonthAndDay(d);
    YearText(YearAndDay(d).0) + ("-" + (Digits(m, 2) + ("-" + Digits(n, 2))))
  }

  function ClockText(second: nat): (s: string)
    ensures |s| == 8
  {
    Digits(second / 3600, 2) + (":" + (Digits(second / 60 % 60, 2) + (":" + Digits(second % 60, 2))))
  }

  // No fraction, or milliseconds, microseconds or nanoseconds.
  function FractionText(nanos: nat): string {
    if nanos == 0 then ""
    else if nanos % 1_000_000 == 0 then "." + Digits(nanos / 1_000_000, 3)
    else if nanos % 1_000 == 0 then "." + Digits(nanos / 1_000, 6)
    else "." + Digits(nanos, 9)
  }

  function ToRfc3339(t: Instant): string {
    var day := TimeOfDay(t);
    DateText(DateOf(t)) + ("T" + (ClockText(day / SECOND) + (FractionText(day % SECOND) + "+00:00")))
  }

  // ---------- Order ----------

  // The years 0000 to 9999.
  predicate InRfc3339Years(t: Instant) {
    0 <= DateOf(t) + EPOCH_DAY && YearAndDay(DateOf(t)).0 <= 9999
  }

  lemma {:induction false} YearOrder(y: int, n: nat, m: nat)
    requires n < m
    ensures var a, b := YearFrom(y, n), YearFrom(y, m); a.0 < b.0 || (a.0 == b.0 && a.1 < b.1)
    decreases n
  {
    if n >= YearLength(y) {
      YearOrder(y + 1, n - YearLength(y), m - YearLength(y));
    }
  }

  lemma {:induction false} PlaceOrder(lengths: seq<nat>, a: nat, b: nat)
    requires a < b < Sum(lengths)
    ensures var r, s := Place(lengths, a), Place(lengths, b); r.0 < s.0 || (r.0 == s.0 && r.1 < s.1)
  {
    if a >= lengths[0] {
      PlaceOrder(lengths[1..], a - lengths[0], b - lengths[0]);
    }
  }

  // Three fields joined by a separator compare field by field.
  lemma FieldsOrder(a: (nat, nat, nat), b: (nat, nat, nat), k: nat, sep: string)
    requires a.0 < Power10(k) && b.0 < Power10(k) && a.1 < 100 && b.1 < 100 && a.2 < 100 && b.2 < 100
    requires a.0 < b.0 || (a.0 == b.0 && (a.1 < b.1 || (a.1 == b.1 && a.2 < b.2)))
    ensures Before(Digits(a.0, k) + (sep + (Digits(a.1, 2) + (sep + Digits(a.2, 2)))),
                   Digits(b.0, k) + (sep + (Digits(b.1, 2) + (sep + Digits(b.2, 2)))))
  {
    assert Power10(2) == 100;
    var a2, b2 := Digits(a.2, 2), Digits(b.2, 2);
    var a1, b1 := Digits(a.1, 2) + (sep + a2), Digits(b.1, 2) + (sep + b2);
    BeforeAppend(Digits(a.0, k), Digits(b.0, k), sep + a1, sep + b1);
    BeforeAppend(sep, sep, a1, b1);
    BeforeAppend(Digits(a.1, 2), Digits(b.1, 2), sep + a2, sep + b2);
    BeforeAppend(sep, sep, a2, b2);
    if a.0 < b.0 {
      DigitsOrder(a.0, b.0, k);
    } else if a.1 < b.1 {
      DigitsOrder(a.1, b.1, 2);
    } else {
      DigitsOrder(a.2, b.2, 2);
    }
  }

  lemma DateFieldsOrder(d: Date, e: Date)
    requires 0 <= d + EPOCH_DAY && d < e
    ensures var (y, z) := (YearAndDay(d).0, YearAndDay(e).0);
            var (f, h) := (MonthAndDay(d), MonthAndDay(e));
            0 <= y && (y < z || (y == z && (f.0 < h.0 || (f.0 == h.0 && f.1 < h.1))))
  {
    var (y, n) := YearAndDay(d);
    var (z, m) := YearAndDay(e);
    YearOrder(0, d + EPOCH_DAY, e + EPOCH_DAY);
    if y == z {
      MonthsFillYear(Leap(y));
      PlaceOrder(MonthLengths(Leap(y)), n, m);
    }
  }

  lemma DateOrder(d: Date, e: Date)
    requires 0 <= d + EPOCH_DAY && d < e && YearAndDay(e).0 <= 9999
    ensures Before(DateText(d), DateText(e)) && |DateText(d)| == |DateText(e)| == 10
  {
    DateFieldsOrder(d, e);
    var (f, g) := MonthAndDay(d);
    var (h, i) := MonthAndDay(e);
    assert Power10(4) == 10_000 by { assert Power10(2) == 100; }
    FieldsOrder((YearAndDay(d).0, f, g), (YearAndDay(e).0, h, i), 4, "-");
  }

  lemma ClockFields(s: nat)
    ensures s == 3600 * (s / 3600) + 60 * (s / 60 % 60) + s % 60
  {
    assert s / 60 / 60 == s / 3600;
  }

  lemma ClockOrder(s: nat, t: nat)
    requires s < t < 86_400
    ensures Before(ClockText(s), ClockText(t))
  {
    assert Power10(2) == 100;
    ClockFields(s);
    ClockFields(t);
    FieldsOrder((s / 3600, s / 60 % 60, s % 60), (t / 3600, t / 60 % 60, t % 60), 2, ":");
  }

  // n without its last j decimal digits.
  function Shift(n: nat, j: nat): nat {
    if j == 0 then n else Shift(n / 10, j - 1)
  }

  lemma ShiftThrees(n: nat)
    ensures Shift(n, 3) == n / 1_000
    ensures Shift(n, 6) == n / 1_000_000
  {
    ShiftThree(n, 0);
    ShiftThree(n, 3);
    ShiftThree(n / 1_000, 0);
  }

  lemma ShiftThree(n: nat, j: nat)
    ensures Shift(n, j + 3) == Shift(n / 1_000, j)
  {
    var m := n / 10 / 10;
    assert Shift(m, j + 1) == Shift(m / 10, j);
    assert Shift(n, j + 3) == Shift(n / 10, j + 2) == Shift(m, j + 1);
    assert m / 10 == n / 1_000;
  }

  lemma {:induction false} DigitsPrefix(n: nat, k: nat, j: nat)
    ensures Digits(n, k + j) == Digits(Shift(n, j), k) + Digits(n, j)
  {
    if j == 0 {
      assert Digits(n, k) + [] == Digits(n, k);
    } else {
      DigitsPrefix(n / 10, k, j - 1);
      assert Digits(n, k + j) == Digits(n / 10, k + j - 1) + [Digit(n)];
    }
  }

  // The number of fraction digits written, and the number they spell.
  function Kept(n: nat): nat {
    if n % 1_000_000 == 0 then 3 else if n % 1_000 == 0 then 6 else 9
  }

  function Spelled(n: nat): nat {
    if n % 1_000_000 == 0 then n / 1_000_000 else if n % 1_000 == 0 then n / 1_000 else n
  }

  lemma Powers()
    ensures Power10(3) == 1_000 && Power10(6) == 1_000_000 && Power10(9) == 1_000_000_000
  {
    assert Power10(2) == 100;
    assert Power10(4) == 10_000;
    assert Power10(5) == 100_000;
    assert Power10(7) == 10_000_000;
    assert Power10(8) == 100_000_000;
  }

  // A fraction with trailing digits cut off still compares by value, because
  // the sign of the offset sorts below every digit.
  lemma FractionOrder(a: nat, b: nat)
    requires a < b < SECOND
    ensures Before(FractionText(a) + "+00:00", FractionText(b) + "+00:00")
  {
    var z := "+00:00";
    if a > 0 {
      var x, y := Digits(Spelled(a), Kept(a)), Digits(Spelled(b), Kept(b));
      assert FractionText(a) + z == "." + (x + z);
      assert FractionText(b) + z == "." + (y + z);
      BeforeAppend(".", ".", x + z, y + z);
      SpelledOrder(a, b);
    } else {
      assert (FractionText(b) + z)[0] == '.';
    }
  }

  lemma SpelledOrder(a: nat, b: nat)
    requires a < b < SECOND
    ensures Before(Digits(Spelled(a), Kept(a)) + "+00:00", Digits(Spelled(b), Kept(b)) + "+00:00")
  {
    var z := "+00:00";
    var i, j, x, y := Kept(a), Kept(b), Spelled(a), Spelled(b);
    Powers();
    if i == j {
      DigitsOrder(x, y, i);
      BeforeAppend(Digits(x, i), Digits(y, j), z, z);
    } else if i < j {
      ShiftThrees(y);
      CutSpelling(x, i, y, j - i);
    } else {
      ShiftThrees(x);
      CutSpelled(x, i - j, y, j);
    }
  }

  lemma CutSpelling(x: nat, k: nat, y: nat, more: nat)
    requires more > 0 && x <= Shift(y, more) < Power10(k)
    ensures Before(Digits(x, k) + "+00:00", Digits(y, k + more) + "+00:00")
  {
    var z, cut := "+00:00", Shift(y, more);
    var head, tail := Digits(cut, k), Digits(y, more);
    DigitsPrefix(y, k, more);
    assert Digits(y, k + more) + z == head + (tail + z);
    BeforeAppend(Digits(x, k), head, z, tail + z);
    if x < cut {
      DigitsOrder(x, cut, k);
    } else {
      StartsWithDigit(y, more);
      assert z[0] < (tail + z)[0];
    }
  }

  lemma CutSpelled(x: nat, more: nat, y: nat, k: nat)
    requires Shift(x, more) < y < Power10(k)
    ensures Before(Digits(x, k + more) + "+00:00", Digits(y, k) + "+00:00")
  {
    var z, cut := "+00:00", Shift(x, more);
    var head, tail := Digits(cut, k), Digits(x, more);
    DigitsPrefix(x, k, more);
    assert Digits(x, k + more) + z == head + (tail + z);
    BeforeAppend(head, Digits(y, k), tail + z, z);
    DigitsOrder(cut, y, k);
  }

  lemma {:induction false} StartsWithDigit(n: nat, k: nat)
    requires k > 0
    ensures '0' <= Digits(n, k)[0] <= '9'
  {
    if k > 1 {
      StartsWithDigit(n / 10, k - 1);
    }
  }

  // String order is time order in the years RFC 3339 covers.
  lemma StringOrderIsTimeOrder(t: Instant, u: Instant)
    requires InRfc3339Years(t) && InRfc3339Years(u)
    ensures t < u <==> Before(ToRfc3339(t), ToRfc3339(u))
    ensures t == u <==> ToRfc3339(t) == ToRfc3339(u)
  {
    if t < u {
      EarlierSortsFirst(t, u);
    } else if u < t {
      EarlierSortsFirst(u, t);
    }
    BeforeTotal(ToRfc3339(t), ToRfc3339(u));
  }

  // Date, clock and fraction compare in this order.
  lemma JoinOrder(d: string, e: string, c: string, h: string, f: string, g: string)
    requires |d| == |e| && |c| == |h|
    requires Before(d, e) || (d == e && (Before(c, h) || (c == h && Before(f, g))))
    ensures Before(d + ("T" + (c + f)), e + ("T" + (h + g)))
  {
    BeforeAppend(c, h, f, g);
    BeforeAppend("T", "T", c + f, h + g);
    BeforeAppend(d, e, "T" + (c + f), "T" + (h + g));
  }

  lemma InstantFields(t: Instant, u: Instant)
    requires t < u
    ensures var (x, y) := (TimeOfDay(t), TimeOfDay(u));
            && 0 <= x / SECOND < 86_400 && 0 <= y / SECOND < 86_400
            && (DateOf(t) < DateOf(u)
                || (DateOf(t) == DateOf(u)
                    && (x / SECOND < y / SECOND || (x / SECOND == y / SECOND && x % SECOND < y % SECOND))))
  {
    var x, y := TimeOfDay(t), TimeOfDay(u);
    assert t == DAY * DateOf(t) + x && u == DAY * DateOf(u) + y;
    if DateOf(t) == DateOf(u) {
      assert x < y;
    }
  }

  lemma EarlierSortsFirst(t: Instant, u: Instant)
    requires InRfc3339Years(t) && InRfc3339Years(u) && t < u
    ensures Before(ToRfc3339(t), ToRfc3339(u))
  {
    InstantFields(t, u);
    FieldsSortFirst(DateOf(t), DateOf(u), TimeOfDay(t) / SECOND, TimeOfDay(u) / SECOND,
                    TimeOfDay(t) % SECOND, TimeOfDay(u) % SECOND);
  }

  lemma FieldsSortFirst(d: Date, e: Date, c: nat, h: nat, f: nat, g: nat)
    requires 0 <= d + EPOCH_DAY && 0 <= e + EPOCH_DAY && YearAndDay(e).0 <= 9999
    requires c < 86_400 && h < 86_400 && f < SECOND && g < SECOND
    requires d < e || (d == e && (c < h || (c == h && f < g)))
    ensures Before(DateText(d) + ("T" + (ClockText(c) + (FractionText(f) + "+00:00"))),
                   DateText(e) + ("T" + (ClockText(h) + (FractionText(g) + "+00:00"))))
  {
    if d < e {
      DateOrder(d, e);
    } else if c < h {
      ClockOrder(c, h);
    } else {
      FractionOrder(f, g);
    }
    JoinOrder(DateText(d), DateText(e), ClockText(c), ClockText(h), FractionText(f) + "+00:00",
      FractionText(g) + "+00:00");
  }

  // ---------- Equality, in every year ----------

  lemma NotBeforeItself(s: string)
    ensures !Before(s, s)
  {
    BeforeTotal(s, s);
  }

  lemma DigitsInjective(n: nat, m: nat, k: nat)
    requires n < Power10(k) && m < Power10(k) && Digits(n, k) == Digits(m, k)
    ensures n == m
  {
    NotBeforeItself(Digits(n, k));
    if n < m {
      DigitsOrder(n, m, k);
    } else if m < n {
      DigitsOrder(m, n, k);
    }
  }

  lemma {:induction false} DecimalInjective(n: nat, m: nat)
    requires Decimal(n) == Decimal(m)
    ensures n == m
  {
    assert |Decimal(n / 10)| > 0 && |Decimal(m / 10)| > 0;
    var s, i := Decimal(n), |Decimal(n)| - 1;
    assert s[i] == Digit(n) == Digit(m);
    if n >= 10 && m >= 10 {
      assert s[..i] == Decimal(n / 10) == Decimal(m / 10);
      DecimalInjective(n / 10, m / 10);
    }
  }

  lemma DecimalLong(n: nat)
    requires n > 9999
    ensures |Decimal(n)| > 4
  {
    assert Decimal(n / 10 / 10 / 10) == Decimal(n / 10 / 10 / 10 / 10) + [Digit(n / 10 / 10 / 10)];
    assert Decimal(n / 10 / 10) == Decimal(n / 10 / 10 / 10) + [Digit(n / 10 / 10)];
    assert Decimal(n / 10) == Decimal(n / 10 / 10) + [Digit(n / 10)];
  }

  lemma MagnitudeInjective(n: nat, m: nat)
    requires Magnitude(n) == Magnitude(m)
    ensures n == m
  {
    assert Power10(4) == 10_000 by { assert Power10(2) == 100; }
    if n > 9999 && m > 9999 {
      DecimalInjective(n, m);
    } else if n > 9999 {
      DecimalLong(n);
    } else if m > 9999 {
      DecimalLong(m);
    } else {
      DigitsInjective(n, m, 4);
    }
  }

  lemma YearTextInjective(y: int, z: int)
    requires YearText(y) == YearText(z)
    ensures y == z
  {
    var n, m := if y < 0 then -y else y, if z < 0 then -z else z;
    if 0 <= y <= 9999 {
      StartsWithDigit(y, 4);
    }
    if 0 <= z <= 9999 {
      StartsWithDigit(z, 4);
    }
    if (0 <= y <= 9999) == (0 <= z <= 9999) {
      assert !(0 <= y <= 9999) ==> YearText(y)[1..] == Magnitude(n) && YearText(z)[1..] == Magnitude(m);
      MagnitudeInjective(n, m);
    }
  }

  lemma {:induction false} YearBeforeOrder(y: int, n: nat, m: nat)
    requires 0 < n < m
    ensures var a, b := YearBefore(y, n), YearBefore(y, m); b.0 < a.0 || (a.0 == b.0 && b.1 < a.1)
    decreases n
  {
    if n > YearLength(y - 1) {
      YearBeforeOrder(y - 1, n - YearLength(y - 1), m - YearLength(y - 1));
    }
  }

  lemma YearAndDayOrder(d: Date, e: Date)
    requires d < e
    ensures YearAndDay(d) != YearAndDay(e)
  {
    var n, m := d + EPOCH_DAY, e + EPOCH_DAY;
    if n >= 0 {
      YearOrder(0, n, m);
    } else if m < 0 {
      YearBeforeOrder(0, -m, -n);
    }
  }

  lemma DateFieldsDiffer(d: Date, e: Date)
    requires d < e && YearAndDay(d).0 == YearAndDay(e).0
    ensures MonthAndDay(d) != MonthAndDay(e)
  {
    YearAndDayOrder(d, e);
    var (y, n) := YearAndDay(d);
    var m := YearAndDay(e).1;
    MonthsFillYear(Leap(y));
    if n < m {
      PlaceOrder(MonthLengths(Leap(y)), n, m);
    } else {
      PlaceOrder(MonthLengths(Leap(y)), m, n);
    }
  }

  lemma SplitEqual(a: string, b: string, x: string, y: string)
    requires a + x == b + y && (|a| == |b| || |x| == |y|)
    ensures a == b && x == y
  {
    assert |a| + |x| == |b| + |y|;
    assert (a + x)[..|a|] == a && (b + y)[..|b|] == b;
    assert (a + x)[|a|..] == x && (b + y)[|b|..] == y;
  }

  function MonthText(m: nat, n: nat): (s: string)
    ensures |s| == 6
  {
    "-" + (Digits(m, 2) + ("-" + Digits(n, 2)))
  }

  lemma MonthTextInjective(m: nat, n: nat, j: nat, k: nat)
    requires m < 100 && n < 100 && j < 100 && k < 100 && MonthText(m, n) == MonthText(j, k)
    ensures m == j && n == k
  {
    assert Power10(2) == 100;
    var s := MonthText(m, n);
    assert s[1..3] == Digits(m, 2) == Digits(j, 2) && s[4..] == Digits(n, 2) == Digits(k, 2);
    DigitsInjective(m, j, 2);
    DigitsInjective(n, k, 2);
  }

  lemma DateTextInjective(d: Date, e: Date)
    requires DateText(d) == DateText(e)
    ensures d == e
  {
    var (m, n) := MonthAndDay(d);
    var (j, k) := MonthAndDay(e);
    SplitEqual(YearText(YearAndDay(d).0), YearText(YearAndDay(e).0), MonthText(m, n), MonthText(j, k));
    YearTextInjective(YearAndDay(d).0, YearAndDay(e).0);
    MonthTextInjective(m, n, j, k);
    if d < e {
      DateFieldsDiffer(d, e);
    } else if e < d {
      DateFieldsDiffer(e, d);
    }
  }

  lemma {:induction false} NoLetterInDigits(n: nat, k: nat)
    ensures 'T' !in Digits(n, k)
  {
    if k > 0 {
      NoLetterInDigits(n / 10, k - 1);
    }
  }

  lemma {:induction false} NoLetterInDecimal(n: nat)
    ensures 'T' !in Decimal(n)
  {
    if n >= 10 {
      NoLetterInDecimal(n / 10);
    }
  }

  lemma NoLetterInDate(d: Date)
    ensures 'T' !in DateText(d)
  {
    var (m, n) := MonthAndDay(d);
    NoLetterInYear(YearAndDay(d).0);
    NoLetterInDigits(m, 2);
    NoLetterInDigits(n, 2);
  }

  lemma NoLetterInYear(y: int)
    ensures 'T' !in YearText(y)
  {
    var n := if y < 0 then -y else y;
    NoLetterInDigits(n, 4);
    NoLetterInDecimal(n);
  }

  lemma SplitAtLetter(a: string, b: string, x: string, y: string)
    requires a + ("T" + x) == b + ("T" + y) && 'T' !in a && 'T' !in b
    ensures a == b && x == y
  {
    var s, t := a + ("T" + x), b + ("T" + y);
    assert s[|a|] == 'T' && t[|b|] == 'T';
    SplitEqual(a, b, "T" + x, "T" + y);
    assert ("T" + x)[1..] == x && ("T" + y)[1..] == y;
  }

  lemma TimeTextInjective(c: nat, f: nat, h: nat, g: nat)
    requires c < 86_400 && h < 86_400 && f < SECOND && g < SECOND
    requires ClockText(c) + (FractionText(f) + "+00:00") == ClockText(h) + (FractionText(g) + "+00:00")
    ensures c == h && f == g
  {
    SplitEqual(ClockText(c), ClockText(h), FractionText(f) + "+00:00", FractionText(g) + "+00:00");
    NotBeforeItself(ClockText(c));
    NotBeforeItself(FractionText(f) + "+00:00");
    if c != h {
      ClockOrder(if c < h then c else h, if c < h then h else c);
    }
    if f != g {
      FractionOrder(if f < g then f else g, if f < g then g else f);
    }
  }

  lemma FieldsInjective(d: Date, e: Date, c: nat, h: nat, f: nat, g: nat)
    requires c < 86_400 && h < 86_400 && f < SECOND && g < SECOND
    requires DateText(d) + ("T" + (ClockText(c) + (FractionText(f) + "+00:00")))
          == DateText(e) + ("T" + (ClockText(h) + (FractionText(g) + "+00:00")))
    ensures d == e && c == h && f == g
  {
    NoLetterInDate(d);
    NoLetterInDate(e);
    SplitAtLetter(DateText(d), DateText(e), ClockText(c) + (FractionText(f) + "+00:00"),
                  ClockText(h) + (FractionText(g) + "+00:00"));
    DateTextInjective(d, e);
    TimeTextInjective(c, f, h, g);
  }

  // Equal strings mean equal instants, in every year.
  lemma TextIdentifies(t: Instant, u: Instant)
    requires ToRfc3339(t) == ToRfc3339(u)
    ensures t == u
  {
    var x, y := TimeOfDay(t), TimeOfDay(u);
    FieldsInjective(DateOf(t), DateOf(u), x / SECOND, y / SECOND, x % SECOND, y % SECOND);
    SameFields(t, u);
  }

  lemma SameFields(t: Instant, u: Instant)
    requires DateOf(t) == DateOf(u) && TimeOfDay(t) / SECOND == TimeOfDay(u) / SECOND
    requires TimeOfDay(t) % SECOND == TimeOfDay(u) % SECOND
    ensures t == u
  {
  }
}
