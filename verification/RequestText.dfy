// The `time` field of a request as text: RFC 3339 timestamps are read back by
// the grammar of section 5.6 of RFC 3339.
module RequestText {
  import opened Results
  import opened Time
  import opened Rfc3339
  import opened Models
  import opened Availability
  import opened SlotTheory
  import opened Store
  import opened Handlers

  // ---------- Decimal fields ----------

  predicate IsDigit(c: char) {
    '0' <= c <= '9'
  }

  // The number a string of digits spells.
  function Value(s: string): Option<nat> {
    if s == [] then Some(0)
    else
      var head, last := Value(s[..|s| - 1]), s[|s| - 1];
      if head.Some? && IsDigit(last) then Some(10 * head.value + (last as int - 48)) else None
  }

  lemma {:induction false} DigitsSpell(n: nat, k: nat)
    requires n < Power10(k)
    ensures Value(Digits(n, k)) == Some(n)
  {
    if k > 0 {
      DigitsSpell(n / 10, k - 1);
      var s := Digits(n, k);
      assert s[..k - 1] == Digits(n / 10, k - 1) && s[k - 1] == Digit(n);
    }
  }

  // How many digits a string starts with.
  function DigitRun(s: string): (n: nat)
    ensures n <= |s|
  {
    if s != [] && IsDigit(s[0]) then 1 + DigitRun(s[1..]) else 0
  }

  lemma {:induction false} RunOfDigits(s: string, rest: string)
    requires (forall c :: c in s ==> IsDigit(c)) && rest != [] && !IsDigit(rest[0])
    ensures DigitRun(s + rest) == |s|
  {
    if s == [] {
      assert s + rest == rest;
    } else {
      RunOfDigits(s[1..], rest);
      assert (s + rest)[1..] == s[1..] + rest;
    }
  }

  lemma {:induction false} AllDigits(n: nat, k: nat)
    ensures forall c :: c in Digits(n, k) ==> IsDigit(c)
  {
    if k > 0 {
      AllDigits(n / 10, k - 1);
    }
  }

  // ---------- Dates ----------

  // The date with these calendar fields, if there is one.
  function DateFrom(y: nat, m: nat, n: nat): Option<Date> {
    var lengths := MonthLengths(Leap(y));
    if 1 <= m <= 12 && 1 <= n <= lengths[m - 1]
    then Some(DaysBefore(y) + Sum(lengths[..m - 1]) + n - 1 - EPOCH_DAY)
    else None
  }

  lemma {:induction false} YearFromInverse(y: nat, n: nat)
    ensures var r := YearFrom(y, n); DaysBefore(r.0) + r.1 == DaysBefore(y) + n
    decreases n
  {
    if n >= YearLength(y) {
      YearCloses(y);
      YearFromInverse(y + 1, n - YearLength(y));
    }
  }

  lemma {:induction false} PlaceInverse(lengths: seq<nat>, n: nat)
    requires n < Sum(lengths)
    ensures var r := Place(lengths, n); Sum(lengths[..r.0]) + r.1 == n
  {
    if n >= lengths[0] {
      PlaceInverse(lengths[1..], n - lengths[0]);
      var i := Place(lengths[1..], n - lengths[0]).0;
      assert lengths[..i + 1] == [lengths[0]] + lengths[1..][..i];
      assert lengths[..i + 1][1..] == lengths[1..][..i];
    }
  }

  lemma YearAndDayInverse(d: Date)
    requires 0 <= d + EPOCH_DAY
    ensures YearAndDay(d).0 >= 0 && DaysBefore(YearAndDay(d).0) + YearAndDay(d).1 - EPOCH_DAY == d
  {
    YearFromInverse(0, d + EPOCH_DAY);
  }

  lemma MonthInverse(y: nat, k: nat, r: (nat, nat))
    requires k < Sum(MonthLengths(Leap(y))) && r == Place(MonthLengths(Leap(y)), k)
    ensures DateFrom(y, r.0 + 1, r.1 + 1) == Some(DaysBefore(y) + k - EPOCH_DAY)
  {
    PlaceInverse(MonthLengths(Leap(y)), k);
  }

  // The calendar fields of a date name that date.
  lemma DateOfFields(d: Date)
    requires 0 <= d + EPOCH_DAY
    ensures YearAndDay(d).0 >= 0
    ensures DateFrom(YearAndDay(d).0, MonthAndDay(d).0, MonthAndDay(d).1) == Some(d)
  {
    var (y, k) := YearAndDay(d);
    YearAndDayInverse(d);
    MonthsFillYear(Leap(y));
    var r := Place(MonthLengths(Leap(y)), k);
    MonthInverse(y, k, r);
    assert MonthAndDay(d) == (r.0 + 1, r.1 + 1);
  }

  // ---------- Fields of a timestamp ----------

  function ParseDate(s: string): Option<Date>
    requires |s| == 10
  {
    var y, m, n := Value(s[..4]), Value(s[5..7]), Value(s[8..]);
    if y.Some? && m.Some? && n.Some? && s[4] == s[7] == '-' then DateFrom(y.value, m.value, n.value) else None
  }

  // Seconds into the day.
  function ParseClock(s: string): Option<nat>
    requires |s| == 8
  {
    var h, m, n := Value(s[..2]), Value(s[3..5]), Value(s[6..]);
    if && h.Some? && m.Some? && n.Some? && s[2] == s[5] == ':'
       && h.value < 24 && m.value < 60 && n.value < 60
    then Some(3600 * h.value + 60 * m.value + n.value)
    else None
  }

  // Nanoseconds; digits past the ninth are dropped.
  function ParseFraction(digits: string): Option<nat> {
    var k := Min(|digits|, 9);
    var v := Value(digits[..k]);
    if digits != [] && v.Some? then Some(v.value * Power10(9 - k)) else None
  }

  // Seconds ahead of UTC.
  function ParseOffset(s: string): Option<int> {
    if s == "Z" then Some(0)
    else if |s| != 6 then None
    else
      var h, m := Value(s[1..3]), Value(s[4..]);
      if && (s[0] == '+' || s[0] == '-') && s[3] == ':'
         && h.Some? && m.Some? && h.value < 24 && m.value < 60
      then Some((if s[0] == '-' then -1 else 1) * (3600 * h.value + 60 * m.value))
      else None
  }

  // The fraction and what follows it.
  function SplitFraction(s: string): (string, string) {
    if s != [] && s[0] == '.' then
      var n := DigitRun(s[1..]);
      (s[1..n + 1], s[n + 1..])
    else ("0", s)
  }

  function ParseRfc3339(s: string): Option<Instant> {
    if |s| < 19 || s[10] != 'T' then None
    else
      var (digits, zone) := SplitFraction(s[19..]);
      var d, c, f, o := ParseDate(s[..10]), ParseClock(s[11..19]), ParseFraction(digits), ParseOffset(zone);
      if d.Some? && c.Some? && f.Some? && o.Some?
      then Some(Midnight(d.value) + Seconds(c.value) + f.value - Seconds(o.value))
      else None
  }

  // A `T` tells a timestamp from a time of day; `clock` reads the latter.
  function TimeOfText(text: string, clock: string -> Option<ClockMinute>): RequestedTime {
    if 'T' in text then
      match ParseRfc3339(text)
      case Some(t) => Iso(t)
      case None => Malformed
    else
      match clock(text)
      case Some(m) => Clock(m)
      case None => Malformed
  }

  // ---------- Reading back what was written ----------

  lemma DateReadsBack(d: Date)
    requires 0 <= d + EPOCH_DAY && YearAndDay(d).0 <= 9999
    ensures |DateText(d)| == 10 && ParseDate(DateText(d)) == Some(d)
  {
    DateOfFields(d);
    var (m, n) := MonthAndDay(d);
    var y, s := YearAndDay(d).0, DateText(d);
    assert Power10(2) == 100 && Power10(4) == 10_000;
    DigitsSpell(y, 4);
    DigitsSpell(m, 2);
    DigitsSpell(n, 2);
    assert s[..4] == Digits(y, 4) && s[5..7] == Digits(m, 2) && s[8..] == Digits(n, 2);
  }

  lemma ClockReadsBack(c: nat)
    requires c < 86_400
    ensures ParseClock(ClockText(c)) == Some(c)
  {
    ClockFields(c);
    var h, m, n, s := c / 3600, c / 60 % 60, c % 60, ClockText(c);
    assert Power10(2) == 100;
    DigitsSpell(h, 2);
    DigitsSpell(m, 2);
    DigitsSpell(n, 2);
    assert s[..2] == Digits(h, 2) && s[3..5] == Digits(m, 2) && s[6..] == Digits(n, 2);
  }

  lemma DigitsSplit(x: string, zone: string)
    requires (forall c :: c in x ==> IsDigit(c)) && zone != [] && !IsDigit(zone[0])
    ensures SplitFraction("." + (x + zone)) == (x, zone)
  {
    var s := "." + (x + zone);
    assert s[1..] == x + zone;
    RunOfDigits(x, zone);
    assert s[1..|x| + 1] == x && s[|x| + 1..] == zone;
  }

  lemma DigitsFraction(n: nat, k: nat)
    requires 0 < k <= 9 && n < Power10(k)
    ensures ParseFraction(Digits(n, k)) == Some(n * Power10(9 - k))
  {
    DigitsSpell(n, k);
    assert Digits(n, k)[..k] == Digits(n, k);
  }

  lemma FractionReadsBack(f: nat)
    requires f < SECOND
    ensures SplitFraction(FractionText(f) + "+00:00").1 == "+00:00"
    ensures ParseFraction(SplitFraction(FractionText(f) + "+00:00").0) == Some(f)
  {
    if f == 0 {
      assert FractionText(f) + "+00:00" == "+00:00";
      NoFraction();
    } else {
      var k, n := Kept(f), Spelled(f);
      SpelledFraction(f);
      AllDigits(n, k);
      DigitsSplit(Digits(n, k), "+00:00");
      DigitsFraction(n, k);
    }
  }

  lemma SpelledFraction(f: nat)
    requires 0 < f < SECOND
    ensures 0 < Kept(f) <= 9 && Spelled(f) < Power10(Kept(f)) && Spelled(f) * Power10(9 - Kept(f)) == f
    ensures FractionText(f) + "+00:00" == "." + (Digits(Spelled(f), Kept(f)) + "+00:00")
  {
    Powers();
  }

  lemma NoFraction()
    ensures ParseFraction("0") == Some(0)
  {
    assert "0"[..1] == "0" && "0"[..0] == "";
  }

  lemma OffsetReadsBack()
    ensures ParseOffset("+00:00") == Some(0)
  {
    var z := "+00:00";
    assert z[1..3] == "00" && z[4..] == "00";
    assert "00"[..1] == "0" && "0"[..0] == "";
  }

  lemma FieldsRead(date: string, clock: string, rest: string, d: Date, c: nat, f: nat, t: Instant)
    requires |date| == 10 && ParseDate(date) == Some(d)
    requires |clock| == 8 && ParseClock(clock) == Some(c)
    requires ParseFraction(SplitFraction(rest).0) == Some(f) && ParseOffset(SplitFraction(rest).1) == Some(0)
    requires t == Midnight(d) + Seconds(c) + f
    ensures ParseRfc3339(date + ("T" + (clock + rest))) == Some(t)
  {
    var s := date + ("T" + (clock + rest));
    assert s[..10] == date && s[11..19] == clock && s[19..] == rest;
  }

  lemma InstantSplit(t: Instant)
    ensures 0 <= TimeOfDay(t) / SECOND < 86_400 && 0 <= TimeOfDay(t) % SECOND < SECOND
    ensures t == Midnight(DateOf(t)) + Seconds(TimeOfDay(t) / SECOND) + TimeOfDay(t) % SECOND
  {
  }

  lemma TextReadsBack(s: string, d: Date, c: nat, f: nat, t: Instant)
    requires 0 <= d + EPOCH_DAY && YearAndDay(d).0 <= 9999 && c < 86_400 && f < SECOND
    requires s == DateText(d) + ("T" + (ClockText(c) + (FractionText(f) + "+00:00")))
    requires t == Midnight(d) + Seconds(c) + f
    ensures ParseRfc3339(s) == Some(t)
  {
    DateReadsBack(d);
    ClockReadsBack(c);
    FractionReadsBack(f);
    OffsetReadsBack();
    FieldsRead(DateText(d), ClockText(c), FractionText(f) + "+00:00", d, c, f, t);
  }

  // The text of an instant in the years RFC 3339 covers reads as that instant.
  lemma ReadsBack(t: Instant)
    requires InRfc3339Years(t)
    ensures ParseRfc3339(ToRfc3339(t)) == Some(t)
  {
    InstantSplit(t);
    TextReadsBack(ToRfc3339(t), DateOf(t), TimeOfDay(t) / SECOND, TimeOfDay(t) % SECOND, t);
  }

  // A listed text, sent back as it is, books the slot it was written for.
  lemma OfferedTextIsAccepted(offer: SlotQuery, q: SlotQuery, db: Db, list: seq<string>, i: nat, req: CreateRequest,
      text: string, clock: string -> Option<ClockMinute>)
    returns (t: Instant)
    requires db.Valid() && Reads(offer, db) && IsSlotList(offer, list) && i < |list| && text == list[i]
    requires offer.event.schedule == Recurring && offer.event.access == AccessMode.Open && Served(offer.date)
    requires offer.event.noticeGeneral >= 0 && offer.event.noticeFirst >= 0
    requires MayRead(q, db, offer.event, offer.date, offer.now)
    requires req.date == Some(q.date) && req.time == TimeOfText(text, clock)
    ensures offer.IsSlot(t) && ToRfc3339(t) == text
    ensures var r := CreateBooking(db, q, req);
            && r.Ok?
            && r.value.1.start == t && r.value.1.end == t + Minutes(q.event.duration)
            && r.value.0.bookings == db.bookings[db.nextId := r.value.1]
  {
    assert text in list;
    t :| offer.IsSlot(t) && text == ToRfc3339(t);
    SlotIsServed(offer, t);
    ReadsBack(t);
    OfferedIsAccepted(offer, q, db, t, req);
  }
}
