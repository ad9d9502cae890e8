/**
 * Calendar dates and UTC timestamps, with Python's `date.isoformat()` and
 * `datetime.isoformat()` for timezone-aware UTC values. Reading the clock
 * (`datetime.now`, `utcnow`) is not modelled: callers pass the values in.
 */
module Dates {
  import opened Text

  datatype Date = Date(year: int, month: int, day: int)

  /** A UTC timestamp (`datetime` with `tzinfo=timezone.utc`). */
  datatype DateTime = DateTime(date: Date, hour: int, minute: int, second: int, microsecond: int)

  predicate IsLeap(y: int) {
    y % 4 == 0 && (y % 100 != 0 || y % 400 == 0)
  }

  function DaysInMonth(y: int, m: int): int
    requires 1 <= m <= 12
  {
    if m == 2 then (if IsLeap(y) then 29 else 28)
    else if m == 4 || m == 6 || m == 9 || m == 11 then 30
    else 31
  }

  /** The dates Python's `date` can hold (years 1 to 9999). */
  predicate ValidDate(d: Date) {
    1 <= d.year <= 9999 && 1 <= d.month <= 12 && 1 <= d.day <= DaysInMonth(d.year, d.month)
  }

  predicate ValidDateTime(t: DateTime) {
    ValidDate(t.date) && 0 <= t.hour < 24 && 0 <= t.minute < 60 && 0 <= t.second < 60
    && 0 <= t.microsecond < 1000000
  }

  /** A Python `date` object: always a valid calendar date. */
  type CalendarDate = d: Date | ValidDate(d) witness Date(1970, 1, 1)

  /** A timezone-aware UTC Python `datetime` object. */
  type Timestamp = t: DateTime | ValidDateTime(t) witness DateTime(Date(1970, 1, 1), 0, 0, 0, 0)

  /** Calendar order. */
  predicate Before(a: Date, b: Date) {
    a.year < b.year
    || (a.year == b.year && a.month < b.month)
    || (a.year == b.year && a.month == b.month && a.day < b.day)
  }

  /** `date.isoformat()`: `YYYY-MM-DD`, each field zero-padded. */
  function DateIso(d: Date): (s: string)
    requires ValidDate(d)
    ensures |s| == 10
    ensures AllDigits(s[..4]) && s[4] == '-' && AllDigits(s[5..7]) && s[7] == '-' && AllDigits(s[8..])
  {
    FieldWidths();
    FieldBounds(d);
    ZeroPadWidth(d.year, 4);
    ZeroPadWidth(d.month, 2);
    ZeroPadWidth(d.day, 2);
    var y, m, dd := ZeroPad(d.year, 4), ZeroPad(d.month, 2), ZeroPad(d.day, 2);
    DashedParts(y, m, dd);
    y + "-" + m + "-" + dd
  }

  /** Where the three fields of a `YYYY-MM-DD` text lie. */
  lemma DashedParts(y: string, m: string, dd: string)
    requires |y| == 4 && |m| == 2 && |dd| == 2
    ensures var s := y + "-" + m + "-" + dd;
      s[..4] == y && s[4] == '-' && s[5..7] == m && s[7] == '-' && s[8..] == dd
  {
  }

  /**
   * `datetime.isoformat()` of a UTC timestamp: `YYYY-MM-DDTHH:MM:SS`, then
   * `.ffffff` only when the microseconds are not zero, then the offset `+00:00`.
   */
  function DateTimeIso(t: DateTime): (s: string)
    requires ValidDateTime(t)
    ensures |s| == (if t.microsecond == 0 then 25 else 32)
    ensures s[..10] == DateIso(t.date) && s[10] == 'T'
    ensures AllDigits(s[11..13]) && DigitsValue(s[11..13]) == t.hour && s[13] == ':'
    ensures AllDigits(s[14..16]) && DigitsValue(s[14..16]) == t.minute && s[16] == ':'
    ensures AllDigits(s[17..19]) && DigitsValue(s[17..19]) == t.second
    ensures s[19] == '.' <==> t.microsecond != 0
    ensures t.microsecond != 0 ==> AllDigits(s[20..26]) && DigitsValue(s[20..26]) == t.microsecond
    ensures s[|s| - 6..] == "+00:00"
  {
    var clock := Clock(t.hour, t.minute, t.second);
    var fraction := Fraction(t.microsecond);
    TimeJoin(DateIso(t.date), clock, fraction);
    DateIso(t.date) + "T" + clock + fraction + "+00:00"
  }

  /** `HH:MM:SS`. */
  function Clock(hour: nat, minute: nat, second: nat): (c: string)
    requires hour < 24 && minute < 60 && second < 60
    ensures |c| == 8 && c[2] == ':' && c[5] == ':'
    ensures AllDigits(c[..2]) && DigitsValue(c[..2]) == hour
    ensures AllDigits(c[3..5]) && DigitsValue(c[3..5]) == minute
    ensures AllDigits(c[6..]) && DigitsValue(c[6..]) == second
  {
    FieldWidths();
    ZeroPadWidth(hour, 2);
    ZeroPadWidth(minute, 2);
    ZeroPadWidth(second, 2);
    var h, m, sec := ZeroPad(hour, 2), ZeroPad(minute, 2), ZeroPad(second, 2);
    ClockParts(h, m, sec);
    h + ":" + m + ":" + sec
  }

  /** Where the three fields of an `HH:MM:SS` text lie. */
  lemma ClockParts(h: string, m: string, sec: string)
    requires |h| == 2 && |m| == 2 && |sec| == 2
    ensures var c := h + ":" + m + ":" + sec;
      c[..2] == h && c[2] == ':' && c[3..5] == m && c[5] == ':' && c[6..] == sec
  {
  }

  /** `.ffffff`, or nothing when the microseconds are zero. */
  function Fraction(microsecond: nat): (f: string)
    requires microsecond < 1000000
    ensures |f| == if microsecond == 0 then 0 else 7
    ensures microsecond != 0 ==> f[0] == '.' && AllDigits(f[1..]) && DigitsValue(f[1..]) == microsecond
  {
    FieldWidths();
    ZeroPadWidth(microsecond, 6);
    if microsecond == 0 then "" else
      var digits := ZeroPad(microsecond, 6);
      assert ("." + digits)[1..] == digits;
      "." + digits
  }

  /** Where the date, the clock, the fraction and the offset lie in `<date>T<clock><fraction>+00:00`. */
  lemma TimeJoin(day: string, clock: string, fraction: string)
    requires |day| == 10 && |clock| == 8
    ensures var s := day + "T" + clock + fraction + "+00:00";
      && |s| == 25 + |fraction| && s[..10] == day && s[10] == 'T'
      && s[11..13] == clock[..2] && s[13] == clock[2] && s[14..16] == clock[3..5]
      && s[16] == clock[5] && s[17..19] == clock[6..]
      && s[19..19 + |fraction|] == fraction && s[|s| - 6..] == "+00:00"
      && (fraction == [] ==> s[19] == '+')
  {
    var s := day + "T" + clock + fraction + "+00:00";
    assert s[11..19] == clock;
  }

  /** Every field of a valid date fits its padded width. */
  lemma FieldBounds(d: Date)
    requires ValidDate(d)
    ensures 1 <= d.year < 10000 && 1 <= d.month < 100 && 1 <= d.day < 100
  {
    assert DaysInMonth(d.year, d.month) <= 31;
  }

  /** The powers of ten the date fields are padded to. */
  lemma FieldWidths()
    ensures Pow10(2) == 100 && Pow10(4) == 10000 && Pow10(6) == 1000000
  {
    assert Pow10(1) == 10;
    assert Pow10(3) == 1000;
    assert Pow10(5) == 100000;
  }

  /** Equal-width zero-padded numbers are equal as text exactly when they are equal. */
  lemma ZeroPadInjective(m: nat, n: nat, width: nat)
    requires width >= 1 && m < Pow10(width) && n < Pow10(width)
    ensures ZeroPad(m, width) == ZeroPad(n, width) <==> m == n
  {
  }

  /** Text of the shape `x-y-z` with fixed-width `x` and `y` compares field by field. */
  lemma {:induction false} DashedOrder(x1: string, y1: string, z1: string, x2: string, y2: string, z2: string)
    requires |x1| == |x2| && |y1| == |y2|
    ensures LexLess(x1 + "-" + y1 + "-" + z1, x2 + "-" + y2 + "-" + z2)
            <==> LexLess(x1, x2) || (x1 == x2 && LexLess(y1, y2)) || (x1 == x2 && y1 == y2 && LexLess(z1, z2))
  {
    var t1, t2 := "-" + y1 + "-" + z1, "-" + y2 + "-" + z2;
    assert x1 + "-" + y1 + "-" + z1 == x1 + t1;
    assert x2 + "-" + y2 + "-" + z2 == x2 + t2;
    if x1 != x2 {
      LexLessBlocks(x1, t1, x2, t2);
    } else {
      LexLessCommonPrefix(x1, t1, t2);
      assert t1 == "-" + (y1 + ("-" + z1));
      assert t2 == "-" + (y2 + ("-" + z2));
      LexLessCommonPrefix("-", y1 + ("-" + z1), y2 + ("-" + z2));
      if y1 != y2 {
        LexLessBlocks(y1, "-" + z1, y2, "-" + z2);
      } else {
        LexLessIrreflexive(y1);
        LexLessCommonPrefix(y1, "-" + z1, "-" + z2);
        LexLessCommonPrefix("-", z1, z2);
      }
      LexLessIrreflexive(x1);
    }
  }

  /**
   * ISO dates sort as text in calendar order: the lexicographically greatest
   * `run_date=YYYY-MM-DD` name is the latest run.
   */
  lemma IsoOrderIsCalendarOrder(a: Date, b: Date)
    requires ValidDate(a) && ValidDate(b)
    ensures LexLess(DateIso(a), DateIso(b)) <==> Before(a, b)
  {
    FieldWidths();
    FieldBounds(a);
    FieldBounds(b);
    ZeroPadOrder(a.year, b.year, 4);
    ZeroPadOrder(a.month, b.month, 2);
    ZeroPadOrder(a.day, b.day, 2);
    ZeroPadInjective(a.year, b.year, 4);
    ZeroPadInjective(a.month, b.month, 2);
    FieldsOrder(ZeroPad(a.year, 4), ZeroPad(a.month, 2), ZeroPad(a.day, 2),
                ZeroPad(b.year, 4), ZeroPad(b.month, 2), ZeroPad(b.day, 2), a, b);
  }

  /** Fields that compare as the numbers they spell make the dashed texts compare as the dates. */
  lemma FieldsOrder(x1: string, y1: string, z1: string, x2: string, y2: string, z2: string, a: Date, b: Date)
    requires |x1| == |x2| && |y1| == |y2|
    requires (LexLess(x1, x2) <==> a.year < b.year) && (x1 == x2 <==> a.year == b.year)
    requires (LexLess(y1, y2) <==> a.month < b.month) && (y1 == y2 <==> a.month == b.month)
    requires LexLess(z1, z2) <==> a.day < b.day
    ensures LexLess(x1 + "-" + y1 + "-" + z1, x2 + "-" + y2 + "-" + z2) <==> Before(a, b)
  {
    DashedOrder(x1, y1, z1, x2, y2, z2);
  }
}
