/** Calendar dates as Python's `datetime.date` holds them, their day ordinal
    (`date.toordinal()`), the `YYYY-MM-DD` text written by `strftime('%Y-%m-%d')`
    and read back by `pd.to_datetime`, and Python's string order on that text. */
module Calendar {
  import opened Optional

  /** Year, month and day, before the range checks. */
  datatype Ymd = Ymd(year: int, month: int, day: int)

  predicate IsLeap(y: int) {
    y % 4 == 0 && (y % 100 != 0 || y % 400 == 0)
  }

  function DaysInYear(y: int): int {
    if IsLeap(y) then 366 else 365
  }

  function DaysInMonth(y: int, m: int): int {
    if m == 2 then (if IsLeap(y) then 29 else 28)
    else if m == 4 || m == 6 || m == 9 || m == 11 then 30
    else 31
  }

  /** The range `datetime.date` accepts: years 1 to 9999, real months and days. */
  predicate ValidYmd(d: Ymd) {
    1 <= d.year <= 9999 && 1 <= d.month <= 12 && 1 <= d.day <= DaysInMonth(d.year, d.month)
  }

  type Date = d: Ymd | ValidYmd(d) witness Ymd(1970, 1, 1)

  /** Days in the years before `y`, counted from 0001-01-01 (proleptic Gregorian). */
  function DaysBeforeYear(y: int): int {
    var p := y - 1;
    365 * p + p / 4 - p / 100 + p / 400
  }

  /** Days in the months of year `y` before month `m`. */
  function DaysBeforeMonth(y: int, m: int): int {
    var common :=
      if m <= 1 then 0 else if m == 2 then 31 else if m == 3 then 59
      else if m == 4 then 90 else if m == 5 then 120 else if m == 6 then 151
      else if m == 7 then 181 else if m == 8 then 212 else if m == 9 then 243
      else if m == 10 then 273 else if m == 11 then 304 else 334;
    common + (if m > 2 && IsLeap(y) then 1 else 0)
  }

  /** The day number of a date, 0001-01-01 being day 1; `date - timedelta(days=k)`
      is the date whose ordinal is `k` less. */
  function Ordinal(d: Ymd): int {
    DaysBeforeYear(d.year) + DaysBeforeMonth(d.year, d.month) + d.day
  }

  /** Calendar order: by year, then month, then day. */
  predicate CalendarBefore(a: Ymd, b: Ymd) {
    a.year < b.year
    || (a.year == b.year && a.month < b.month)
    || (a.year == b.year && a.month == b.month && a.day < b.day)
  }

  /** Adding one to `p` adds one to `p / n` exactly when it makes a multiple of `n`. */
  lemma DivStep(p: int, n: int)
    requires n == 4 || n == 100 || n == 400
    ensures (p + 1) / n == p / n + (if (p + 1) % n == 0 then 1 else 0)
  {
  }

  lemma YearLength(y: int)
    ensures DaysBeforeYear(y + 1) == DaysBeforeYear(y) + DaysInYear(y)
  {
    DivStep(y - 1, 4);
    DivStep(y - 1, 100);
    DivStep(y - 1, 400);
  }

  lemma {:induction false} YearsBefore(y1: int, y2: int)
    requires y1 < y2
    ensures DaysBeforeYear(y1) + DaysInYear(y1) <= DaysBeforeYear(y2)
    decreases y2 - y1
  {
    YearLength(y1);
    if y1 + 1 < y2 {
      YearsBefore(y1 + 1, y2);
    }
  }

  lemma MonthsBefore(y: int, m1: int, m2: int)
    requires 1 <= m1 < m2 <= 12
    ensures DaysBeforeMonth(y, m1) + DaysInMonth(y, m1) <= DaysBeforeMonth(y, m2)
  {
  }

  lemma DayOfYearBounds(d: Date)
    ensures 1 <= DaysBeforeMonth(d.year, d.month) + d.day <= DaysInYear(d.year)
  {
  }

  /** Calendar order and ordinal order agree on valid dates. */
  lemma OrdinalOrder(a: Date, b: Date)
    ensures Ordinal(a) < Ordinal(b) <==> CalendarBefore(a, b)
    ensures Ordinal(a) == Ordinal(b) <==> a == b
  {
    DayOfYearBounds(a);
    DayOfYearBounds(b);
    if a.year < b.year {
      YearsBefore(a.year, b.year);
    } else if b.year < a.year {
      YearsBefore(b.year, a.year);
    } else if a.month < b.month {
      MonthsBefore(a.year, a.month, b.month);
    } else if b.month < a.month {
      MonthsBefore(a.year, b.month, a.month);
    }
  }

  // ----- `strftime('%Y-%m-%d')` -----

  function Digit(n: int): char
    requires 0 <= n <= 9
  {
    ('0' as int + n) as char
  }

  /** Two decimal digits with a leading zero (`%m`, `%d`). */
  function Pad2(n: int): string
    requires 0 <= n < 100
  {
    [Digit(n / 10), Digit(n % 10)]
  }

  /** Four decimal digits with leading zeros (`%Y`). */
  function Pad4(n: int): string
    requires 0 <= n < 10000
  {
    Pad2(n / 100) + Pad2(n % 100)
  }

  /** `date.strftime('%Y-%m-%d')`, grouped so that each field is one piece. */
  function FormatIso(d: Date): string {
    Pad4(d.year) + ("-" + (Pad2(d.month) + ("-" + Pad2(d.day))))
  }

  // ----- reading `YYYY-MM-DD` back -----

  predicate IsDigit(c: char) {
    '0' <= c <= '9'
  }

  predicate AllDigits(s: string) {
    forall k | 0 <= k < |s| :: IsDigit(s[k])
  }

  function DigitValue(c: char): int
    requires IsDigit(c)
  {
    c as int - '0' as int
  }

  function Value2(s: string): int
    requires |s| == 2 && AllDigits(s)
  {
    10 * DigitValue(s[0]) + DigitValue(s[1])
  }

  /** The date written as `YYYY-MM-DD`, or `None` when the text is not of that
      shape or names no real date. Only the shape `save_entry` writes is read. */
  function ParseIso(s: string): Option<Date> {
    if |s| == 10 && s[4] == '-' && s[7] == '-'
       && AllDigits(s[0..4]) && AllDigits(s[5..7]) && AllDigits(s[8..10])
    then
      var d := Ymd(100 * Value2(s[0..2]) + Value2(s[2..4]), Value2(s[5..7]), Value2(s[8..10]));
      if ValidYmd(d) then Some(d) else None
    else None
  }

  lemma Pad2Value(n: int)
    requires 0 <= n < 100
    ensures |Pad2(n)| == 2 && AllDigits(Pad2(n)) && Value2(Pad2(n)) == n
  {
  }

  lemma Value2Pad(s: string)
    requires |s| == 2 && AllDigits(s)
    ensures 0 <= Value2(s) < 100 && Pad2(Value2(s)) == s
  {
  }

  /** Every date survives being written and read back. */
  lemma ParseFormat(d: Date)
    ensures ParseIso(FormatIso(d)) == Some(d)
  {
    var s := FormatIso(d);
    Pad2Value(d.year / 100);
    Pad2Value(d.year % 100);
    Pad2Value(d.month);
    Pad2Value(d.day);
    assert s[0..2] == Pad2(d.year / 100);
    assert s[2..4] == Pad2(d.year % 100);
    assert s[5..7] == Pad2(d.month);
    assert s[8..10] == Pad2(d.day);
  }

  /** Only the text `FormatIso` writes is read as a date: the format is exact. */
  lemma FormatParse(s: string, d: Date)
    requires ParseIso(s) == Some(d)
    ensures FormatIso(d) == s
  {
    Value2Pad(s[0..2]);
    Value2Pad(s[2..4]);
    Value2Pad(s[5..7]);
    Value2Pad(s[8..10]);
    assert d.year / 100 == Value2(s[0..2]) && d.year % 100 == Value2(s[2..4]);
    assert s == s[0..2] + s[2..4] + ("-" + (s[5..7] + ("-" + s[8..10])));
  }

  // ----- Python's `<` on `str` -----

  /** Lexicographic order by code point; a proper prefix comes first. */
  predicate LexLess(a: string, b: string)
    decreases |a|
  {
    |b| > 0 && (|a| == 0 || a[0] < b[0] || (a[0] == b[0] && LexLess(a[1..], b[1..])))
  }

  lemma {:induction false} LexLessIrreflexive(a: string)
    ensures !LexLess(a, a)
    decreases |a|
  {
    if |a| > 0 {
      LexLessIrreflexive(a[1..]);
    }
  }

  lemma {:induction false} LexLessTransitive(a: string, b: string, c: string)
    requires LexLess(a, b) && LexLess(b, c)
    ensures LexLess(a, c)
    decreases |a|
  {
    if |a| > 0 && a[0] == b[0] && b[0] == c[0] {
      LexLessTransitive(a[1..], b[1..], c[1..]);
    }
  }

  /** Comparing two concatenations whose first parts have equal length compares
      the first parts, and the second parts only on a tie. */
  lemma {:induction false} LexLessConcat(a1: string, a2: string, b1: string, b2: string)
    requires |a1| == |b1|
    ensures LexLess(a1 + a2, b1 + b2) <==> LexLess(a1, b1) || (a1 == b1 && LexLess(a2, b2))
    decreases |a1|
  {
    if |a1| == 0 {
      assert a1 + a2 == a2 && b1 + b2 == b2;
    } else {
      assert (a1 + a2)[1..] == a1[1..] + a2;
      assert (b1 + b2)[1..] == b1[1..] + b2;
      LexLessConcat(a1[1..], a2, b1[1..], b2);
      if a1[0] == b1[0] && a1[1..] == b1[1..] {
        assert a1 == [a1[0]] + a1[1..] && b1 == [b1[0]] + b1[1..];
      }
    }
  }

  lemma Pad2Order(x: int, y: int)
    requires 0 <= x < 100 && 0 <= y < 100
    ensures LexLess(Pad2(x), Pad2(y)) <==> x < y
    ensures Pad2(x) == Pad2(y) <==> x == y
  {
    assert Pad2(x) == [Digit(x / 10)] + [Digit(x % 10)];
    assert Pad2(y) == [Digit(y / 10)] + [Digit(y % 10)];
    LexLessConcat([Digit(x / 10)], [Digit(x % 10)], [Digit(y / 10)], [Digit(y % 10)]);
    Pad2Value(x);
    Pad2Value(y);
  }

  lemma Pad4Order(x: int, y: int)
    requires 0 <= x < 10000 && 0 <= y < 10000
    ensures LexLess(Pad4(x), Pad4(y)) <==> x < y
    ensures Pad4(x) == Pad4(y) <==> x == y
  {
    LexLessConcat(Pad2(x / 100), Pad2(x % 100), Pad2(y / 100), Pad2(y % 100));
    Pad2Order(x / 100, y / 100);
    Pad2Order(x % 100, y % 100);
    if Pad4(x) == Pad4(y) {
      assert Pad4(x)[0..2] == Pad2(x / 100) && Pad4(y)[0..2] == Pad2(y / 100);
      assert Pad4(x)[2..4] == Pad2(x % 100) && Pad4(y)[2..4] == Pad2(y % 100);
    }
  }

  /** Comparing `YYYY-MM-DD` strings (four-digit, zero-padded years) is comparing
      the dates they name. */
  lemma FormatOrder(a: Date, b: Date)
    ensures LexLess(FormatIso(a), FormatIso(b)) <==> Ordinal(a) < Ordinal(b)
  {
    var dayA, dayB := "-" + Pad2(a.day), "-" + Pad2(b.day);
    var mdA, mdB := Pad2(a.month) + dayA, Pad2(b.month) + dayB;
    LexLessConcat("-", Pad2(a.day), "-", Pad2(b.day));
    LexLessIrreflexive("-");
    Pad2Order(a.day, b.day);
    LexLessConcat(Pad2(a.month), dayA, Pad2(b.month), dayB);
    Pad2Order(a.month, b.month);
    LexLessConcat("-", mdA, "-", mdB);
    LexLessConcat(Pad4(a.year), "-" + mdA, Pad4(b.year), "-" + mdB);
    Pad4Order(a.year, b.year);
    OrdinalOrder(a, b);
  }
}
