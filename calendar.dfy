/** Python's `datetime.strptime` for the two formats the drivers use, `%Y%m%d`
    and `%Y%m%d%H%M%S`, applied to all-digit strings of exactly 8 and 14
    characters. For those lengths every field must take exactly two digits
    (four for the year), so parsing is the fixed-width split below followed by
    the range checks of `datetime`. A parsed value is the proleptic Gregorian
    day ordinal of `date.toordinal()` (1 January of year 1 is day 1), or that
    ordinal in seconds plus the time of day, so subtracting two parsed values
    gives the `timedelta` between them. */
module Calendar {
  import opened Values
  import opened Text

  predicate IsLeap(y: int)
  {
    y % 4 == 0 && (y % 100 != 0 || y % 400 == 0)
  }

  function DaysInMonth(y: int, m: int): (n: int)
    requires 1 <= m <= 12
    ensures 28 <= n <= 31
    ensures m == 2 ==> (n == 29 <==> IsLeap(y))
  {
    if m == 2 then (if IsLeap(y) then 29 else 28)
    else if m == 4 || m == 6 || m == 9 || m == 11 then 30
    else 31
  }

  function DaysInYear(y: int): int
  {
    if IsLeap(y) then 366 else 365
  }

  predicate ValidDate(y: int, m: int, d: int)
  {
    1 <= y && 1 <= m <= 12 && 1 <= d <= DaysInMonth(y, m)
  }

  /** Days in the years before `y` (years 1 .. y-1). */
  function DaysBeforeYear(y: int): int
    requires y >= 1
  {
    var p := y - 1;
    365 * p + p / 4 - p / 100 + p / 400
  }

  /** Days in the months before `m` of year `y`: the cumulative month
      lengths of a common year, plus the leap day once February is past. */
  function DaysBeforeMonth(y: int, m: int): (n: int)
    requires 1 <= m <= 12
    ensures n == [0, 31, 59, 90, 120, 151, 181, 212, 243, 273, 304, 334][m - 1]
                 + (if m > 2 && IsLeap(y) then 1 else 0)
    decreases m
  {
    if m == 1 then 0 else DaysBeforeMonth(y, m - 1) + DaysInMonth(y, m - 1)
  }

  /** `date(y, m, d).toordinal()`. */
  function Ordinal(y: int, m: int, d: int): int
    requires ValidDate(y, m, d)
  {
    DaysBeforeYear(y) + DaysBeforeMonth(y, m) + d
  }

  lemma WholeYear(y: int)
    ensures DaysBeforeMonth(y, 12) + DaysInMonth(y, 12) == DaysInYear(y)
  {
  }

  lemma {:induction false} NextYearStart(y: int)
    requires y >= 1
    ensures DaysBeforeYear(y + 1) == DaysBeforeYear(y) + DaysInYear(y)
  {
    var p := y - 1;
    assert (p + 1) / 4 == p / 4 + (if (p + 1) % 4 == 0 then 1 else 0);
    assert (p + 1) / 100 == p / 100 + (if (p + 1) % 100 == 0 then 1 else 0);
    assert (p + 1) / 400 == p / 400 + (if (p + 1) % 400 == 0 then 1 else 0);
  }

  /** The day after a valid date has the next ordinal, across month and year ends. */
  lemma {:induction false} OrdinalOfNextDay(y: int, m: int, d: int)
    requires ValidDate(y, m, d)
    ensures d < DaysInMonth(y, m) ==> Ordinal(y, m, d + 1) == Ordinal(y, m, d) + 1
    ensures d == DaysInMonth(y, m) && m < 12 ==> Ordinal(y, m + 1, 1) == Ordinal(y, m, d) + 1
    ensures d == DaysInMonth(y, m) && m == 12 ==> Ordinal(y + 1, 1, 1) == Ordinal(y, m, d) + 1
  {
    if d == DaysInMonth(y, m) && m == 12 {
      WholeYear(y);
      NextYearStart(y);
    }
  }

  /** Ordinals follow calendar order: a date in an earlier month of the same
      year, or an earlier day of the same month, has a smaller ordinal. */
  lemma {:induction false} OrdinalMonotoneWithinYear(y: int, m1: int, d1: int, m2: int, d2: int)
    requires ValidDate(y, m1, d1) && ValidDate(y, m2, d2)
    requires m1 < m2 || (m1 == m2 && d1 < d2)
    ensures Ordinal(y, m1, d1) < Ordinal(y, m2, d2)
    decreases m2
  {
    if m1 < m2 {
      if m1 == m2 - 1 {
        assert DaysBeforeMonth(y, m2) == DaysBeforeMonth(y, m1) + DaysInMonth(y, m1);
      } else {
        OrdinalMonotoneWithinYear(y, m1, d1, m2 - 1, 1);
        assert DaysBeforeMonth(y, m2) == DaysBeforeMonth(y, m2 - 1) + DaysInMonth(y, m2 - 1);
      }
    }
  }

  /** The first day of a year comes after every day of the year before it. */
  lemma YearStartAfterPreviousYear(y: int, m: int, d: int)
    requires ValidDate(y, m, d)
    ensures Ordinal(y, m, d) < Ordinal(y + 1, 1, 1)
  {
    if m < 12 || d < 31 {
      OrdinalMonotoneWithinYear(y, m, d, 12, 31);
    }
    assert Ordinal(y, 12, 31) == DaysBeforeYear(y) + DaysInYear(y) by {
      WholeYear(y);
    }
    assert Ordinal(y + 1, 1, 1) == DaysBeforeYear(y) + DaysInYear(y) + 1 by {
      NextYearStart(y);
    }
  }

  /** Value of the two-digit field `s[i..i+2]`. */
  function Field2(s: string, i: nat): nat
    requires i + 2 <= |s| && AllDigits(s)
  {
    10 * (s[i] - '0') as nat + (s[i + 1] - '0') as nat
  }

  /** Value of the four-digit year field `s[0..4]`. */
  function Field4(s: string): nat
    requires 4 <= |s| && AllDigits(s)
  {
    100 * Field2(s, 0) + Field2(s, 2)
  }

  /** `datetime.strptime(s, '%Y%m%d')` on an 8-character string, as a day ordinal. */
  function ParseDate8(s: string): (r: Result<int>)
    ensures r.Ok? ==> |s| == 8 && AllDigits(s) && ValidDate(Field4(s), Field2(s, 4), Field2(s, 6))
    ensures r.Err? ==> r.error == ValueError
  {
    if |s| == 8 && AllDigits(s) && ValidDate(Field4(s), Field2(s, 4), Field2(s, 6)) then
      Ok(Ordinal(Field4(s), Field2(s, 4), Field2(s, 6)))
    else
      Err(ValueError)
  }

  predicate ValidTime(h: int, mi: int, sec: int)
  {
    0 <= h < 24 && 0 <= mi < 60 && 0 <= sec < 60
  }

  /** Seconds from the start of day 0 to the given instant. */
  function Instant(y: int, m: int, d: int, h: int, mi: int, sec: int): int
    requires ValidDate(y, m, d)
  {
    Ordinal(y, m, d) * 86400 + h * 3600 + mi * 60 + sec
  }

  /** `datetime.strptime(s, '%Y%m%d%H%M%S')` on a 14-character string, in seconds. */
  function ParseDateTime14(s: string): (r: Result<int>)
    ensures r.Ok? ==> |s| == 14 && AllDigits(s)
                      && ValidDate(Field4(s), Field2(s, 4), Field2(s, 6))
                      && ValidTime(Field2(s, 8), Field2(s, 10), Field2(s, 12))
    ensures r.Err? ==> r.error == ValueError
  {
    if |s| == 14 && AllDigits(s)
       && ValidDate(Field4(s), Field2(s, 4), Field2(s, 6))
       && ValidTime(Field2(s, 8), Field2(s, 10), Field2(s, 12))
    then
      Ok(Instant(Field4(s), Field2(s, 4), Field2(s, 6), Field2(s, 8), Field2(s, 10), Field2(s, 12)))
    else
      Err(ValueError)
  }

  /** Two digits for a number below 100 (`%02d`). */
  function Pad2(n: nat): (s: string)
    requires n < 100
    ensures |s| == 2 && AllDigits(s) && Field2(s, 0) == n
  {
    [DigitChar(n / 10), DigitChar(n % 10)]
  }

  /** The `%Y%m%d` text of a date. */
  function DateText(y: nat, m: nat, d: nat): (s: string)
    requires y < 10000 && m < 100 && d < 100
    ensures |s| == 8 && AllDigits(s)
  {
    Pad2(y / 100) + Pad2(y % 100) + Pad2(m) + Pad2(d)
  }

  /** Formatting a valid date as `%Y%m%d` and parsing it back gives its ordinal. */
  lemma DateTextRoundTrip(y: nat, m: nat, d: nat)
    requires y < 10000 && ValidDate(y, m, d)
    ensures ParseDate8(DateText(y, m, d)) == Ok(Ordinal(y, m, d))
  {
    var s := DateText(y, m, d);
    var a, b, c, e := Pad2(y / 100), Pad2(y % 100), Pad2(m), Pad2(d);
    assert s == a + b + c + e;
    assert s[0] == a[0] && s[1] == a[1];
    assert s[2] == b[0] && s[3] == b[1];
    assert s[4] == c[0] && s[5] == c[1];
    assert s[6] == e[0] && s[7] == e[1];
    assert Field2(s, 0) == Field2(a, 0) == y / 100;
    assert Field2(s, 2) == Field2(b, 0) == y % 100;
    assert Field2(s, 4) == Field2(c, 0) == m;
    assert Field2(s, 6) == Field2(e, 0) == d;
    assert Field4(s) == y;
  }

  /** The `%Y%m%d%H%M%S` text of a date and time. */
  function DateTimeText(y: nat, m: nat, d: nat, h: nat, mi: nat, sec: nat): (s: string)
    requires y < 10000 && m < 100 && d < 100 && h < 100 && mi < 100 && sec < 100
    ensures |s| == 14 && AllDigits(s)
  {
    DateText(y, m, d) + Pad2(h) + Pad2(mi) + Pad2(sec)
  }

  /** Formatting a valid date and time as `%Y%m%d%H%M%S` and parsing it back
      gives its instant. */
  lemma DateTimeTextRoundTrip(y: nat, m: nat, d: nat, h: nat, mi: nat, sec: nat)
    requires y < 10000 && ValidDate(y, m, d) && ValidTime(h, mi, sec)
    ensures ParseDateTime14(DateTimeText(y, m, d, h, mi, sec)) == Ok(Instant(y, m, d, h, mi, sec))
  {
    var s := DateTimeText(y, m, d, h, mi, sec);
    var date, a, b, c := DateText(y, m, d), Pad2(h), Pad2(mi), Pad2(sec);
    DateTextRoundTrip(y, m, d);
    assert s == date + a + b + c;
    assert s[..8] == date;
    assert Field4(s) == Field4(date) && Field2(s, 4) == Field2(date, 4) && Field2(s, 6) == Field2(date, 6);
    assert s[8] == a[0] && s[9] == a[1];
    assert s[10] == b[0] && s[11] == b[1];
    assert s[12] == c[0] && s[13] == c[1];
    assert Field2(s, 8) == Field2(a, 0) == h;
    assert Field2(s, 10) == Field2(b, 0) == mi;
    assert Field2(s, 12) == Field2(c, 0) == sec;
  }

  /** The fields of a date text followed by a one-digit hour, read either
      with that digit as the hour or with the digits shifted by one. */
  lemma ShortTimeTextFields(y: nat, m: nat, d: nat, h: nat, mi: nat, sec: nat)
    requires y < 10000 && ValidDate(y, m, d) && h <= 9 && mi < 100 && sec < 100
    ensures var s := DateText(y, m, d) + [DigitChar(h)] + Pad2(mi) + Pad2(sec);
      && |s| == 13 && AllDigits(s)
      && Field4(s) == y && Field2(s, 4) == m && Field2(s, 6) == d
      && s[8] == DigitChar(h) && (s[8] - '0') as nat == h
      && Field2(s, 9) == mi && Field2(s, 11) == sec
      && Field2(s, 8) == 10 * h + mi / 10 && Field2(s, 10) == 10 * (mi % 10) + sec / 10
      && (s[12] - '0') as nat == sec % 10
  {
    var date, a, b := DateText(y, m, d), Pad2(mi), Pad2(sec);
    var s := date + [DigitChar(h)] + a + b;
    DateTextRoundTrip(y, m, d);
    assert s[..8] == date;
    assert Field4(s) == Field4(date) && Field2(s, 4) == Field2(date, 4) && Field2(s, 6) == Field2(date, 6);
    assert s[8] == DigitChar(h) && s[9] == a[0] && s[10] == a[1] && s[11] == b[0] && s[12] == b[1];
  }

  /** `f"{n:06d}"`: at least six digits, zero-padded on the left. */
  function ZeroPad6(n: nat): (s: string)
    ensures AllDigits(s)
    ensures n < 1000000 ==> |s| == 6
  {
    if n < 1000000 then Pad2(n / 10000) + Pad2(n / 100 % 100) + Pad2(n % 100)
    else NatToStringRoundTrip(n); NatToString(n)
  }

  /** `str(n)` of a number of three or more digits is `str` of its leading
      part followed by its last two digits. */
  lemma NatToStringHundreds(q: nat, r: nat)
    requires q >= 1 && r < 100
    ensures NatToString(100 * q + r) == NatToString(q) + Pad2(r)
  {
    var n := 100 * q + r;
    assert n / 10 == 10 * q + r / 10 && n % 10 == r % 10;
    assert (n / 10) / 10 == q && (n / 10) % 10 == r / 10;
  }

  /** `str(n)` of a two-digit number is its `%02d` text. */
  lemma NatToStringTwoDigits(q: nat)
    requires 10 <= q < 100
    ensures NatToString(q) == Pad2(q)
  {
    assert NatToString(q / 10) == [DigitChar(q / 10)];
  }

  /** `str(y * 10000 + m * 100 + d)` of a four-digit year is the `%Y%m%d` text. */
  lemma {:induction false} NatToStringOfDate(y: nat, m: nat, d: nat)
    requires 1000 <= y < 10000 && m < 100 && d < 100
    ensures NatToString(y * 10000 + m * 100 + d) == DateText(y, m, d)
  {
    var a := 100 * y + m;
    assert 100 * a + d == y * 10000 + m * 100 + d;
    NatToStringHundreds(a, d);
    NatToStringHundreds(y, m);
    assert 100 * (y / 100) + y % 100 == y;
    NatToStringHundreds(y / 100, y % 100);
    NatToStringTwoDigits(y / 100);
  }

  /** `str(h * 10000 + mi * 100 + sec)`: the hour's own digits, then two
      digits each for minute and second. */
  lemma {:induction false} NatToStringOfTime(h: nat, mi: nat, sec: nat)
    requires 1 <= h < 100 && mi < 100 && sec < 100
    ensures NatToString(h * 10000 + mi * 100 + sec) == NatToString(h) + Pad2(mi) + Pad2(sec)
  {
    var a := 100 * h + mi;
    assert 100 * a + sec == h * 10000 + mi * 100 + sec;
    NatToStringHundreds(a, sec);
    NatToStringHundreds(h, mi);
  }
}
