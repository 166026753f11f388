/** `datetime.strptime` as CPython's `_strptime` carries it out, for the two
    formats the drivers use, `%Y%m%d` and `%Y%m%d%H%M%S`. The format becomes
    a regular expression with one group per directive; `re.match` takes the
    first match it finds from the start of the string, each group trying its
    alternatives in the order written and backtracking only when the later
    groups cannot match. The pattern has no end anchor, so a match that stops
    short of the end is refused afterwards ("unconverted data remains"), and
    the group values then go through the range checks of `datetime`; every
    failure is a ValueError.

    On all-digit strings of exactly 8 and 14 characters this is the
    fixed-width parse of `Calendar` (`StrptimeDateOnEightDigits`,
    `StrptimeDateTimeOnFourteenDigits`). On shorter strings a group may take
    a single digit, which is how `str(date) + str(time)` is read when the
    time lost its leading zero. */
module Strptime {
  import opened Values
  import opened Text
  import opened Calendar

  /** A bracketed character class `[lo-hi]`; a literal character `c` is `[c-c]`. */
  datatype CharClass = Range(lo: char, hi: char)

  /** One alternative of a directive's group: a run of character classes. */
  type Alt = seq<CharClass>

  /** `\d`, over ASCII digits. */
  const Digit: CharClass := Range('0', '9')
  const NonZero: CharClass := Range('1', '9')

  /** `%Y`: `\d\d\d\d`. */
  const Year: seq<Alt> := [[Digit, Digit, Digit, Digit]]
  /** `%m`: `1[0-2]|0[1-9]|[1-9]`. */
  const Month: seq<Alt> := [[Range('1', '1'), Range('0', '2')], [Range('0', '0'), NonZero], [NonZero]]
  /** `%d`: `3[0-1]|[1-2]\d|0[1-9]|[1-9]| [1-9]`. */
  const Day: seq<Alt> := [[Range('3', '3'), Range('0', '1')], [Range('1', '2'), Digit],
                          [Range('0', '0'), NonZero], [NonZero], [Range(' ', ' '), NonZero]]
  /** `%H`: `2[0-3]|[0-1]\d|\d`. */
  const Hour: seq<Alt> := [[Range('2', '2'), Range('0', '3')], [Range('0', '1'), Digit], [Digit]]
  /** `%M`: `[0-5]\d|\d`. */
  const Minute: seq<Alt> := [[Range('0', '5'), Digit], [Digit]]
  /** `%S`: `6[0-1]|[0-5]\d|\d`. */
  const Second: seq<Alt> := [[Range('6', '6'), Range('0', '1')], [Range('0', '5'), Digit], [Digit]]

  /** `%Y%m%d`, one group per directive. */
  const DateFormat: seq<seq<Alt>> := [Year] + ([Month] + ([Day] + []))

  /** The tails of `%Y%m%d%H%M%S`: `%S`, `%M%S`, ..., `%m%d%H%M%S`. */
  const FromSecond: seq<seq<Alt>> := [Second] + []
  const FromMinute: seq<seq<Alt>> := [Minute] + FromSecond
  const FromHour: seq<seq<Alt>> := [Hour] + FromMinute
  const FromDay: seq<seq<Alt>> := [Day] + FromHour
  const FromMonth: seq<seq<Alt>> := [Month] + FromDay

  /** `%Y%m%d%H%M%S`, one group per directive. */
  const DateTimeFormat: seq<seq<Alt>> := [Year] + FromMonth

  /** The alternative matches the characters from `pos` on. */
  predicate AltMatches(a: Alt, s: string, pos: nat)
  {
    pos + |a| <= |s| && forall i :: 0 <= i < |a| ==> a[i].lo <= s[pos + i] <= a[i].hi
  }

  /** A match: the text each group captured and the position where the match ends. */
  datatype Captures = Captures(texts: seq<string>, end: nat)

  /** The match of the groups `groups` from position `pos`, in the order
      `re.match` tries them, or None when there is none. */
  function MatchGroups(groups: seq<seq<Alt>>, s: string, pos: nat): (r: Option<Captures>)
    requires pos <= |s|
    ensures r.Some? ==> |r.value.texts| == |groups| && pos <= r.value.end <= |s|
    decreases 2 * |groups|, 0
  {
    if groups == [] then Some(Captures([], pos))
    else MatchAlternatives(groups[0], groups[1..], s, pos)
  }

  /** One group with alternatives `alts` followed by the groups `rest`: the
      first alternative that matches here and lets `rest` match after it. */
  function MatchAlternatives(alts: seq<Alt>, rest: seq<seq<Alt>>, s: string, pos: nat): (r: Option<Captures>)
    requires pos <= |s|
    ensures r.Some? ==> |r.value.texts| == |rest| + 1 && pos <= r.value.end <= |s|
    decreases 2 * |rest| + 1, |alts|
  {
    if alts == [] then None
    else if AltMatches(alts[0], s, pos) && MatchGroups(rest, s, pos + |alts[0]|).Some? then
      var m := MatchGroups(rest, s, pos + |alts[0]|).value;
      Some(Captures([s[pos..pos + |alts[0]|]] + m.texts, m.end))
    else MatchAlternatives(alts[1..], rest, s, pos)
  }

  /** `int(text)` of a captured group: its digits in base 10 (the space that
      `%d` allows before a digit counts for nothing). */
  function GroupValue(t: string): nat
    decreases |t|
  {
    if |t| == 0 then 0
    else 10 * GroupValue(t[..|t| - 1]) + (if IsDigit(t[|t| - 1]) then (t[|t| - 1] - '0') as nat else 0)
  }

  /** The group values of a match of `format` against the whole of `s`:
      ValueError when nothing matches or when characters are left over. */
  function GroupValues(format: seq<seq<Alt>>, s: string): (r: Result<seq<nat>>)
    ensures r.Ok? ==> |r.value| == |format|
    ensures r.Ok? <==> MatchGroups(format, s, 0).Some? && MatchGroups(format, s, 0).value.end == |s|
    ensures r.Err? ==> r.error == ValueError
  {
    var m := MatchGroups(format, s, 0);
    if m.None? || m.value.end != |s| then Err(ValueError)
    else Ok(seq(|format|, i requires 0 <= i < |format| => GroupValue(m.value.texts[i])))
  }

  /** `datetime.strptime(s, '%Y%m%d')`, as a day ordinal. */
  function StrptimeDate(s: string): (r: Result<int>)
    ensures r.Err? ==> r.error == ValueError
    ensures r.Ok? ==> GroupValues(DateFormat, s).Ok?
  {
    var f :- GroupValues(DateFormat, s);
    if ValidDate(f[0], f[1], f[2]) then Ok(Ordinal(f[0], f[1], f[2])) else Err(ValueError)
  }

  /** `datetime.strptime(s, '%Y%m%d%H%M%S')`, in seconds. */
  function StrptimeDateTime(s: string): (r: Result<int>)
    ensures r.Err? ==> r.error == ValueError
    ensures r.Ok? ==> GroupValues(DateTimeFormat, s).Ok?
  {
    var f :- GroupValues(DateTimeFormat, s);
    if ValidDate(f[0], f[1], f[2]) && ValidTime(f[3], f[4], f[5])
    then Ok(Instant(f[0], f[1], f[2], f[3], f[4], f[5]))
    else Err(ValueError)
  }

  // ---------------------------------------------------------------------
  // Widths: a match ends at most at the sum of the widest alternatives,
  // and one that ends there took the widest text of every group.

  function Widest(alts: seq<Alt>): nat
  {
    if alts == [] then 0
    else if |alts[0]| > Widest(alts[1..]) then |alts[0]| else Widest(alts[1..])
  }

  function Width(groups: seq<seq<Alt>>): nat
  {
    if groups == [] then 0 else Widest(groups[0]) + Width(groups[1..])
  }

  /** The texts of the groups when each takes its widest width. */
  function FixedTexts(groups: seq<seq<Alt>>, s: string, pos: nat): seq<string>
    requires pos + Width(groups) <= |s|
  {
    if groups == [] then []
    else [s[pos..pos + Widest(groups[0])]] + FixedTexts(groups[1..], s, pos + Widest(groups[0]))
  }

  lemma {:induction false} MatchWithinWidth(groups: seq<seq<Alt>>, s: string, pos: nat)
    requires pos <= |s|
    ensures var m := MatchGroups(groups, s, pos);
      m.Some? ==>
        && m.value.end <= pos + Width(groups)
        && (m.value.end == pos + Width(groups) ==> m.value.texts == FixedTexts(groups, s, pos))
    decreases 2 * |groups|, 0
  {
    if groups != [] {
      AlternativesWithinWidth(groups[0], groups[1..], s, pos);
    }
  }

  lemma {:induction false} AlternativesWithinWidth(alts: seq<Alt>, rest: seq<seq<Alt>>, s: string, pos: nat)
    requires pos <= |s|
    ensures var m := MatchAlternatives(alts, rest, s, pos);
      m.Some? ==>
        && m.value.end <= pos + Widest(alts) + Width(rest)
        && (m.value.end == pos + Widest(alts) + Width(rest) ==>
              m.value.texts == [s[pos..pos + Widest(alts)]] + FixedTexts(rest, s, pos + Widest(alts)))
    decreases 2 * |rest| + 1, |alts|
  {
    if alts != [] {
      if AltMatches(alts[0], s, pos) && MatchGroups(rest, s, pos + |alts[0]|).Some? {
        MatchWithinWidth(rest, s, pos + |alts[0]|);
      } else {
        AlternativesWithinWidth(alts[1..], rest, s, pos);
      }
    }
  }

  // ---------------------------------------------------------------------
  // Which alternative a group takes.

  /** A group's match: the text `s[pos..pos + w]`, then the match `m` of the later groups. */
  function Consed(s: string, pos: nat, w: nat, m: Captures): Captures
    requires pos + w <= |s|
  {
    Captures([s[pos..pos + w]] + m.texts, m.end)
  }

  /** The first alternative that matches is taken when the later groups
      match after it. */
  lemma {:induction false} FirstMatchingAlternative(alts: seq<Alt>, j: nat, rest: seq<seq<Alt>>, s: string, pos: nat)
    requires pos <= |s| && j < |alts|
    requires forall i :: 0 <= i < j ==> !AltMatches(alts[i], s, pos)
    requires AltMatches(alts[j], s, pos) && MatchGroups(rest, s, pos + |alts[j]|).Some?
    ensures MatchAlternatives(alts, rest, s, pos) ==
      Some(Consed(s, pos, |alts[j]|, MatchGroups(rest, s, pos + |alts[j]|).value))
    decreases j
  {
    if j > 0 {
      assert !AltMatches(alts[0], s, pos);
      assert forall i :: 0 <= i < j - 1 ==> alts[1..][i] == alts[i + 1];
      FirstMatchingAlternative(alts[1..], j - 1, rest, s, pos);
    }
  }

  /** An alternative whose class `i` refuses the character there does not match. */
  lemma ClassRefuses(a: Alt, s: string, pos: nat, i: nat)
    requires i < |a| && pos + i < |s| && !(a[i].lo <= s[pos + i] <= a[i].hi)
    ensures !AltMatches(a, s, pos)
  {
  }

  lemma YearTakesFour(rest: seq<seq<Alt>>, s: string)
    requires 4 <= |s| && AllDigits(s)
    requires MatchGroups(rest, s, 4).Some?
    ensures MatchAlternatives(Year, rest, s, 0) == Some(Consed(s, 0, 4, MatchGroups(rest, s, 4).value))
  {
    FirstMatchingAlternative(Year, 0, rest, s, 0);
  }

  lemma MonthTakesTwo(rest: seq<seq<Alt>>, s: string, pos: nat)
    requires pos + 2 <= |s| && AllDigits(s) && 1 <= Field2(s, pos) <= 12
    requires MatchGroups(rest, s, pos + 2).Some?
    ensures MatchAlternatives(Month, rest, s, pos) == Some(Consed(s, pos, 2, MatchGroups(rest, s, pos + 2).value))
  {
    if s[pos] == '1' {
      FirstMatchingAlternative(Month, 0, rest, s, pos);
    } else {
      ClassRefuses(Month[0], s, pos, 0);
      FirstMatchingAlternative(Month, 1, rest, s, pos);
    }
  }

  lemma DayTakesTwo(rest: seq<seq<Alt>>, s: string, pos: nat)
    requires pos + 2 <= |s| && AllDigits(s) && 1 <= Field2(s, pos) <= 31
    requires MatchGroups(rest, s, pos + 2).Some?
    ensures MatchAlternatives(Day, rest, s, pos) == Some(Consed(s, pos, 2, MatchGroups(rest, s, pos + 2).value))
  {
    if s[pos] == '3' {
      FirstMatchingAlternative(Day, 0, rest, s, pos);
    } else if s[pos] == '1' || s[pos] == '2' {
      ClassRefuses(Day[0], s, pos, 0);
      FirstMatchingAlternative(Day, 1, rest, s, pos);
    } else {
      ClassRefuses(Day[0], s, pos, 0);
      ClassRefuses(Day[1], s, pos, 0);
      FirstMatchingAlternative(Day, 2, rest, s, pos);
    }
  }

  lemma HourTakesTwo(rest: seq<seq<Alt>>, s: string, pos: nat)
    requires pos + 2 <= |s| && AllDigits(s) && Field2(s, pos) <= 23
    requires MatchGroups(rest, s, pos + 2).Some?
    ensures MatchAlternatives(Hour, rest, s, pos) == Some(Consed(s, pos, 2, MatchGroups(rest, s, pos + 2).value))
  {
    if s[pos] == '2' {
      FirstMatchingAlternative(Hour, 0, rest, s, pos);
    } else {
      ClassRefuses(Hour[0], s, pos, 0);
      FirstMatchingAlternative(Hour, 1, rest, s, pos);
    }
  }

  /** A leading digit from 3 to 9 can only be a one-digit hour. */
  lemma HourTakesOne(rest: seq<seq<Alt>>, s: string, pos: nat)
    requires pos < |s| && '3' <= s[pos] <= '9'
    requires MatchGroups(rest, s, pos + 1).Some?
    ensures MatchAlternatives(Hour, rest, s, pos) == Some(Consed(s, pos, 1, MatchGroups(rest, s, pos + 1).value))
  {
    ClassRefuses(Hour[0], s, pos, 0);
    ClassRefuses(Hour[1], s, pos, 0);
    FirstMatchingAlternative(Hour, 2, rest, s, pos);
  }

  lemma MinuteTakesTwo(rest: seq<seq<Alt>>, s: string, pos: nat)
    requires pos + 2 <= |s| && AllDigits(s) && Field2(s, pos) <= 59
    requires MatchGroups(rest, s, pos + 2).Some?
    ensures MatchAlternatives(Minute, rest, s, pos) == Some(Consed(s, pos, 2, MatchGroups(rest, s, pos + 2).value))
  {
    FirstMatchingAlternative(Minute, 0, rest, s, pos);
  }

  lemma SecondTakesTwo(rest: seq<seq<Alt>>, s: string, pos: nat)
    requires pos + 2 <= |s| && AllDigits(s) && Field2(s, pos) <= 59
    requires MatchGroups(rest, s, pos + 2).Some?
    ensures MatchAlternatives(Second, rest, s, pos) == Some(Consed(s, pos, 2, MatchGroups(rest, s, pos + 2).value))
  {
    ClassRefuses(Second[0], s, pos, 0);
    FirstMatchingAlternative(Second, 1, rest, s, pos);
  }

  /** The last character of the string can only be a one-digit second. */
  lemma SecondTakesLast(s: string, pos: nat)
    requires pos + 1 == |s| && IsDigit(s[pos])
    ensures MatchAlternatives(Second, [], s, pos) == Some(Consed(s, pos, 1, Captures([], |s|)))
  {
    assert !AltMatches(Second[0], s, pos) && !AltMatches(Second[1], s, pos);
    FirstMatchingAlternative(Second, 2, [], s, pos);
  }

  // ---------------------------------------------------------------------
  // Exact 8- and 14-digit strings: the fixed-width parse of `Calendar`.

  lemma GroupValueOfDigit(s: string, pos: nat)
    requires pos < |s| && IsDigit(s[pos])
    ensures GroupValue(s[pos..pos + 1]) == (s[pos] - '0') as nat
  {
    var t := s[pos..pos + 1];
    assert t[..0] == [];
  }

  lemma GroupValueOfTwo(s: string, pos: nat)
    requires pos + 2 <= |s| && AllDigits(s)
    ensures GroupValue(s[pos..pos + 2]) == Field2(s, pos)
  {
    var t := s[pos..pos + 2];
    assert t[..1] == s[pos..pos + 1];
    assert t[1] == s[pos + 1] && IsDigit(t[1]);
    GroupValueOfDigit(s, pos);
  }

  lemma GroupValueOfFour(s: string)
    requires 4 <= |s| && AllDigits(s)
    ensures GroupValue(s[0..4]) == Field4(s)
  {
    var t, u := s[0..4], s[0..3];
    assert t[..3] == u && t[3] == s[3] && IsDigit(s[3]);
    assert u[..2] == s[0..2] && u[2] == s[2] && IsDigit(s[2]);
    GroupValueOfTwo(s, 0);
  }

  /** Every alternative is at most `w` wide and the first is exactly `w` wide. */
  lemma {:induction false} WidestIs(alts: seq<Alt>, w: nat)
    requires |alts| > 0 && |alts[0]| == w
    requires forall i :: 0 <= i < |alts| ==> |alts[i]| <= w
    ensures Widest(alts) == w
  {
    WidestAtMost(alts[1..], w);
  }

  lemma {:induction false} WidestAtMost(alts: seq<Alt>, w: nat)
    requires forall i :: 0 <= i < |alts| ==> |alts[i]| <= w
    ensures Widest(alts) <= w
  {
    if alts != [] {
      assert forall i :: 0 <= i < |alts[1..]| ==> alts[1..][i] == alts[i + 1];
      WidestAtMost(alts[1..], w);
    }
  }

  /** The widest width of each directive: four digits for the year, two for the others. */
  lemma DirectiveWidths()
    ensures Widest(Year) == 4 && Widest(Month) == 2 && Widest(Day) == 2
    ensures Widest(Hour) == 2 && Widest(Minute) == 2 && Widest(Second) == 2
  {
    WidestIs(Year, 4);
    WidestIs(Month, 2);
    WidestIs(Day, 2);
    WidestIs(Hour, 2);
    WidestIs(Minute, 2);
    WidestIs(Second, 2);
  }

  /** The first group of a non-empty sequence of groups. */
  lemma GroupsCons(g: seq<Alt>, rest: seq<seq<Alt>>, s: string, pos: nat)
    requires pos <= |s|
    ensures MatchGroups([g] + rest, s, pos) == MatchAlternatives(g, rest, s, pos)
    ensures Width([g] + rest) == Widest(g) + Width(rest)
    ensures pos + Width([g] + rest) <= |s| ==>
      FixedTexts([g] + rest, s, pos) == [s[pos..pos + Widest(g)]] + FixedTexts(rest, s, pos + Widest(g))
  {
    assert ([g] + rest)[0] == g && ([g] + rest)[1..] == rest;
  }

  /** When the first group takes its widest text and the later groups
      take theirs up to the end, the whole match is the fixed-width one. */
  lemma FixedMatchStep(g: seq<Alt>, rest: seq<seq<Alt>>, s: string, pos: nat)
    requires pos + Widest(g) + Width(rest) <= |s|
    requires MatchGroups(rest, s, pos + Widest(g)) == Some(Captures(FixedTexts(rest, s, pos + Widest(g)), |s|))
    requires MatchAlternatives(g, rest, s, pos) ==
      Some(Consed(s, pos, Widest(g), MatchGroups(rest, s, pos + Widest(g)).value))
    ensures pos + Width([g] + rest) <= |s|
    ensures MatchGroups([g] + rest, s, pos) == Some(Captures(FixedTexts([g] + rest, s, pos), |s|))
  {
    GroupsCons(g, rest, s, pos);
  }

  /** A valid 8-digit date is matched field by field at fixed width. */
  lemma EightDigitMatch(s: string)
    requires |s| == 8 && AllDigits(s)
    requires ValidDate(Field4(s), Field2(s, 4), Field2(s, 6))
    ensures Width(DateFormat) == 8
    ensures MatchGroups(DateFormat, s, 0) == Some(Captures(FixedTexts(DateFormat, s, 0), 8))
  {
    DirectiveWidths();
    DayTakesTwo([], s, 6);
    FixedMatchStep(Day, [], s, 6);
    MonthTakesTwo([Day] + [], s, 4);
    FixedMatchStep(Month, [Day] + [], s, 4);
    YearTakesFour([Month] + ([Day] + []), s);
    FixedMatchStep(Year, [Month] + ([Day] + []), s, 0);
  }

  /** A valid 14-digit date and time is matched field by field at fixed width. */
  lemma FourteenDigitMatch(s: string)
    requires |s| == 14 && AllDigits(s)
    requires ValidDate(Field4(s), Field2(s, 4), Field2(s, 6))
    requires ValidTime(Field2(s, 8), Field2(s, 10), Field2(s, 12))
    ensures Width(DateTimeFormat) == 14
    ensures MatchGroups(DateTimeFormat, s, 0) == Some(Captures(FixedTexts(DateTimeFormat, s, 0), 14))
  {
    DirectiveWidths();
    SecondTakesTwo([], s, 12);
    FixedMatchStep(Second, [], s, 12);
    MinuteTakesTwo(FromSecond, s, 10);
    FixedMatchStep(Minute, FromSecond, s, 10);
    HourTakesTwo(FromMinute, s, 8);
    FixedMatchStep(Hour, FromMinute, s, 8);
    DayTakesTwo(FromHour, s, 6);
    FixedMatchStep(Day, FromHour, s, 6);
    MonthTakesTwo(FromDay, s, 4);
    FixedMatchStep(Month, FromDay, s, 4);
    YearTakesFour(FromMonth, s);
    FixedMatchStep(Year, FromMonth, s, 0);
  }

  /** The fixed-width texts of `%Y%m%d`: four, two and two characters. */
  lemma DateFixedTexts(s: string)
    requires |s| == 8
    ensures Width(DateFormat) == 8
    ensures var f := FixedTexts(DateFormat, s, 0);
      |f| == 3 && f[0] == s[0..4] && f[1] == s[4..6] && f[2] == s[6..8]
  {
    DirectiveWidths();
    GroupsCons(Day, [], s, 6);
    GroupsCons(Month, [Day] + [], s, 4);
    GroupsCons(Year, [Month] + ([Day] + []), s, 0);
  }

  /** The fixed-width texts of `%Y%m%d%H%M%S`: four characters, then two for each field. */
  lemma DateTimeFixedTexts(s: string)
    requires |s| == 14
    ensures Width(DateTimeFormat) == 14
    ensures var f := FixedTexts(DateTimeFormat, s, 0);
      && |f| == 6 && f[0] == s[0..4] && f[1] == s[4..6] && f[2] == s[6..8]
      && f[3] == s[8..10] && f[4] == s[10..12] && f[5] == s[12..14]
  {
    DirectiveWidths();
    GroupsCons(Second, [], s, 12);
    GroupsCons(Minute, FromSecond, s, 10);
    GroupsCons(Hour, FromMinute, s, 8);
    GroupsCons(Day, FromHour, s, 6);
    GroupsCons(Month, FromDay, s, 4);
    GroupsCons(Year, FromMonth, s, 0);
  }

  /** On exactly 8 ASCII digits, `strptime(s, '%Y%m%d')` is the fixed-width parse. */
  lemma {:induction false} StrptimeDateOnEightDigits(s: string)
    requires |s| == 8 && AllDigits(s)
    ensures StrptimeDate(s) == ParseDate8(s)
  {
    GroupValueOfFour(s);
    GroupValueOfTwo(s, 4);
    GroupValueOfTwo(s, 6);
    DateFixedTexts(s);
    if ValidDate(Field4(s), Field2(s, 4), Field2(s, 6)) {
      EightDigitMatch(s);
    } else {
      MatchWithinWidth(DateFormat, s, 0);
    }
  }

  /** On exactly 14 ASCII digits, `strptime(s, '%Y%m%d%H%M%S')` is the fixed-width parse. */
  lemma {:induction false} StrptimeDateTimeOnFourteenDigits(s: string)
    requires |s| == 14 && AllDigits(s)
    ensures StrptimeDateTime(s) == ParseDateTime14(s)
  {
    GroupValueOfFour(s);
    GroupValueOfTwo(s, 4);
    GroupValueOfTwo(s, 6);
    GroupValueOfTwo(s, 8);
    GroupValueOfTwo(s, 10);
    GroupValueOfTwo(s, 12);
    DateTimeFixedTexts(s);
    if ValidDate(Field4(s), Field2(s, 4), Field2(s, 6)) && ValidTime(Field2(s, 8), Field2(s, 10), Field2(s, 12)) {
      FourteenDigitMatch(s);
    } else {
      MatchWithinWidth(DateTimeFormat, s, 0);
    }
  }

  // ---------------------------------------------------------------------
  // 13-character strings: one field takes a single digit.

  lemma DayStep(s: string, c: Captures)
    requires 8 <= |s| && AllDigits(s) && 1 <= Field2(s, 6) <= 31
    requires MatchGroups(FromHour, s, 8) == Some(c)
    ensures MatchGroups(FromDay, s, 6) == Some(Consed(s, 6, 2, c))
  {
    DayTakesTwo(FromHour, s, 6);
    GroupsCons(Day, FromHour, s, 6);
  }

  lemma MonthStep(s: string, c: Captures)
    requires 6 <= |s| && AllDigits(s) && 1 <= Field2(s, 4) <= 12
    requires MatchGroups(FromDay, s, 6) == Some(c)
    ensures MatchGroups(FromMonth, s, 4) == Some(Consed(s, 4, 2, c))
  {
    MonthTakesTwo(FromDay, s, 4);
    GroupsCons(Month, FromDay, s, 4);
  }

  lemma YearStep(s: string, c: Captures)
    requires 4 <= |s| && AllDigits(s)
    requires MatchGroups(FromMonth, s, 4) == Some(c)
    ensures MatchGroups(DateTimeFormat, s, 0) == Some(Consed(s, 0, 4, c))
  {
    YearTakesFour(FromMonth, s);
    GroupsCons(Year, FromMonth, s, 0);
  }

  /** A valid 8-digit date prefix takes its fixed-width texts ahead of
      whatever the time groups match from position 8. */
  lemma DatePrefixMatch(s: string, c: Captures)
    requires 8 <= |s| && AllDigits(s)
    requires ValidDate(Field4(s), Field2(s, 4), Field2(s, 6))
    requires MatchGroups(FromHour, s, 8) == Some(c)
    ensures MatchGroups(DateTimeFormat, s, 0) == Some(Captures([s[0..4], s[4..6], s[6..8]] + c.texts, c.end))
  {
    var day := Consed(s, 6, 2, c);
    DayStep(s, c);
    var month := Consed(s, 4, 2, day);
    MonthStep(s, day);
    YearStep(s, month);
    assert [s[0..4]] + ([s[4..6]] + ([s[6..8]] + c.texts)) == [s[0..4], s[4..6], s[6..8]] + c.texts;
  }

  /** The group values of a whole-string match that took the fixed-width
      date texts and the time texts `time`. */
  lemma DateTimeValuesOfMatch(s: string, time: seq<string>)
    requires 8 <= |s| && AllDigits(s) && |time| == 3
    requires MatchGroups(DateTimeFormat, s, 0) == Some(Captures([s[0..4], s[4..6], s[6..8]] + time, |s|))
    ensures GroupValues(DateTimeFormat, s) ==
      Ok([Field4(s), Field2(s, 4), Field2(s, 6), GroupValue(time[0]), GroupValue(time[1]), GroupValue(time[2])])
  {
    var texts := [s[0..4], s[4..6], s[6..8]] + time;
    assert texts[0] == s[0..4] && texts[1] == s[4..6] && texts[2] == s[6..8];
    assert texts[3] == time[0] && texts[4] == time[1] && texts[5] == time[2];
    GroupValueOfFour(s);
    GroupValueOfTwo(s, 4);
    GroupValueOfTwo(s, 6);
    var v := GroupValues(DateTimeFormat, s).value;
    assert |v| == 6;
    assert forall i :: 0 <= i < 6 ==> v[i] == GroupValue(texts[i]);
    assert v[0] == Field4(s);
    assert v[3] == GroupValue(time[0]);
    assert v == [Field4(s), Field2(s, 4), Field2(s, 6), GroupValue(time[0]), GroupValue(time[1]), GroupValue(time[2])];
  }

  /** From position 8, a ninth digit from 3 to 9 is the hour and the next
      four digits are minute and second. */
  lemma OneDigitHourTimeMatch(s: string)
    requires |s| == 13 && AllDigits(s)
    requires '3' <= s[8] <= '9' && Field2(s, 9) <= 59 && Field2(s, 11) <= 59
    ensures MatchGroups(FromHour, s, 8) == Some(Captures([s[8..9], s[9..11], s[11..13]], 13))
  {
    var second := Consed(s, 11, 2, Captures([], 13));
    SecondTakesTwo([], s, 11);
    GroupsCons(Second, [], s, 11);
    assert MatchGroups(FromSecond, s, 11) == Some(second);
    var minute := Consed(s, 9, 2, second);
    MinuteTakesTwo(FromSecond, s, 9);
    GroupsCons(Minute, FromSecond, s, 9);
    assert MatchGroups(FromMinute, s, 9) == Some(minute);
    HourTakesOne(FromMinute, s, 8);
    GroupsCons(Hour, FromMinute, s, 8);
    assert Consed(s, 8, 1, minute) == Captures([s[8..9], s[9..11], s[11..13]], 13);
  }

  /** From position 8, two digits forming an hour up to 23 are the hour,
      the next two the minute and the last digit alone the second. */
  lemma OneDigitSecondTimeMatch(s: string)
    requires |s| == 13 && AllDigits(s)
    requires Field2(s, 8) <= 23 && Field2(s, 10) <= 59
    ensures MatchGroups(FromHour, s, 8) == Some(Captures([s[8..10], s[10..12], s[12..13]], 13))
  {
    var second := Consed(s, 12, 1, Captures([], 13));
    SecondTakesLast(s, 12);
    GroupsCons(Second, [], s, 12);
    assert MatchGroups(FromSecond, s, 12) == Some(second);
    var minute := Consed(s, 10, 2, second);
    MinuteTakesTwo(FromSecond, s, 10);
    GroupsCons(Minute, FromSecond, s, 10);
    assert MatchGroups(FromMinute, s, 10) == Some(minute);
    HourTakesTwo(FromMinute, s, 8);
    GroupsCons(Hour, FromMinute, s, 8);
    assert Consed(s, 8, 2, minute) == Captures([s[8..10], s[10..12], s[12..13]], 13);
  }

  /** A 13-digit string whose ninth digit is 3 to 9 reads that digit as
      the hour, then two digits each for minute and second. */
  lemma {:induction false} ThirteenDigitsOneDigitHour(s: string)
    requires |s| == 13 && AllDigits(s)
    requires ValidDate(Field4(s), Field2(s, 4), Field2(s, 6))
    requires '3' <= s[8] <= '9' && Field2(s, 9) <= 59 && Field2(s, 11) <= 59
    ensures StrptimeDateTime(s) ==
      Ok(Instant(Field4(s), Field2(s, 4), Field2(s, 6), (s[8] - '0') as nat, Field2(s, 9), Field2(s, 11)))
  {
    var time := [s[8..9], s[9..11], s[11..13]];
    OneDigitHourTimeMatch(s);
    DatePrefixMatch(s, Captures(time, 13));
    DateTimeValuesOfMatch(s, time);
    GroupValueOfDigit(s, 8);
    GroupValueOfTwo(s, 9);
    GroupValueOfTwo(s, 11);
  }

  /** A 13-digit string whose ninth and tenth digits form an hour up to 23
      reads them as the hour, the next two digits as the minute and the
      last digit alone as the second. */
  lemma {:induction false} ThirteenDigitsOneDigitSecond(s: string)
    requires |s| == 13 && AllDigits(s)
    requires ValidDate(Field4(s), Field2(s, 4), Field2(s, 6))
    requires Field2(s, 8) <= 23 && Field2(s, 10) <= 59
    ensures StrptimeDateTime(s) ==
      Ok(Instant(Field4(s), Field2(s, 4), Field2(s, 6), Field2(s, 8), Field2(s, 10), (s[12] - '0') as nat))
  {
    var time := [s[8..10], s[10..12], s[12..13]];
    OneDigitSecondTimeMatch(s);
    DatePrefixMatch(s, Captures(time, 13));
    DateTimeValuesOfMatch(s, time);
    GroupValueOfTwo(s, 8);
    GroupValueOfTwo(s, 10);
    GroupValueOfDigit(s, 12);
  }
}
