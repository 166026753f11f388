/** The nearest-acquisition scan the drivers run over a site's Sentinel-2
    listing. Each name is turned into a key (a day ordinal or an instant in
    seconds, or an error when the name does not parse); the scan keeps the
    first name whose signed difference `key - target` has the smallest
    magnitude, replacing the current choice only on a strictly smaller
    magnitude. */
module Matching {
  import opened Values
  import opened Text
  import opened Calendar
  import opened FileNames
  import Strptime

  /** The keys of `names`, in listing order, or the error of the first name
      whose key cannot be computed. */
  function Keys(names: seq<string>, key: string -> Result<int>): (r: Result<seq<int>>)
    ensures r.Ok? ==> |r.value| == |names|
    ensures r.Ok? ==> forall i :: 0 <= i < |names| ==> key(names[i]) == Ok(r.value[i])
    decreases |names|
  {
    if |names| == 0 then Ok([])
    else
      var head :- key(names[0]);
      var tail :- Keys(names[1..], key);
      assert forall i :: 1 <= i < |names| ==> names[1..][i - 1] == names[i];
      Ok([head] + tail)
  }

  /** Keys fail exactly when some name's key fails. */
  lemma {:induction false} KeysFailIffSomeKeyFails(names: seq<string>, key: string -> Result<int>)
    ensures Keys(names, key).Err? <==> exists i :: 0 <= i < |names| && key(names[i]).Err?
    decreases |names|
  {
    if |names| > 0 {
      KeysFailIffSomeKeyFails(names[1..], key);
      if key(names[0]).Ok? {
        if exists i :: 0 <= i < |names| && key(names[i]).Err? {
          var i :| 0 <= i < |names| && key(names[i]).Err?;
          assert i > 0 && names[1..][i - 1] == names[i];
        }
        if exists i :: 0 <= i < |names[1..]| && key(names[1..][i]).Err? {
          var i :| 0 <= i < |names[1..]| && key(names[1..][i]).Err?;
          assert names[1..][i] == names[i + 1];
        }
      }
    }
  }

  /** Extending the listing by one name: its key is appended, or the first
      error stays. */
  lemma {:induction false} KeysSnoc(names: seq<string>, x: string, key: string -> Result<int>)
    ensures Keys(names, key).Err? ==> Keys(names + [x], key) == Err(Keys(names, key).error)
    ensures Keys(names, key).Ok? && key(x).Err? ==> Keys(names + [x], key) == Err(key(x).error)
    ensures Keys(names, key).Ok? && key(x).Ok? ==> Keys(names + [x], key) == Ok(Keys(names, key).value + [key(x).value])
    decreases |names|
  {
    if |names| == 0 {
      assert names + [x] == [x];
      assert [x][1..] == [];
      assert Keys([x][1..], key) == Ok([]);
      assert Keys(names, key) == Ok([]);
      if key(x).Ok? {
        var v := key(x).value;
        assert [v] + [] == [] + [v];
      }
    } else {
      var ext := names + [x];
      assert ext[0] == names[0];
      assert ext[1..] == names[1..] + [x];
      KeysSnoc(names[1..], x, key);
      match key(names[0])
      case Err(e) =>
      case Ok(h) =>
        assert Keys(ext, key) == (match Keys(ext[1..], key) case Err(e) => Err(e) case Ok(t) => Ok([h] + t));
        assert Keys(names, key) == (match Keys(names[1..], key) case Err(e) => Err(e) case Ok(t) => Ok([h] + t));
        if Keys(names[1..], key).Ok? && key(x).Ok? {
          var t, v := Keys(names[1..], key).value, key(x).value;
          assert [h] + (t + [v]) == ([h] + t) + [v];
        }
    }
  }

  /** Index `k` holds the first value of smallest magnitude in `diffs`. */
  predicate IsFirstNearest(diffs: seq<int>, k: nat)
  {
    && k < |diffs|
    && (forall i :: 0 <= i < |diffs| ==> Abs(diffs[k]) <= Abs(diffs[i]))
    && (forall i :: 0 <= i < k ==> Abs(diffs[i]) > Abs(diffs[k]))
  }

  /** The signed differences `key - target`. */
  function Differences(keys: seq<int>, target: int): (d: seq<int>)
    ensures |d| == |keys|
    ensures forall i :: 0 <= i < |keys| ==> d[i] == keys[i] - target
  {
    seq(|keys|, i requires 0 <= i < |keys| => keys[i] - target)
  }

  /** There is only one first-nearest index: ties go to the earliest. */
  lemma FirstNearestUnique(diffs: seq<int>, k1: nat, k2: nat)
    requires IsFirstNearest(diffs, k1) && IsFirstNearest(diffs, k2)
    ensures k1 == k2
  {
    var a1, a2 := Abs(diffs[k1]), Abs(diffs[k2]);
    assert a1 <= a2 && a2 <= a1;
  }

  lemma DifferencesSnoc(keys: seq<int>, v: int, target: int)
    ensures Differences(keys + [v], target) == Differences(keys, target) + [v - target]
  {
    assert forall i :: 0 <= i < |keys| ==> (keys + [v])[i] == keys[i];
  }

  /** One scan step: a strictly smaller magnitude takes over, anything else
      keeps the current choice. */
  lemma NearestExtend(diffs: seq<int>, best: nat, d: int)
    requires IsFirstNearest(diffs, best)
    ensures Abs(d) < Abs(diffs[best]) ==> IsFirstNearest(diffs + [d], |diffs|)
    ensures Abs(d) >= Abs(diffs[best]) ==> IsFirstNearest(diffs + [d], best)
  {
    var e := diffs + [d];
    assert forall i :: 0 <= i < |diffs| ==> e[i] == diffs[i];
  }

  /** The image the scan settles on and its signed difference. */
  datatype Choice = Choice(index: nat, diff: int)

  /** The first index of smallest magnitude, found from the back: the answer
      for the prefix wins unless the last value is strictly smaller. */
  function NearestIndex(diffs: seq<int>): (k: nat)
    requires |diffs| > 0
    ensures IsFirstNearest(diffs, k)
    decreases |diffs|
  {
    if |diffs| == 1 then 0
    else
      var init := diffs[..|diffs| - 1];
      var last := diffs[|diffs| - 1];
      var best := NearestIndex(init);
      assert diffs == init + [last];
      NearestExtend(init, best, last);
      if Abs(last) < Abs(init[best]) then |diffs| - 1 else best
  }

  /** The choice the scan is meant to make: the first name whose key is
      nearest to the target, or the first key error. */
  function NearestChoice(names: seq<string>, key: string -> Result<int>, target: int): (r: Result<Choice>)
    requires |names| > 0
    ensures r.Err? <==> Keys(names, key).Err?
    ensures r.Ok? ==> r.value.index < |names|
  {
    var keys :- Keys(names, key);
    var diffs := Differences(keys, target);
    var k := NearestIndex(diffs);
    Ok(Choice(k, diffs[k]))
  }

  /** The scan loop: `final = names[0]`, then for each `j` compute the key
      (raising on a name that does not parse), and for `j > 0` replace the
      choice when `abs(diff) < abs(final_diff)`. */
  method NearestScan(names: seq<string>, key: string -> Result<int>, target: int) returns (r: Result<Choice>)
    requires |names| > 0
    ensures Keys(names, key).Err? ==> r == Err(Keys(names, key).error)
    ensures Keys(names, key).Ok? ==>
      && r.Ok?
      && IsFirstNearest(Differences(Keys(names, key).value, target), r.value.index)
      && r.value.diff == Keys(names, key).value[r.value.index] - target
    ensures r == NearestChoice(names, key, target)
  {
    var first := key(names[0]);
    if first.Err? {
      ScanError(names, 0, key);
      return Err(first.error);
    }
    ScanStart(names, key, target);
    ghost var keys := [first.value];
    var best: nat, bestDiff := 0, first.value - target;
    var j := 1;
    while j < |names|
      invariant Scanned(names, key, target, j, keys, best, bestDiff)
      decreases |names| - j
    {
      var k := key(names[j]);
      if k.Err? {
        ScanError(names, j, key);
        return Err(k.error);
      }
      ScanStep(names, key, target, j, keys, best, bestDiff);
      if Abs(k.value - target) < Abs(bestDiff) {
        best, bestDiff := j, k.value - target;
      }
      keys := keys + [k.value];
      j := j + 1;
    }
    ScanResult(names, key, target, keys, best, bestDiff);
    r := Ok(Choice(best, bestDiff));
  }

  /** The state of the scan after `j` names: their keys, and the first
      nearest of them with its difference. */
  predicate Scanned(names: seq<string>, key: string -> Result<int>, target: int, j: nat, keys: seq<int>,
                    best: nat, bestDiff: int)
  {
    && 1 <= j <= |names|
    && Keys(names[..j], key) == Ok(keys)
    && |keys| == j && best < j
    && bestDiff == keys[best] - target
    && IsFirstNearest(Differences(keys, target), best)
  }

  /** Before the loop: the keys of the first name alone. */
  lemma ScanStart(names: seq<string>, key: string -> Result<int>, target: int)
    requires |names| > 0 && key(names[0]).Ok?
    ensures Scanned(names, key, target, 1, [key(names[0]).value], 0, key(names[0]).value - target)
  {
    assert names[..1] == [] + [names[0]];
    assert Keys([], key) == Ok([]);
    KeysSnoc([], names[0], key);
    assert [] + [key(names[0]).value] == [key(names[0]).value];
  }

  /** The scan stops at the first name whose key fails, with that error. */
  lemma ScanError(names: seq<string>, j: nat, key: string -> Result<int>)
    requires j < |names|
    requires j > 0 ==> Keys(names[..j], key).Ok?
    requires key(names[j]).Err?
    ensures Keys(names, key) == Err(key(names[j]).error)
  {
    assert names[..j + 1] == names[..j] + [names[j]];
    if j == 0 {
      assert names[..0] == [];
      assert Keys([], key) == Ok([]);
    }
    KeysSnoc(names[..j], names[j], key);
    KeysPrefixError(names, j + 1, key);
  }

  /** One step of the scan over name `j` whose key is known. */
  lemma ScanStep(names: seq<string>, key: string -> Result<int>, target: int, j: nat, keys: seq<int>,
                 best: nat, bestDiff: int)
    requires j < |names| && Scanned(names, key, target, j, keys, best, bestDiff)
    requires key(names[j]).Ok?
    ensures var d := key(names[j]).value - target;
      Scanned(names, key, target, j + 1, keys + [key(names[j]).value],
              if Abs(d) < Abs(bestDiff) then j else best, if Abs(d) < Abs(bestDiff) then d else bestDiff)
  {
    var v := key(names[j]).value;
    assert names[..j + 1] == names[..j] + [names[j]];
    KeysSnoc(names[..j], names[j], key);
    DifferencesSnoc(keys, v, target);
    NearestExtend(Differences(keys, target), best, v - target);
  }

  /** After the loop: the scan's choice is the specified one. */
  lemma ScanResult(names: seq<string>, key: string -> Result<int>, target: int, keys: seq<int>,
                   best: nat, bestDiff: int)
    requires Scanned(names, key, target, |names|, keys, best, bestDiff)
    ensures Keys(names, key) == Ok(keys)
    ensures IsFirstNearest(Differences(keys, target), best) && bestDiff == keys[best] - target
    ensures NearestChoice(names, key, target) == Ok(Choice(best, bestDiff))
  {
    assert names[..|names|] == names;
    FirstNearestUnique(Differences(keys, target), best, NearestIndex(Differences(keys, target)));
  }

  /** An error in the keys of a prefix is the error of the whole listing. */
  lemma {:induction false} KeysPrefixError(names: seq<string>, n: nat, key: string -> Result<int>)
    requires n <= |names|
    requires Keys(names[..n], key).Err?
    ensures Keys(names, key) == Err(Keys(names[..n], key).error)
    decreases |names| - n
  {
    if n < |names| {
      assert names[..n + 1] == names[..n] + [names[n]];
      KeysSnoc(names[..n], names[n], key);
      KeysPrefixError(names, n + 1, key);
    } else {
      assert names[..n] == names;
    }
  }

  /** `Main.py`'s window gate: the site is skipped when the signed day
      difference `(S2 - FLEX).days` exceeds the window. */
  predicate OutsideWindow(diffDays: int, windowDays: int)
  {
    diffDays > windowDays
  }

  /** The gate is one-sided: an S2 image taken on or before the FLEX day is
      never rejected, however far back it lies, while an image later than the
      window is always rejected. */
  lemma WindowIsOneSided(diffDays: int, windowDays: int)
    requires windowDays >= 0
    ensures diffDays <= 0 ==> !OutsideWindow(diffDays, windowDays)
    ensures diffDays > windowDays <==> OutsideWindow(diffDays, windowDays)
    ensures OutsideWindow(diffDays, windowDays) ==> Abs(diffDays) > windowDays
  {
  }

  /** `Main.py`'s key: `datetime.strptime(name.split('_')[2].split('T')[0], '%Y%m%d')`,
      as a day ordinal. */
  function S2DayKey(name: string): (r: Result<int>)
    ensures S2DateToken(name).Err? ==> r == Err(IndexError)
    ensures S2DateToken(name).Ok? ==> r == Strptime.StrptimeDate(S2DateToken(name).value)
  {
    var token :- S2DateToken(name);
    Strptime.StrptimeDate(token)
  }

  /** The product name `S2A_MSIL1C_<date>T<time>_<rest>` is keyed by its
      8-digit date, parsed at fixed width. */
  lemma S2DayKeyOfProductName(level: string, date: string, time: string, rest: string)
    requires '_' !in level
    requires |date| == 8 && AllDigits(date) && AllDigits(time)
    ensures S2DayKey("S2A" + "_" + level + "_" + date + "T" + time + "_" + rest) == ParseDate8(date)
  {
    S2TokensOfProductName("S2A", level, date, time, rest);
    Strptime.StrptimeDateOnEightDigits(date);
  }

  /** The key of `main_improve.py` and `Archived/Main.py`:
      `datetime.strptime(name[0:8] + name[-6:], '%Y%m%d%H%M%S')`, in seconds. */
  function S2InstantKey(name: string): (r: Result<int>)
    ensures r.Err? ==> r.error == ValueError
  {
    Strptime.StrptimeDateTime(Take(name, 8) + TakeLast(name, 6))
  }

  /** A name that starts with 8 characters and ends with 6 is keyed by
      them alone; when they are digits the key is the instant they spell. */
  lemma S2InstantKeyOfName(date: string, middle: string, time: string)
    requires |date| == 8 && |time| == 6
    ensures S2InstantKey(date + middle + time) == Strptime.StrptimeDateTime(date + time)
    ensures AllDigits(date + time) ==> S2InstantKey(date + middle + time) == ParseDateTime14(date + time)
  {
    var name := date + middle + time;
    assert Take(name, 8) == date;
    assert TakeLast(name, 6) == time;
    if AllDigits(date + time) {
      Strptime.StrptimeDateTimeOnFourteenDigits(date + time);
    }
  }

  /** The target of those drivers: the `FLEX Date` and `FLEX Time` columns of
      the FLEX table, read back as integers and concatenated with `str`. A
      time before 10:00 loses its leading zero, so the string is shorter
      than 14 characters and `strptime` may read one of its fields as a
      single digit. */
  function FlexInstant(date: nat, time: nat): (r: Result<int>)
    ensures r.Err? ==> r.error == ValueError
  {
    Strptime.StrptimeDateTime(NatToString(date) + NatToString(time))
  }

  /** From 10:00 on, the FLEX date and time give back the instant they record. */
  lemma {:induction false} FlexInstantFromTen(y: nat, m: nat, d: nat, h: nat, mi: nat, sec: nat)
    requires 1000 <= y < 10000 && ValidDate(y, m, d)
    requires ValidTime(h, mi, sec) && h >= 10
    ensures FlexInstant(y * 10000 + m * 100 + d, h * 10000 + mi * 100 + sec) == Ok(Instant(y, m, d, h, mi, sec))
  {
    NatToStringOfDate(y, m, d);
    NatToStringOfTime(h, mi, sec);
    NatToStringTwoDigits(h);
    var s := NatToString(y * 10000 + m * 100 + d) + NatToString(h * 10000 + mi * 100 + sec);
    assert s == DateTimeText(y, m, d, h, mi, sec);
    Strptime.StrptimeDateTimeOnFourteenDigits(s);
    DateTimeTextRoundTrip(y, m, d, h, mi, sec);
  }

  /** `str(date) + str(time)` for a time before 10:00: the date text, the
      hour's single digit, then two digits each for minute and second. */
  lemma {:induction false} ShortFlexText(y: nat, m: nat, d: nat, h: nat, mi: nat, sec: nat)
    requires 1000 <= y < 10000 && ValidDate(y, m, d)
    requires ValidTime(h, mi, sec) && 1 <= h <= 9
    ensures NatToString(y * 10000 + m * 100 + d) + NatToString(h * 10000 + mi * 100 + sec)
         == DateText(y, m, d) + [DigitChar(h)] + Pad2(mi) + Pad2(sec)
  {
    NatToStringOfDate(y, m, d);
    NatToStringOfTime(h, mi, sec);
  }

  /** From 03:00 to 09:59 the hour has one digit, and `%H` can only take
      that digit, so the instant is still read correctly. */
  lemma {:induction false} FlexInstantOneDigitHour(y: nat, m: nat, d: nat, h: nat, mi: nat, sec: nat)
    requires 1000 <= y < 10000 && ValidDate(y, m, d)
    requires ValidTime(h, mi, sec) && 3 <= h <= 9
    ensures FlexInstant(y * 10000 + m * 100 + d, h * 10000 + mi * 100 + sec) == Ok(Instant(y, m, d, h, mi, sec))
  {
    ShortFlexText(y, m, d, h, mi, sec);
    ShortTimeTextFields(y, m, d, h, mi, sec);
    Strptime.ThirteenDigitsOneDigitHour(DateText(y, m, d) + [DigitChar(h)] + Pad2(mi) + Pad2(sec));
  }

  /** As written, a FLEX time from 01:00 to 02:59 is misread: its first two
      digits are taken for the hour, so the hour, minute and second all
      shift by one digit (01:23:45 is read as 12:34:05), and the instant
      differs from the one the FLEX image records. */
  lemma {:induction false} FlexInstantMisreadsEarlyHour(y: nat, m: nat, d: nat, h: nat, mi: nat, sec: nat)
    requires 1000 <= y < 10000 && ValidDate(y, m, d)
    requires ValidTime(h, mi, sec) && 1 <= h <= 2
    requires 10 * h + mi / 10 <= 23 && mi % 10 <= 5
    ensures FlexInstant(y * 10000 + m * 100 + d, h * 10000 + mi * 100 + sec)
         == Ok(Instant(y, m, d, 10 * h + mi / 10, 10 * (mi % 10) + sec / 10, sec % 10))
    ensures Instant(y, m, d, 10 * h + mi / 10, 10 * (mi % 10) + sec / 10, sec % 10) != Instant(y, m, d, h, mi, sec)
  {
    ShortFlexText(y, m, d, h, mi, sec);
    ShortTimeTextFields(y, m, d, h, mi, sec);
    Strptime.ThirteenDigitsOneDigitSecond(DateText(y, m, d) + [DigitChar(h)] + Pad2(mi) + Pad2(sec));
  }

  /** The evidently intended target: the time zero-padded to six digits
      (`f"{time:06d}"`) before it is parsed. */
  function FlexInstantPadded(date: nat, time: nat): (r: Result<int>)
    ensures r.Err? ==> r.error == ValueError
  {
    Strptime.StrptimeDateTime(NatToString(date) + ZeroPad6(time))
  }

  /** Padded, every valid FLEX date and time give back the instant they record. */
  lemma {:induction false} FlexInstantPaddedCorrect(y: nat, m: nat, d: nat, h: nat, mi: nat, sec: nat)
    requires 1000 <= y < 10000 && ValidDate(y, m, d) && ValidTime(h, mi, sec)
    ensures FlexInstantPadded(y * 10000 + m * 100 + d, h * 10000 + mi * 100 + sec) == Ok(Instant(y, m, d, h, mi, sec))
  {
    var time := h * 10000 + mi * 100 + sec;
    assert time / 10000 == h && time / 100 % 100 == mi && time % 100 == sec;
    NatToStringOfDate(y, m, d);
    var s := NatToString(y * 10000 + m * 100 + d) + ZeroPad6(time);
    assert s == DateTimeText(y, m, d, h, mi, sec);
    Strptime.StrptimeDateTimeOnFourteenDigits(s);
    DateTimeTextRoundTrip(y, m, d, h, mi, sec);
  }
}
