/** The string operations the pipeline applies to file names and tokens:
    Python's `str.split`, slicing, `str.isdigit`, `str.endswith` and `str(int)`,
    over ASCII characters. */
module Text {

  predicate IsDigit(c: char)
  {
    '0' <= c <= '9'
  }

  /** Every character is a decimal digit (a regular-expression `\d{n}` run). */
  predicate AllDigits(s: string)
  {
    forall i :: 0 <= i < |s| ==> IsDigit(s[i])
  }

  /** Python's `str.isdigit()`: non-empty and made of digits only. */
  predicate IsDigitString(s: string)
  {
    |s| > 0 && AllDigits(s)
  }

  /** Python's `s.endswith(suffix)`. */
  predicate EndsWith(s: string, suffix: string)
  {
    |suffix| <= |s| && s[|s| - |suffix|..] == suffix
  }

  /** Python's `s.split(sep)` for a one-character separator: the pieces between
      separators, empty pieces kept, always at least one piece. */
  function Split(s: string, sep: char): (parts: seq<string>)
    ensures |parts| >= 1
    decreases |s|
  {
    if |s| == 0 then [""]
    else if s[0] == sep then [""] + Split(s[1..], sep)
    else
      var rest := Split(s[1..], sep);
      [[s[0]] + rest[0]] + rest[1..]
  }

  /** Python's `sep.join(parts)`, the inverse of `Split`. */
  function Join(parts: seq<string>, sep: char): string
    requires |parts| >= 1
    decreases |parts|
  {
    if |parts| == 1 then parts[0] else parts[0] + [sep] + Join(parts[1..], sep)
  }

  /** No piece of a split contains the separator. */
  lemma {:induction false} SplitPiecesHaveNoSeparator(s: string, sep: char)
    ensures forall k :: 0 <= k < |Split(s, sep)| ==> sep !in Split(s, sep)[k]
    decreases |s|
  {
    if |s| > 0 {
      SplitPiecesHaveNoSeparator(s[1..], sep);
    }
  }

  /** Joining the pieces of a split with the same separator gives back the string. */
  lemma {:induction false} JoinSplit(s: string, sep: char)
    ensures Join(Split(s, sep), sep) == s
    decreases |s|
  {
    if |s| > 0 {
      var rest := Split(s[1..], sep);
      JoinSplit(s[1..], sep);
      if s[0] == sep {
        assert Split(s, sep) == [""] + rest;
        assert ([""] + rest)[1..] == rest;
      } else {
        var parts := Split(s, sep);
        assert parts == [[s[0]] + rest[0]] + rest[1..];
        if |rest| == 1 {
          assert Join(parts, sep) == [s[0]] + rest[0];
        } else {
          assert parts[1..] == rest[1..];
          assert Join(rest, sep) == rest[0] + [sep] + Join(rest[1..], sep);
        }
      }
    }
  }

  /** A string without the separator splits into itself. */
  lemma {:induction false} SplitWithoutSeparator(s: string, sep: char)
    requires sep !in s
    ensures Split(s, sep) == [s]
    decreases |s|
  {
    if |s| > 0 {
      assert sep !in s[1..] by {
        forall i | 0 <= i < |s[1..]| ensures s[1..][i] != sep { assert s[1..][i] == s[i + 1]; }
      }
      SplitWithoutSeparator(s[1..], sep);
      assert [s[0]] + s[1..] == s;
    }
  }

  /** Splitting `a + sep + b` splits `a` and `b` separately. */
  lemma {:induction false} SplitAround(a: string, b: string, sep: char)
    ensures Split(a + [sep] + b, sep) == Split(a, sep) + Split(b, sep)
    decreases |a|
  {
    if |a| == 0 {
      assert a + [sep] + b == [sep] + b;
      SplitCons(sep, b, sep);
    } else {
      var t := a[1..] + [sep] + b;
      var ra := Split(a[1..], sep);
      var rb := Split(b, sep);
      if a[0] == sep {
        calc {
          Split(a + [sep] + b, sep);
          { assert a + [sep] + b == [a[0]] + t; }
          Split([a[0]] + t, sep);
          { SplitCons(a[0], t, sep); SplitAround(a[1..], b, sep); }
          [""] + (ra + rb);
          ([""] + ra) + rb;
          { SplitCons(a[0], a[1..], sep); assert a == [a[0]] + a[1..]; }
          Split(a, sep) + rb;
        }
      } else {
        calc {
          Split(a + [sep] + b, sep);
          { assert a + [sep] + b == [a[0]] + t; }
          Split([a[0]] + t, sep);
          { SplitCons(a[0], t, sep); SplitAround(a[1..], b, sep); }
          [[a[0]] + (ra + rb)[0]] + (ra + rb)[1..];
          { assert (ra + rb)[0] == ra[0]; assert (ra + rb)[1..] == ra[1..] + rb; }
          [[a[0]] + ra[0]] + (ra[1..] + rb);
          ([[a[0]] + ra[0]] + ra[1..]) + rb;
          { SplitCons(a[0], a[1..], sep); assert a == [a[0]] + a[1..]; }
          Split(a, sep) + rb;
        }
      }
    }
  }

  /** One step of `Split`: the first character either ends the first piece
      or joins it. */
  lemma SplitCons(c: char, t: string, sep: char)
    ensures Split([c] + t, sep) ==
      if c == sep then [""] + Split(t, sep) else [[c] + Split(t, sep)[0]] + Split(t, sep)[1..]
  {
    assert ([c] + t)[0] == c && ([c] + t)[1..] == t;
  }

  /** `s.split(sep)[0]`, the text before the first separator. */
  function BeforeFirst(s: string, sep: char): string
  {
    Split(s, sep)[0]
  }

  /** Python's `s[0:n]` for n >= 0 (clamped at the end of the string). */
  function Take(s: string, n: nat): (r: string)
    ensures |r| == if n <= |s| then n else |s|
    ensures r <= s
  {
    if n <= |s| then s[..n] else s
  }

  /** Python's `s[-n:]` for n > 0 (the whole string when it is shorter). */
  function TakeLast(s: string, n: nat): (r: string)
    requires n > 0
    ensures |r| == if n <= |s| then n else |s|
    ensures forall i :: 0 <= i < |r| ==> r[i] == s[|s| - |r| + i]
  {
    if n <= |s| then s[|s| - n..] else s
  }

  /** The value of a digit string read in base 10. */
  function DigitsValue(s: string): nat
    requires AllDigits(s)
    decreases |s|
  {
    if |s| == 0 then 0
    else 10 * DigitsValue(s[..|s| - 1]) + (s[|s| - 1] - '0') as nat
  }

  function DigitChar(d: nat): (c: char)
    requires d < 10
    ensures IsDigit(c) && (c - '0') as nat == d
  {
    ('0' as int + d) as char
  }

  /** Python's `str(n)` for a natural number: its decimal digits, no leading zero. */
  function NatToString(n: nat): string
    decreases n
  {
    if n < 10 then [DigitChar(n)] else NatToString(n / 10) + [DigitChar(n % 10)]
  }

  /** Python's `str(i)` for any int. */
  function IntToString(i: int): string
  {
    if i < 0 then "-" + NatToString(-i) else NatToString(i)
  }

  /** `str(n)` of a natural number is a digit string that reads back as `n`. */
  lemma {:induction false} NatToStringRoundTrip(n: nat)
    ensures IsDigitString(NatToString(n))
    ensures DigitsValue(NatToString(n)) == n
    decreases n
  {
    if n >= 10 {
      NatToStringRoundTrip(n / 10);
      var s := NatToString(n);
      assert s == NatToString(n / 10) + [DigitChar(n % 10)];
      assert s[..|s| - 1] == NatToString(n / 10);
    }
  }

  /** `str(i)` of a negative int is not a digit string (it starts with '-'). */
  lemma NegativeIntStringIsNotDigits(i: int)
    requires i < 0
    ensures !IsDigitString(IntToString(i))
  {
    assert IntToString(i)[0] == '-';
  }
}
