/** The validation statistics of `cal_statistic`, over exact reals. `x` is the
    FLEX column and `y` the FLOX column of one metric in the merged table; both
    have one entry per merged row. A NumPy result that is not a finite number
    (the mean of an empty series, a division by a zero sum of squares) is
    `None`. RMSE is stated through its square. */
module Statistics {
  import opened Values

  function Sum(s: seq<real>): real
    decreases |s|
  {
    if |s| == 0 then 0.0 else s[0] + Sum(s[1..])
  }

  /** `Series.mean()`; NaN for an empty series. */
  function Mean(s: seq<real>): (m: Option<real>)
    ensures m.None? <==> |s| == 0
  {
    if |s| == 0 then None else Some(Sum(s) / |s| as real)
  }

  /** `x - y`, entry by entry. */
  function Residuals(x: seq<real>, y: seq<real>): (d: seq<real>)
    requires |x| == |y|
    ensures |d| == |x|
    ensures forall i :: 0 <= i < |x| ==> d[i] == x[i] - y[i]
  {
    seq(|x|, i requires 0 <= i < |x| => x[i] - y[i])
  }

  /** `s - c` for a scalar `c`. */
  function Shift(s: seq<real>, c: real): (d: seq<real>)
    ensures |d| == |s|
    ensures forall i :: 0 <= i < |s| ==> d[i] == s[i] - c
  {
    seq(|s|, i requires 0 <= i < |s| => s[i] - c)
  }

  function Square(a: real): real
  {
    a * a
  }

  /** `s ** 2`, entry by entry. */
  function Squares(s: seq<real>): (d: seq<real>)
    ensures |d| == |s|
    ensures forall i :: 0 <= i < |s| ==> d[i] == Square(s[i])
  {
    seq(|s|, i requires 0 <= i < |s| => Square(s[i]))
  }

  /** `cal_mean_residual`: `(x - y).mean()`. */
  function MeanResidual(x: seq<real>, y: seq<real>): Option<real>
    requires |x| == |y|
  {
    Mean(Residuals(x, y))
  }

  /** `cal_random_uncertainty`: `((x - y - m) ** 2).mean()`; a NaN `m` gives NaN. */
  function RandomUncertainty(x: seq<real>, y: seq<real>, m: Option<real>): Option<real>
    requires |x| == |y|
  {
    match m
    case None => None
    case Some(c) => Mean(Squares(Shift(Residuals(x, y), c)))
  }

  /** The square of `cal_rmse`: `((x - y) ** 2).mean()`. */
  function RmseSquared(x: seq<real>, y: seq<real>): Option<real>
    requires |x| == |y|
  {
    Mean(Squares(Residuals(x, y)))
  }

  /** `cal_r_2`: `1 - ((x - y) ** 2).sum() / ((x - x.mean()) ** 2).sum()`.
      `None` when `x` is empty or constant, where NumPy divides by zero. */
  function RSquared(x: seq<real>, y: seq<real>): (r: Option<real>)
    requires |x| == |y|
  {
    if |x| == 0 then None
    else
      var total := Sum(Squares(Shift(x, Sum(x) / |x| as real)));
      if total == 0.0 then None
      else Some(1.0 - Sum(Squares(Residuals(x, y))) / total)
  }

  /** Every entry of `s` is `c`. */
  predicate AllEqual(s: seq<real>, c: real)
  {
    forall i :: 0 <= i < |s| ==> s[i] == c
  }

  lemma SquaresTail(s: seq<real>)
    requires |s| > 0
    ensures Squares(s)[1..] == Squares(s[1..])
  {
    assert |Squares(s)[1..]| == |Squares(s[1..])|;
    forall i | 0 <= i < |s| - 1 ensures Squares(s)[1..][i] == Squares(s[1..])[i] {
      assert s[1..][i] == s[i + 1];
    }
  }

  lemma ShiftTail(s: seq<real>, c: real)
    requires |s| > 0
    ensures Shift(s, c)[1..] == Shift(s[1..], c)
  {
    assert |Shift(s, c)[1..]| == |Shift(s[1..], c)|;
    forall i | 0 <= i < |s| - 1 ensures Shift(s, c)[1..][i] == Shift(s[1..], c)[i] {
      assert s[1..][i] == s[i + 1];
    }
  }

  lemma {:induction false} SumOfResiduals(x: seq<real>, y: seq<real>)
    requires |x| == |y|
    ensures Sum(Residuals(x, y)) == Sum(x) - Sum(y)
    decreases |x|
  {
    if |x| > 0 {
      assert Residuals(x, y)[1..] == Residuals(x[1..], y[1..]);
      SumOfResiduals(x[1..], y[1..]);
    }
  }

  /** The mean residual is the difference of the means: the bias of FLEX
      against FLOX. */
  lemma MeanResidualIsBias(x: seq<real>, y: seq<real>)
    requires |x| == |y| && |x| > 0
    ensures MeanResidual(x, y) == Some(Mean(x).value - Mean(y).value)
  {
    SumOfResiduals(x, y);
    DivideDifference(Sum(x), Sum(y), |x| as real);
  }

  lemma DivideDifference(a: real, b: real, n: real)
    requires n != 0.0
    ensures (a - b) / n == a / n - b / n
  {
  }

  lemma DivideThenMultiply(a: real, n: real)
    requires n != 0.0
    ensures a / n * n == a
  {
  }

  /** A sum of squares is never negative, and it is zero exactly when every
      entry is zero. */
  lemma {:induction false} SumOfSquaresZero(s: seq<real>)
    ensures Sum(Squares(s)) >= 0.0
    ensures Sum(Squares(s)) == 0.0 <==> AllEqual(s, 0.0)
    decreases |s|
  {
    if |s| > 0 {
      SquaresTail(s);
      var a, rest := s[0], Sum(Squares(s[1..]));
      assert Sum(Squares(s)) == Square(a) + rest;
      SumOfSquaresZero(s[1..]);
      NonNegativeSquare(a);
      if s[0] == 0.0 && AllEqual(s[1..], 0.0) {
        forall i | 0 <= i < |s| ensures s[i] == 0.0 {
          if i > 0 { assert s[i] == s[1..][i - 1]; }
        }
      }
      if AllEqual(s, 0.0) {
        assert AllEqual(s[1..], 0.0) by {
          forall i | 0 <= i < |s[1..]| ensures s[1..][i] == 0.0 { assert s[1..][i] == s[i + 1]; }
        }
      }
      if s[0] != 0.0 {
        PositiveSquare(a);
        assert Sum(Squares(s)) > 0.0;
        assert !AllEqual(s, 0.0) by { assert s[0] != 0.0; }
      }
    }
  }

  /** A product is zero only when a factor is. */
  lemma ZeroFactor(a: real, b: real)
    requires a * b == 0.0
    ensures a == 0.0 || b == 0.0
  {
  }

  lemma NonNegativeSquare(a: real)
    ensures Square(a) >= 0.0
  {
  }

  lemma SquareZeroRoot(a: real)
    requires Square(a) == 0.0
    ensures a == 0.0
  {
    ZeroFactor(a, a);
  }

  lemma PositiveSquare(a: real)
    requires a != 0.0
    ensures Square(a) > 0.0
  {
    NonNegativeSquare(a);
    if Square(a) == 0.0 { SquareZeroRoot(a); }
  }

  /** A mean of squares is never negative and is zero exactly when every entry is zero. */
  lemma MeanOfSquares(s: seq<real>)
    requires |s| > 0
    ensures Mean(Squares(s)).value >= 0.0
    ensures Mean(Squares(s)).value == 0.0 <==> AllEqual(s, 0.0)
  {
    SumOfSquaresZero(s);
    var n := |s| as real;
    var q := Sum(Squares(s));
    assert q / n * n == q;
  }

  /** The random uncertainty is never negative, and it is zero exactly when
      every residual equals the mean residual it is given. */
  lemma RandomUncertaintyNonNegative(x: seq<real>, y: seq<real>, m: real)
    requires |x| == |y| && |x| > 0
    ensures RandomUncertainty(x, y, Some(m)).value >= 0.0
    ensures RandomUncertainty(x, y, Some(m)).value == 0.0 <==> AllEqual(Residuals(x, y), m)
  {
    var d := Residuals(x, y);
    MeanOfSquares(Shift(d, m));
    if AllEqual(Shift(d, m), 0.0) {
      forall i | 0 <= i < |d| ensures d[i] == m { assert Shift(d, m)[i] == 0.0; }
    }
  }

  /** RMSE squared is never negative and is zero exactly when the columns agree. */
  lemma RmseSquaredZeroIffEqual(x: seq<real>, y: seq<real>)
    requires |x| == |y| && |x| > 0
    ensures RmseSquared(x, y).value >= 0.0
    ensures RmseSquared(x, y).value == 0.0 <==> x == y
  {
    var d := Residuals(x, y);
    MeanOfSquares(d);
    if AllEqual(d, 0.0) {
      assert forall i :: 0 <= i < |x| ==> x[i] == y[i] by {
        forall i | 0 <= i < |x| ensures x[i] == y[i] { assert d[i] == 0.0; }
      }
    }
  }

  /** `q - 2 c t + n c²`: the sum of squares of `n` entries shifted by `c`,
      given their sum of squares `q` and their sum `t`. */
  function ShiftedTotal(q: real, t: real, n: real, c: real): real
  {
    q - 2.0 * c * t + n * c * c
  }

  /** Expanding the square of each shifted entry: the sum of squares of
      `s - c` is the sum of squares of `s`, minus `2 c` times the sum, plus
      `n c²`. */
  lemma {:induction false} SumOfShiftedSquares(s: seq<real>, c: real)
    ensures Sum(Squares(Shift(s, c))) == ShiftedTotal(Sum(Squares(s)), Sum(s), |s| as real, c)
    decreases |s|
  {
    if |s| > 0 {
      var t := s[1..];
      SumOfShiftedSquares(t, c);
      assert Sum(Squares(Shift(s, c))) == Square(s[0] - c) + Sum(Squares(Shift(t, c))) by {
        ShiftTail(s, c);
        SquaresTail(Shift(s, c));
      }
      assert Sum(Squares(s)) == Square(s[0]) + Sum(Squares(t)) by {
        SquaresTail(s);
      }
      assert Sum(s) == s[0] + Sum(t);
      ShiftedSquareStep(s[0], c, Sum(Squares(t)), Sum(t), |t| as real);
    }
  }

  lemma ShiftedSquareStep(a: real, c: real, q: real, t: real, n: real)
    ensures Square(a - c) + ShiftedTotal(q, t, n, c) == ShiftedTotal(Square(a) + q, a + t, n + 1.0, c)
  {
  }

  /** Mean square error splits into bias and random part:
      RMSE² = random uncertainty + mean residual². */
  lemma RmseSplitsIntoBiasAndNoise(x: seq<real>, y: seq<real>)
    requires |x| == |y| && |x| > 0
    ensures var m := MeanResidual(x, y).value;
      RmseSquared(x, y).value == RandomUncertainty(x, y, Some(m)).value + m * m
  {
    var d := Residuals(x, y);
    var n := |d| as real;
    var s, q := Sum(d), Sum(Squares(d));
    var m := s / n;
    SumOfShiftedSquares(d, m);
    CentredSquares(q, s, n);
  }

  lemma CentredSquares(q: real, s: real, n: real)
    requires n > 0.0
    ensures ShiftedTotal(q, s, n, s / n) / n == q / n - (s / n) * (s / n)
  {
    var m := s / n;
    assert s == m * n;
    assert q - 2.0 * m * s + n * m * m == q - n * m * m;
    assert (q - n * m * m) / n == q / n - m * m;
  }

  lemma {:induction false} SumOfConstant(s: seq<real>, c: real)
    requires AllEqual(s, c)
    ensures Sum(s) == |s| as real * c
    decreases |s|
  {
    if |s| > 0 {
      assert AllEqual(s[1..], c) by {
        forall i | 0 <= i < |s[1..]| ensures s[1..][i] == c { assert s[1..][i] == s[i + 1]; }
      }
      SumOfConstant(s[1..], c);
    }
  }

  /** The mean of a constant column is that constant. */
  lemma ConstantMean(x: seq<real>)
    requires |x| > 0 && AllEqual(x, x[0])
    ensures Sum(x) / |x| as real == x[0]
  {
    var n := |x| as real;
    var mx := Sum(x) / n;
    SumOfConstant(x, x[0]);
    DivideThenMultiply(Sum(x), n);
    assert (mx - x[0]) * n == 0.0;
    ZeroFactor(mx - x[0], n);
  }

  /** A column whose shift by `m` is all zero is constant. */
  lemma ZeroShiftIsConstant(x: seq<real>, m: real)
    requires |x| > 0 && AllEqual(Shift(x, m), 0.0)
    ensures AllEqual(x, x[0])
  {
    forall i | 0 <= i < |x| ensures x[i] == x[0] {
      assert Shift(x, m)[i] == 0.0 && Shift(x, m)[0] == 0.0;
    }
  }

  /** `cal_r_2` has no finite value exactly when `x` is empty or constant. */
  lemma RSquaredDefinedIffVaries(x: seq<real>, y: seq<real>)
    requires |x| == |y|
    ensures RSquared(x, y).None? <==> |x| == 0 || AllEqual(x, x[0])
  {
    if |x| > 0 {
      var mx := Sum(x) / |x| as real;
      SumOfSquaresZero(Shift(x, mx));
      if AllEqual(x, x[0]) {
        ConstantMean(x);
        assert AllEqual(Shift(x, mx), 0.0);
      }
      if AllEqual(Shift(x, mx), 0.0) {
        ZeroShiftIsConstant(x, mx);
      }
    }
  }

  /** R² never exceeds 1, and it is exactly 1 when FLEX reproduces FLOX and
      the FLEX column varies. */
  lemma RSquaredAtMostOne(x: seq<real>, y: seq<real>)
    requires |x| == |y|
    ensures RSquared(x, y).Some? ==> RSquared(x, y).value <= 1.0
    ensures x == y && |x| > 0 && !AllEqual(x, x[0]) ==> RSquared(x, y) == Some(1.0)
  {
    RSquaredDefinedIffVaries(x, y);
    if |x| > 0 {
      var total := Sum(Squares(Shift(x, Sum(x) / |x| as real)));
      var res := Sum(Squares(Residuals(x, y)));
      SumOfSquaresZero(Shift(x, Sum(x) / |x| as real));
      SumOfSquaresZero(Residuals(x, y));
      if total != 0.0 {
        assert res / total >= 0.0;
      }
      if x == y {
        assert AllEqual(Residuals(x, y), 0.0);
      }
    }
  }
}
