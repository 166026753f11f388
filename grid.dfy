/** The NumPy array operations the quality gate and the radiance step use:
    `np.repeat` along one axis, basic slicing `a[0:r, 0:c]`, the sum of three
    `uint8` layers, `np.max(a) >= 1`, `np.count_nonzero`, and the row-by-row
    `np.vstack` loop that builds the solar-zenith grid. A 2-D array is a
    sequence of rows. */
module Grid {
  import opened Values

  type Grid<T> = seq<seq<T>>

  /** Every row has `cols` entries. */
  predicate IsRect<T>(g: Grid<T>, cols: nat)
  {
    forall i :: 0 <= i < |g| ==> |g[i]| == cols
  }

  /** `np.repeat` of a 1-D sequence: each element `k` times in a row, in order. */
  function RepeatEach<T>(s: seq<T>, k: nat): (r: seq<T>)
    ensures |r| == |s| * k
    decreases |s|
  {
    if |s| == 0 then [] else seq(k, _ => s[0]) + RepeatEach(s[1..], k)
  }

  /** Entry `i` of the repeated sequence is entry `i / k` of the original. */
  lemma {:induction false} RepeatEachIndex<T>(s: seq<T>, k: nat, i: nat)
    requires i < |s| * k
    ensures k > 0 && i / k < |s|
    ensures RepeatEach(s, k)[i] == s[i / k]
    decreases |s|
  {
    assert |s| != 0;
    var r := RepeatEach(s, k);
    assert r == seq(k, _ => s[0]) + RepeatEach(s[1..], k);
    if i >= k {
      RepeatEachIndex(s[1..], k, i - k);
      DivShift(i, k);
    } else {
      DivUnique(i, k, 0, i);
    }
  }

  lemma MulAtLeast(a: int, k: int)
    requires a >= 1 && k >= 0
    ensures a * k >= k
  {
    assert a * k == (a - 1) * k + k;
    assert (a - 1) * k >= 0;
  }

  /** Euclidean division is unique: `q * k + r` with `0 <= r < k` divides to `q`. */
  lemma DivUnique(n: int, k: int, q: int, r: int)
    requires 0 <= r < k && n == q * k + r
    ensures n / k == q && n % k == r
  {
    var q', r' := n / k, n % k;
    assert n == q' * k + r';
    assert (q - q') * k == r' - r;
    if q > q' {
      MulAtLeast(q - q', k);
    } else if q < q' {
      MulAtLeast(q' - q, k);
    }
  }

  lemma DivShift(i: nat, k: nat)
    requires 0 < k <= i
    ensures (i - k) / k == i / k - 1
  {
    var q := (i - k) / k;
    var r := (i - k) % k;
    assert i - k == q * k + r;
    assert i == (q + 1) * k + r;
    DivUnique(i, k, q + 1, r);
  }

  /** `np.repeat(g, k, axis=0)`: every row `k` times. */
  function RepeatRows<T>(g: Grid<T>, k: nat): Grid<T>
  {
    RepeatEach(g, k)
  }

  /** `np.repeat(g, k, axis=1)`: every entry of every row `k` times. */
  function RepeatCols<T>(g: Grid<T>, k: nat): (r: Grid<T>)
    ensures |r| == |g|
  {
    seq(|g|, i requires 0 <= i < |g| => RepeatEach(g[i], k))
  }

  /** `a[0:r, 0:c]`: slicing past the end stops at the end. */
  function Crop<T>(g: Grid<T>, r: nat, c: nat): (out: Grid<T>)
    ensures |out| == if r <= |g| then r else |g|
    ensures forall i :: 0 <= i < |out| ==> |out[i]| == (if c <= |g[i]| then c else |g[i]|)
    ensures forall i, j :: 0 <= i < |out| && 0 <= j < |out[i]| ==> out[i][j] == g[i][j]
  {
    var rows := if r <= |g| then r else |g|;
    seq(rows, i requires 0 <= i < rows => if c <= |g[i]| then g[i][..c] else g[i])
  }

  /** Nearest-neighbour up-sampling by `k`: first along rows, then along columns. */
  function Expand<T>(g: Grid<T>, k: nat): Grid<T>
  {
    RepeatCols(RepeatRows(g, k), k)
  }

  /** Row `i` of the up-sampled grid repeats each entry of coarse row `i / k`. */
  lemma ExpandRow<T>(g: Grid<T>, cols: nat, k: nat, i: nat)
    requires IsRect(g, cols) && i < |g| * k
    ensures k > 0 && i / k < |g|
    ensures |Expand(g, k)| == |g| * k
    ensures Expand(g, k)[i] == RepeatEach(g[i / k], k)
    ensures |Expand(g, k)[i]| == cols * k
  {
    RepeatEachIndex(g, k, i);
  }

  /** Entry (i, j) of the up-sampled grid is coarse cell (i / k, j / k). */
  lemma ExpandAt<T>(g: Grid<T>, cols: nat, k: nat, i: nat, j: nat)
    requires IsRect(g, cols) && i < |g| * k && j < cols * k
    ensures k > 0 && i / k < |g| && j / k < cols
    ensures |Expand(g, k)| == |g| * k && |Expand(g, k)[i]| == cols * k
    ensures Expand(g, k)[i][j] == g[i / k][j / k]
  {
    ExpandRow(g, cols, k, i);
    RepeatEachIndex(g[i / k], k, j);
  }

  /** The up-sampled grid has `k` times the rows and columns. */
  lemma ExpandShape<T>(g: Grid<T>, cols: nat, k: nat)
    requires IsRect(g, cols)
    ensures |Expand(g, k)| == |g| * k
    ensures IsRect(Expand(g, k), cols * k)
  {
    var e := Expand(g, k);
    forall i | 0 <= i < |e| ensures |e[i]| == cols * k {
      ExpandRow(g, cols, k, i);
    }
  }

  /** Repeating along columns first and rows second gives the same grid as the
      other order. */
  lemma RepeatOrderIrrelevant<T>(g: Grid<T>, k: nat)
    ensures RepeatRows(RepeatCols(g, k), k) == Expand(g, k)
  {
    var a := RepeatRows(RepeatCols(g, k), k);
    var b := Expand(g, k);
    assert |a| == |b| == |g| * k;
    forall i | 0 <= i < |a| ensures a[i] == b[i] {
      RepeatEachIndex(RepeatCols(g, k), k, i);
      RepeatEachIndex(g, k, i);
    }
  }

  /** A 1-D or a 2-D NumPy array of floats. */
  datatype NdArray = Vector(v: seq<real>) | Matrix(m: Grid<real>)

  /** The rows of the zenith table all have the length of the first. */
  predicate SameLengths(rows: seq<seq<real>>)
  {
    forall i :: 0 <= i < |rows| ==> |rows[i]| == |rows[0]|
  }

  /** The stacking loop of `cal_l1c_rad`: the first row is kept as a 1-D array,
      each later row is `np.vstack`ed onto it. With no rows at all the array name
      is never bound, and its first use raises UnboundLocalError; a row whose
      length differs from the first makes `vstack` raise ValueError. */
  method StackRows(rows: seq<seq<real>>) returns (r: Result<NdArray>)
    ensures |rows| == 0 ==> r == Err(UnboundLocalError)
    ensures |rows| == 1 ==> r == Ok(Vector(rows[0]))
    ensures |rows| >= 2 && SameLengths(rows) ==> r == Ok(Matrix(rows))
    ensures |rows| >= 2 && !SameLengths(rows) ==> r == Err(ValueError)
  {
    if |rows| == 0 {
      return Err(UnboundLocalError);
    }
    var acc := Vector(rows[0]);
    var index := 1;
    while index < |rows|
      invariant 1 <= index <= |rows|
      invariant index == 1 ==> acc == Vector(rows[0])
      invariant index >= 2 ==> acc == Matrix(rows[..index])
      invariant SameLengths(rows[..index])
    {
      var arr := rows[index];
      if |arr| != |rows[0]| {
        assert !SameLengths(rows);
        return Err(ValueError);
      }
      if acc.Vector? {
        acc := Matrix([acc.v, arr]);
      } else {
        acc := Matrix(acc.m + [arr]);
      }
      assert rows[..index + 1] == rows[..index] + [arr];
      index := index + 1;
    }
    assert rows[..index] == rows;
    return Ok(acc);
  }

  /** Factor by which each zenith cell is repeated along both axes. */
  const ZenithRepeat: nat := 500

  /** `np.repeat` by 500 along axis 1 then axis 0, cropped to the band shape.
      A 1-D array has no axis 1, so `np.repeat(..., axis = 1)` raises AxisError. */
  function ZenithForBand(stacked: Result<NdArray>, bandRows: nat, bandCols: nat): (r: Result<Grid<real>>)
    ensures stacked.Err? ==> r == Err(stacked.error)
    ensures stacked.Ok? && stacked.value.Vector? ==> r == Err(AxisError)
    ensures stacked.Ok? && stacked.value.Matrix? ==> r.Ok?
  {
    match stacked
    case Err(e) => Err(e)
    case Ok(Vector(_)) => Err(AxisError)
    case Ok(Matrix(m)) => Ok(Crop(RepeatRows(RepeatCols(m, ZenithRepeat), ZenithRepeat), bandRows, bandCols))
  }

  /** The zenith grid has the band's shape (as far as the 500-fold expansion
      reaches), and the zenith at band pixel (i, j) is the coarse value of the
      5 km cell (i / 500, j / 500) containing it. */
  lemma ZenithForBandIndex(m: Grid<real>, cols: nat, bandRows: nat, bandCols: nat)
    requires IsRect(m, cols)
    ensures ZenithForBand(Ok(Matrix(m)), bandRows, bandCols).Ok?
    ensures var z := ZenithForBand(Ok(Matrix(m)), bandRows, bandCols).value;
      && |z| == (if bandRows <= |m| * 500 then bandRows else |m| * 500)
      && IsRect(z, if bandCols <= cols * 500 then bandCols else cols * 500)
      && forall i, j :: 0 <= i < |z| && 0 <= j < |z[i]| ==> z[i][j] == m[i / 500][j / 500]
  {
    RepeatOrderIrrelevant(m, ZenithRepeat);
    ExpandShape(m, cols, ZenithRepeat);
    var z := ZenithForBand(Ok(Matrix(m)), bandRows, bandCols).value;
    forall i, j | 0 <= i < |z| && 0 <= j < |z[i]| ensures z[i][j] == m[i / 500][j / 500] {
      ExpandAt(m, cols, ZenithRepeat, i, j);
    }
  }

  /** Entry-wise sum of three `uint8` layers, wrapping modulo 256 like NumPy. */
  function Sum3(a: Grid<int>, b: Grid<int>, c: Grid<int>): (s: Grid<int>)
    requires |a| == |b| == |c|
    requires forall i :: 0 <= i < |a| ==> |a[i]| == |b[i]| == |c[i]|
    ensures |s| == |a| && forall i :: 0 <= i < |a| ==> |s[i]| == |a[i]|
    ensures forall i, j :: 0 <= i < |a| && 0 <= j < |a[i]| ==> 0 <= s[i][j] < 256
  {
    seq(|a|, i requires 0 <= i < |a| =>
      seq(|a[i]|, j requires 0 <= j < |a[i]| => (a[i][j] + b[i][j] + c[i][j]) % 256))
  }

  /** A layer of 0/1 flags. */
  predicate IsFlagLayer(g: Grid<int>)
  {
    forall i, j :: 0 <= i < |g| && 0 <= j < |g[i]| ==> 0 <= g[i][j] <= 1
  }

  /** For the 0/1 cloud, cirrus and snow flags the sum cannot wrap: a combined
      cell is the number of flags raised there, so it is at least 1 exactly when
      some flag is set. */
  lemma FlagSumCountsFlags(a: Grid<int>, b: Grid<int>, c: Grid<int>)
    requires |a| == |b| == |c|
    requires forall i :: 0 <= i < |a| ==> |a[i]| == |b[i]| == |c[i]|
    requires IsFlagLayer(a) && IsFlagLayer(b) && IsFlagLayer(c)
    ensures forall i, j :: 0 <= i < |a| && 0 <= j < |a[i]| ==>
              Sum3(a, b, c)[i][j] == a[i][j] + b[i][j] + c[i][j]
              && (Sum3(a, b, c)[i][j] >= 1 <==> a[i][j] == 1 || b[i][j] == 1 || c[i][j] == 1)
  {
  }

  /** All entries, row after row. */
  function Flatten<T>(g: Grid<T>): (f: seq<T>)
    decreases |g|
  {
    if |g| == 0 then [] else g[0] + Flatten(g[1..])
  }

  /** Entry (i, j) appears in the flattened grid. */
  lemma {:induction false} FlattenHas<T>(g: Grid<T>, i: nat, j: nat)
    requires i < |g| && j < |g[i]|
    ensures g[i][j] in Flatten(g)
    decreases i
  {
    if i > 0 {
      FlattenHas(g[1..], i - 1, j);
    } else {
      assert g[0][j] in g[0];
    }
  }

  /** Every entry of the flattened grid is some entry (i, j). */
  lemma {:induction false} FlattenFrom<T>(g: Grid<T>, x: T)
    requires x in Flatten(g)
    ensures exists i, j :: 0 <= i < |g| && 0 <= j < |g[i]| && g[i][j] == x
    decreases |g|
  {
    if x in g[0] {
      var j :| 0 <= j < |g[0]| && g[0][j] == x;
      assert g[0][j] == x;
    } else {
      assert x in Flatten(g[1..]);
      FlattenFrom(g[1..], x);
      var i, j :| 0 <= i < |g[1..]| && 0 <= j < |g[1..][i]| && g[1..][i][j] == x;
      assert g[i + 1][j] == x;
    }
  }

  /** Some cell of `g` is at least 1. */
  predicate HasPositive(g: Grid<int>)
  {
    exists i, j :: 0 <= i < |g| && 0 <= j < |g[i]| && g[i][j] >= 1
  }

  /** `np.max(g) >= 1`; `np.max` of an empty array raises ValueError. */
  function MaxAtLeastOne(g: Grid<int>): (r: Result<bool>)
    ensures r.Err? <==> |Flatten(g)| == 0
    ensures r.Err? ==> r.error == ValueError
  {
    if |Flatten(g)| == 0 then Err(ValueError)
    else Ok(exists x :: x in Flatten(g) && x >= 1)
  }

  /** `np.max(g) >= 1` holds exactly when some cell is at least 1. */
  lemma MaxAtLeastOneIffCell(g: Grid<int>)
    requires |Flatten(g)| > 0
    ensures MaxAtLeastOne(g) == Ok(HasPositive(g))
  {
    if exists x :: x in Flatten(g) && x >= 1 {
      var x :| x in Flatten(g) && x >= 1;
      FlattenFrom(g, x);
    }
    if HasPositive(g) {
      var i, j :| 0 <= i < |g| && 0 <= j < |g[i]| && g[i][j] >= 1;
      FlattenHas(g, i, j);
    }
  }

  /** `np.count_nonzero(s == 0)`. */
  function CountZero(s: seq<int>): (n: nat)
    ensures n <= |s|
    decreases |s|
  {
    if |s| == 0 then 0 else (if s[0] == 0 then 1 else 0) + CountZero(s[1..])
  }

  /** `np.count_nonzero(s != 0)`. */
  function CountNonZero(s: seq<int>): (n: nat)
    ensures n <= |s|
    decreases |s|
  {
    if |s| == 0 then 0 else (if s[0] != 0 then 1 else 0) + CountNonZero(s[1..])
  }

  /** Every cell is either zero or not: the two counts add up to the cell count. */
  lemma {:induction false} CountsPartition(s: seq<int>)
    ensures CountZero(s) + CountNonZero(s) == |s|
    decreases |s|
  {
    if |s| > 0 {
      CountsPartition(s[1..]);
    }
  }

  /** A value of at least 1 is a non-zero cell. */
  lemma {:induction false} PositiveIsNonZero(s: seq<int>, x: int)
    requires x in s && x >= 1
    ensures CountNonZero(s) >= 1
    decreases |s|
  {
    if s[0] != x {
      PositiveIsNonZero(s[1..], x);
    }
  }

  /** A flagged cell shows up in the flattened grid and in its non-zero count. */
  lemma PositiveCellCounted(g: Grid<int>)
    requires HasPositive(g)
    ensures |Flatten(g)| > 0 && CountNonZero(Flatten(g)) >= 1
  {
    var i, j :| 0 <= i < |g| && 0 <= j < |g[i]| && g[i][j] >= 1;
    FlattenHas(g, i, j);
    PositiveIsNonZero(Flatten(g), g[i][j]);
  }

  lemma ExpandKeepsPositive(g: Grid<int>, cols: nat, k: nat)
    requires IsRect(g, cols) && k > 0 && HasPositive(g)
    ensures HasPositive(Expand(g, k))
  {
    var i, j :| 0 <= i < |g| && 0 <= j < |g[i]| && g[i][j] >= 1;
    DivUnique(i * k, k, i, 0);
    DivUnique(j * k, k, j, 0);
    MulAtLeast(|g| - i, k);
    MulAtLeast(cols - j, k);
    assert (|g| - i) * k == |g| * k - i * k;
    assert (cols - j) * k == cols * k - j * k;
    ExpandAt(g, cols, k, i * k, j * k);
  }

  lemma ExpandPositiveFromCoarse(g: Grid<int>, cols: nat, k: nat)
    requires IsRect(g, cols) && HasPositive(Expand(g, k))
    ensures HasPositive(g)
  {
    var e := Expand(g, k);
    ExpandShape(g, cols, k);
    var i, j :| 0 <= i < |e| && 0 <= j < |e[i]| && e[i][j] >= 1;
    ExpandAt(g, cols, k, i, j);
  }

  /** Up-sampling keeps the answer of `np.max(g) >= 1`. */
  lemma ExpandKeepsMax(g: Grid<int>, cols: nat, k: nat)
    requires IsRect(g, cols) && |g| > 0 && cols > 0 && k > 0
    ensures |Flatten(Expand(g, k))| > 0
    ensures MaxAtLeastOne(Expand(g, k)) == MaxAtLeastOne(g)
  {
    var e := Expand(g, k);
    ExpandShape(g, cols, k);
    MulAtLeast(|g|, k);
    MulAtLeast(cols, k);
    ExpandAt(g, cols, k, 0, 0);
    FlattenHas(g, 0, 0);
    FlattenHas(e, 0, 0);
    MaxAtLeastOneIffCell(g);
    MaxAtLeastOneIffCell(e);
    if HasPositive(g) {
      ExpandKeepsPositive(g, cols, k);
    }
    if HasPositive(e) {
      ExpandPositiveFromCoarse(g, cols, k);
    }
  }
}
