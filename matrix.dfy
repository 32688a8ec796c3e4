/**
 * The dense matrix of src/matrix.js: `rows`, `cols` and a flat row-major array `data`, where
 * entry (i, j) lives at index i*cols + j.
 *
 * Every operation of the source fills a matrix cell by cell, usually through the instance `map`.
 * The methods below keep those loops and are proved against specification functions on the
 * flat contents: `Tabulate(rows, cols, f)` is the row-major list of f(i, j), and the pointwise
 * functions (`Scaled`, `ElementwiseSum`, ...) are what the elementwise operations produce.
 */
module Matrices {
  import opened Wrappers

  datatype MatrixError = IndexOutOfRange | DimensionMismatch

  /** The `{rows, cols, data}` object `fromJSON` reads. */
  datatype MatrixJson = MatrixJson(rows: nat, cols: nat, data: seq<real>)

  // ----- the row-major layout -----

  lemma {:induction false} MulMonotone(a: nat, b: nat, c: nat)
    requires a <= b
    ensures a * c <= b * c
    decreases b - a
  {
    if a < b {
      MulMonotone(a, b - 1, c);
      assert (b - 1) * c + c == b * c;
    }
  }

  /** Every in-grid position has a flat index inside the data. */
  lemma FlatIndexBounds(i: nat, j: nat, rows: nat, cols: nat)
    requires i < rows && j < cols
    ensures i * cols + j < rows * cols
  {
    MulMonotone(i + 1, rows, cols);
    assert (i + 1) * cols == i * cols + cols;
  }

  /** Distinct in-grid positions have distinct flat indices. */
  lemma FlatIndexInjective(i: nat, j: nat, p: nat, q: nat, cols: nat)
    requires j < cols && q < cols && i * cols + j == p * cols + q
    ensures i == p && j == q
  {
    if i < p {
      MulMonotone(i + 1, p, cols);
    } else if p < i {
      MulMonotone(p + 1, i, cols);
    }
  }

  /** Entry (i, j) of row-major data with `cols` columns (0 past the end, where no caller reads). */
  function Entry(d: seq<real>, cols: nat, i: nat, j: nat): real
  {
    if i * cols + j < |d| then d[i * cols + j] else 0.0
  }

  function EntryFn(d: seq<real>, cols: nat): (nat, nat) -> real
  {
    (i: nat, j: nat) => Entry(d, cols, i, j)
  }

  function RowOf(i: nat, cols: nat, f: (nat, nat) -> real): (r: seq<real>)
  {
    seq(cols, j requires 0 <= j < cols => f(i, j))
  }

  /** The row-major list of f(i, j) over a rows × cols grid. */
  function Tabulate(rows: nat, cols: nat, f: (nat, nat) -> real): (r: seq<real>)
    ensures |r| == rows * cols
  {
    if rows == 0 then []
    else
      assert (rows - 1) * cols + cols == rows * cols;
      Tabulate(rows - 1, cols, f) + RowOf(rows - 1, cols, f)
  }

  /** The last row of a table comes after the rows above it. */
  lemma TabulateSplit(rows: nat, cols: nat, f: (nat, nat) -> real)
    requires rows > 0
    ensures Tabulate(rows, cols, f) == Tabulate(rows - 1, cols, f) + RowOf(rows - 1, cols, f)
    ensures |Tabulate(rows - 1, cols, f)| == (rows - 1) * cols
  {
  }

  lemma {:induction false} TabulateAt(rows: nat, cols: nat, f: (nat, nat) -> real, i: nat, j: nat)
    requires i < rows && j < cols
    ensures i * cols + j < |Tabulate(rows, cols, f)| && Tabulate(rows, cols, f)[i * cols + j] == f(i, j)
  {
    var front, row := Tabulate(rows - 1, cols, f), RowOf(rows - 1, cols, f);
    TabulateSplit(rows, cols, f);
    FlatIndexBounds(i, j, rows, cols);
    if i < rows - 1 {
      assert i * cols + j < |front| by {
        FlatIndexBounds(i, j, rows - 1, cols);
      }
      TabulateAt(rows - 1, cols, f, i, j);
    } else {
      assert i * cols + j == |front| + j by {
        assert i == rows - 1;
      }
    }
  }

  lemma {:induction false} TabulateCongruent(rows: nat, cols: nat, f: (nat, nat) -> real, g: (nat, nat) -> real)
    requires forall i: nat, j: nat :: i < rows && j < cols ==> f(i, j) == g(i, j)
    ensures Tabulate(rows, cols, f) == Tabulate(rows, cols, g)
  {
    if rows > 0 {
      TabulateCongruent(rows - 1, cols, f, g);
      assert RowOf(rows - 1, cols, f) == RowOf(rows - 1, cols, g);
    }
  }

  /** Reading every cell of row-major data back in row-major order gives the data itself. */
  lemma {:induction false} TabulateEntries(d: seq<real>, rows: nat, cols: nat)
    requires |d| == rows * cols
    ensures Tabulate(rows, cols, EntryFn(d, cols)) == d
  {
    if rows > 0 {
      var m := (rows - 1) * cols;
      assert m + cols == |d|;
      var front := d[..m];
      forall i: nat, j: nat | i < rows - 1 && j < cols
        ensures EntryFn(d, cols)(i, j) == EntryFn(front, cols)(i, j)
      {
        FlatIndexBounds(i, j, rows - 1, cols);
      }
      TabulateCongruent(rows - 1, cols, EntryFn(d, cols), EntryFn(front, cols));
      TabulateEntries(front, rows - 1, cols);
      assert RowOf(rows - 1, cols, EntryFn(d, cols)) == d[m..];
      assert d == front + d[m..];
    }
  }

  /** A grid function that agrees with `d` cell by cell tabulates to `d`. */
  lemma TabulateMatches(rows: nat, cols: nat, f: (nat, nat) -> real, d: seq<real>)
    requires |d| == rows * cols
    requires forall i: nat, j: nat :: i < rows && j < cols ==> f(i, j) == Entry(d, cols, i, j)
    ensures Tabulate(rows, cols, f) == d
  {
    TabulateCongruent(rows, cols, f, EntryFn(d, cols));
    TabulateEntries(d, rows, cols);
  }

  // ----- cell-by-cell filling, the loop shape every operation shares -----

  /** Cells before (i, j) hold f, the rest still hold `orig`. */
  ghost predicate FilledUpTo(d: seq<real>, orig: seq<real>, cols: nat, f: (nat, nat) -> real, i: nat, j: nat)
  {
    j <= cols && i * cols + j <= |orig| &&
    d == Tabulate(i, cols, f) + RowOf(i, cols, f)[..j] + orig[i * cols + j..]
  }

  lemma FillStart(orig: seq<real>, cols: nat, f: (nat, nat) -> real)
    ensures FilledUpTo(orig, orig, cols, f, 0, 0)
  {
    assert orig[0..] == orig;
  }

  lemma FillStep(d: seq<real>, orig: seq<real>, cols: nat, f: (nat, nat) -> real, i: nat, j: nat)
    requires FilledUpTo(d, orig, cols, f, i, j) && j < cols && i * cols + j < |orig|
    ensures i * cols + j < |d| && d[i * cols + j] == orig[i * cols + j]
    ensures FilledUpTo(d[i * cols + j := f(i, j)], orig, cols, f, i, j + 1)
  {
    var k := i * cols + j;
    var done := Tabulate(i, cols, f) + RowOf(i, cols, f)[..j];
    assert |done| == k;
    assert RowOf(i, cols, f)[..j + 1] == RowOf(i, cols, f)[..j] + [f(i, j)];
    assert d[k := f(i, j)] == done + [f(i, j)] + orig[k + 1..];
  }

  lemma FillRowDone(d: seq<real>, orig: seq<real>, cols: nat, f: (nat, nat) -> real, i: nat)
    requires FilledUpTo(d, orig, cols, f, i, cols)
    ensures FilledUpTo(d, orig, cols, f, i + 1, 0)
  {
    assert (i + 1) * cols == i * cols + cols;
    assert RowOf(i, cols, f)[..cols] == RowOf(i, cols, f);
  }

  lemma FillEnd(d: seq<real>, orig: seq<real>, rows: nat, cols: nat, f: (nat, nat) -> real)
    requires |orig| == rows * cols && FilledUpTo(d, orig, cols, f, rows, 0)
    ensures d == Tabulate(rows, cols, f)
  {
    assert RowOf(rows, cols, f)[..0] == [];
  }

  // ----- what each operation produces -----

  function Zeros(n: nat): (z: seq<real>)
  {
    seq(n, _ => 0.0)
  }

  /** The cell function of `map(func)`: func(old entry, i, j). */
  function MapFn(d: seq<real>, cols: nat, func: (real, nat, nat) -> real): (nat, nat) -> real
  {
    (i: nat, j: nat) => func(Entry(d, cols, i, j), i, j)
  }

  lemma MapFnAt(d: seq<real>, cols: nat, func: (real, nat, nat) -> real, i: nat, j: nat)
    ensures MapFn(d, cols, func)(i, j) == func(Entry(d, cols, i, j), i, j)
  {
  }

  function Applied(d: seq<real>, func: real -> real): (r: seq<real>)
  {
    seq(|d|, k requires 0 <= k < |d| => func(d[k]))
  }

  function Scaled(d: seq<real>, s: real): (r: seq<real>)
  {
    seq(|d|, k requires 0 <= k < |d| => d[k] * s)
  }

  function Shifted(d: seq<real>, s: real): (r: seq<real>)
  {
    seq(|d|, k requires 0 <= k < |d| => d[k] + s)
  }

  function ElementwiseSum(d: seq<real>, e: seq<real>): (r: seq<real>)
    requires |d| == |e|
  {
    seq(|d|, k requires 0 <= k < |d| => d[k] + e[k])
  }

  function ElementwiseDifference(d: seq<real>, e: seq<real>): (r: seq<real>)
    requires |d| == |e|
  {
    seq(|d|, k requires 0 <= k < |d| => d[k] - e[k])
  }

  function ElementwiseProduct(d: seq<real>, e: seq<real>): (r: seq<real>)
    requires |d| == |e|
  {
    seq(|d|, k requires 0 <= k < |d| => d[k] * e[k])
  }

  function SwapFn(d: seq<real>, cols: nat): (nat, nat) -> real
  {
    (i: nat, j: nat) => Entry(d, cols, j, i)
  }

  /** The cols × rows transpose of rows × cols data. */
  function Transposed(d: seq<real>, rows: nat, cols: nat): seq<real>
  {
    Tabulate(cols, rows, SwapFn(d, cols))
  }

  /** Σ_{t<k} a(i, t) · b(t, j) for `a` with `n` columns and `b` with `bCols` columns. */
  function Dot(a: seq<real>, b: seq<real>, n: nat, bCols: nat, i: nat, j: nat, k: nat): real
  {
    if k == 0 then 0.0 else Dot(a, b, n, bCols, i, j, k - 1) + Entry(a, n, i, k - 1) * Entry(b, bCols, k - 1, j)
  }

  function DotFn(a: seq<real>, b: seq<real>, n: nat, bCols: nat): (nat, nat) -> real
  {
    (i: nat, j: nat) => Dot(a, b, n, bCols, i, j, n)
  }

  /** The aRows × bCols product of aRows × n data `a` and n × bCols data `b`. */
  function Product(a: seq<real>, b: seq<real>, aRows: nat, n: nat, bCols: nat): seq<real>
  {
    Tabulate(aRows, bCols, DotFn(a, b, n, bCols))
  }

  /** What `fromJSON` builds: entry (i, j) is data[i*cols + j]. */
  function FromJsonData(json: MatrixJson): seq<real>
  {
    Tabulate(json.rows, json.cols, EntryFn(json.data, json.cols))
  }

  function Identity(n: nat): seq<real>
  {
    Tabulate(n, n, (i: nat, j: nat) => if i == j then 1.0 else 0.0)
  }

  // ----- properties of the operations -----

  /** After `map(func)`, entry (i, j) is func applied to the old entry (i, j). */
  lemma MapAt(d: seq<real>, rows: nat, cols: nat, func: (real, nat, nat) -> real, i: nat, j: nat)
    requires |d| == rows * cols && i < rows && j < cols
    ensures Tabulate(rows, cols, MapFn(d, cols, func))[i * cols + j] == func(d[i * cols + j], i, j)
  {
    FlatIndexBounds(i, j, rows, cols);
    TabulateAt(rows, cols, MapFn(d, cols, func), i, j);
    MapFnAt(d, cols, func, i, j);
  }

  /** `set(i, j, v)` followed by `get(p, q)`: v at (i, j), the old entry everywhere else. */
  lemma GetAfterSet(d: seq<real>, rows: nat, cols: nat, i: nat, j: nat, v: real, p: nat, q: nat)
    requires |d| == rows * cols && i < rows && j < cols && p < rows && q < cols
    ensures i * cols + j < |d|
    ensures Entry(d[i * cols + j := v], cols, p, q) == if p == i && q == j then v else Entry(d, cols, p, q)
  {
    FlatIndexBounds(i, j, rows, cols);
    FlatIndexBounds(p, q, rows, cols);
    if p * cols + q == i * cols + j {
      FlatIndexInjective(i, j, p, q, cols);
    }
  }

  /** Entry (i, j) of the transpose is entry (j, i) of the original. */
  lemma TransposedAt(d: seq<real>, rows: nat, cols: nat, i: nat, j: nat)
    requires |d| == rows * cols && i < cols && j < rows
    ensures |Transposed(d, rows, cols)| == cols * rows
    ensures Entry(Transposed(d, rows, cols), rows, i, j) == Entry(d, cols, j, i)
  {
    FlatIndexBounds(i, j, cols, rows);
    TabulateAt(cols, rows, SwapFn(d, cols), i, j);
  }

  /** Transposing twice gives back the original data. */
  lemma TransposeTwice(d: seq<real>, rows: nat, cols: nat)
    requires |d| == rows * cols
    ensures Transposed(Transposed(d, rows, cols), cols, rows) == d
  {
    var t := Transposed(d, rows, cols);
    forall i: nat, j: nat | i < rows && j < cols
      ensures SwapFn(t, rows)(i, j) == Entry(d, cols, i, j)
    {
      TransposedAt(d, rows, cols, j, i);
    }
    TabulateMatches(rows, cols, SwapFn(t, rows), d);
  }

  /** `add` is commutative and `subtract` undoes it. */
  lemma SumProperties(d: seq<real>, e: seq<real>)
    requires |d| == |e|
    ensures ElementwiseSum(d, e) == ElementwiseSum(e, d)
    ensures ElementwiseDifference(ElementwiseSum(d, e), e) == d
  {
    assert ElementwiseDifference(ElementwiseSum(d, e), e) == d;
  }

  /** Scaling twice is scaling by the product, and scaling by 1 changes nothing. */
  lemma ScaledProperties(d: seq<real>, s: real, t: real)
    ensures Scaled(Scaled(d, s), t) == Scaled(d, s * t)
    ensures Scaled(d, 1.0) == d
  {
    assert forall k :: 0 <= k < |d| ==> Scaled(Scaled(d, s), t)[k] == Scaled(d, s * t)[k];
    assert Scaled(d, 1.0) == d;
  }

  /** Shifting by s and then by -s gives back the data; shifts add up. */
  lemma ShiftedProperties(d: seq<real>, s: real, t: real)
    ensures Shifted(Shifted(d, s), -s) == d
    ensures Shifted(Shifted(d, s), t) == Shifted(d, s + t)
    ensures Shifted(d, 0.0) == d
  {
    assert Shifted(Shifted(d, s), -s) == d;
    assert forall k :: 0 <= k < |d| ==> Shifted(Shifted(d, s), t)[k] == Shifted(d, s + t)[k];
    assert Shifted(d, 0.0) == d;
  }

  /** The elementwise product commutes, and multiplying by ones changes nothing. */
  lemma ProductProperties(d: seq<real>, e: seq<real>)
    requires |d| == |e|
    ensures ElementwiseProduct(d, e) == ElementwiseProduct(e, d)
    ensures (forall k :: 0 <= k < |e| ==> e[k] == 1.0) ==> ElementwiseProduct(d, e) == d
  {
    assert ElementwiseProduct(d, e) == ElementwiseProduct(e, d);
    if forall k :: 0 <= k < |e| ==> e[k] == 1.0 {
      assert ElementwiseProduct(d, e) == d;
    }
  }

  /** A scalar is the elementwise case with a constant matrix. */
  lemma ScalarIsElementwise(d: seq<real>, s: real)
    ensures Scaled(d, s) == ElementwiseProduct(d, seq(|d|, _ => s))
    ensures Shifted(d, s) == ElementwiseSum(d, seq(|d|, _ => s))
  {
    var c := seq(|d|, _ => s);
    assert |Scaled(d, s)| == |ElementwiseProduct(d, c)|;
    forall k | 0 <= k < |d|
      ensures Scaled(d, s)[k] == ElementwiseProduct(d, c)[k]
    {
      assert c[k] == s;
    }
    assert Scaled(d, s) == ElementwiseProduct(d, c);
    assert Shifted(d, s) == ElementwiseSum(d, c);
  }

  /** Entry (i, j) of the product is the dot product of row i of `a` and column j of `b`. */
  lemma ProductAt(a: seq<real>, b: seq<real>, aRows: nat, n: nat, bCols: nat, i: nat, j: nat)
    requires i < aRows && j < bCols
    ensures |Product(a, b, aRows, n, bCols)| == aRows * bCols
    ensures Entry(Product(a, b, aRows, n, bCols), bCols, i, j) == Dot(a, b, n, bCols, i, j, n)
  {
    FlatIndexBounds(i, j, aRows, bCols);
    TabulateAt(aRows, bCols, DotFn(a, b, n, bCols), i, j);
  }

  lemma {:induction false} DotWithIdentity(a: seq<real>, n: nat, i: nat, j: nat, k: nat)
    requires j < n && k <= n
    ensures Dot(a, Identity(n), n, n, i, j, k) == if j < k then Entry(a, n, i, j) else 0.0
  {
    if k > 0 {
      DotWithIdentity(a, n, i, j, k - 1);
      FlatIndexBounds(k - 1, j, n, n);
      TabulateAt(n, n, (p: nat, q: nat) => if p == q then 1.0 else 0.0, k - 1, j);
    }
  }

  /** Multiplying by the identity on the right leaves a matrix unchanged. */
  lemma ProductWithIdentity(a: seq<real>, rows: nat, n: nat)
    requires |a| == rows * n
    ensures Product(a, Identity(n), rows, n, n) == a
  {
    forall i: nat, j: nat | i < rows && j < n
      ensures DotFn(a, Identity(n), n, n)(i, j) == Entry(a, n, i, j)
    {
      DotWithIdentity(a, n, i, j, n);
    }
    TabulateMatches(rows, n, DotFn(a, Identity(n), n, n), a);
  }

  /** `fromJSON({rows, cols, data: m.toArray()})` rebuilds m's entries. */
  lemma JsonRoundTrip(d: seq<real>, rows: nat, cols: nat)
    requires |d| == rows * cols
    ensures FromJsonData(MatrixJson(rows, cols, d)) == d
  {
    TabulateEntries(d, rows, cols);
  }

  // ----- the bounds check as the source writes it -----

  /**
   * `set` as written: it rejects only a flat index greater than rows*cols. Index rows*cols
   * (one past the end) is accepted and appends to `data`; a column index of `cols` or more is
   * accepted too and lands in a later row.
   */
  function SetAsWritten(d: seq<real>, rows: nat, cols: nat, i: nat, j: nat, v: real): (r: Result<seq<real>, MatrixError>)
    requires |d| == rows * cols
    ensures r.Failure? <==> i * cols + j > rows * cols
    ensures r.Success? ==> |r.value| == if i * cols + j == |d| then |d| + 1 else |d|
  {
    if i * cols + j > rows * cols then Failure(IndexOutOfRange)
    else if i * cols + j == |d| then Success(d + [v])
    else Success(d[i * cols + j := v])
  }

  /** `get` as written: the same guard, and index rows*cols reads `undefined` (`None`). */
  function GetAsWritten(d: seq<real>, rows: nat, cols: nat, i: nat, j: nat): (r: Result<Option<real>, MatrixError>)
    requires |d| == rows * cols
    ensures r.Failure? <==> i * cols + j > rows * cols
    ensures r == Success(None) <==> i * cols + j == rows * cols
  {
    if i * cols + j > rows * cols then Failure(IndexOutOfRange)
    else if i * cols + j == |d| then Success(None)
    else Success(Some(d[i * cols + j]))
  }

  /** Row index `rows` passes the guard: `set` grows the data and `get` reads undefined. */
  lemma AsWrittenAcceptsRowPastEnd(d: seq<real>, rows: nat, cols: nat, v: real)
    requires |d| == rows * cols && cols > 0
    ensures SetAsWritten(d, rows, cols, rows, 0, v) == Success(d + [v])
    ensures GetAsWritten(d, rows, cols, rows, 0) == Success(None)
  {
  }

  /** Column index `cols` passes the guard and writes cell (i + 1, 0). */
  lemma {:induction false} AsWrittenWrapsColumn(d: seq<real>, rows: nat, cols: nat, i: nat, v: real)
    requires |d| == rows * cols && i + 1 < rows
    ensures SetAsWritten(d, rows, cols, i, cols, v).Success?
    ensures Entry(SetAsWritten(d, rows, cols, i, cols, v).value, cols, i + 1, 0) == v
  {
    assert i * cols + cols == (i + 1) * cols;
    FlatIndexBounds(i + 1, 0, rows, cols + 1);
    MulMonotone(i + 2, rows, cols);
    assert (i + 2) * cols == (i + 1) * cols + cols;
  }

  // ----- the matrix object -----

  class Matrix {
    const rows: nat
    const cols: nat
    const data: array<real>

    ghost predicate Valid()
      reads this
    {
      data.Length == rows * cols
    }

    /** A rows × cols matrix of zeros. */
    constructor (rows: nat, cols: nat)
      ensures this.rows == rows && this.cols == cols && Valid()
      ensures fresh(data) && data[..] == Zeros(rows * cols)
    {
      this.rows := rows;
      this.cols := cols;
      var a := new real[rows * cols];
      var k := 0;
      while k < a.Length
        invariant 0 <= k <= a.Length
        invariant forall p :: 0 <= p < k ==> a[p] == 0.0
      {
        a[k] := 0.0;
        k := k + 1;
      }
      this.data := a;
    }

    /** Entry (i, j), or an error outside the grid. */
    method Get(i: int, j: int) returns (r: Result<real, MatrixError>)
      requires Valid()
      ensures r.Success? <==> 0 <= i < rows && 0 <= j < cols
      ensures r.Success? ==> r.value == Entry(data[..], cols, i, j)
      ensures r.Failure? ==> r.error == IndexOutOfRange
    {
      if i < 0 || i >= rows || j < 0 || j >= cols {
        return Failure(IndexOutOfRange);
      }
      FlatIndexBounds(i, j, rows, cols);
      r := Success(data[i * cols + j]);
    }

    /** Overwrite entry (i, j); a position outside the grid is an error and changes nothing. */
    method Set(i: int, j: int, value: real) returns (r: Outcome<MatrixError>)
      requires Valid()
      modifies data
      ensures if 0 <= i < rows && 0 <= j < cols then
          i * cols + j < data.Length && r == Pass && data[..] == old(data[..])[i * cols + j := value]
        else r == Fail(IndexOutOfRange) && data[..] == old(data[..])
    {
      if i < 0 || i >= rows || j < 0 || j >= cols {
        return Fail(IndexOutOfRange);
      }
      FlatIndexBounds(i, j, rows, cols);
      data[i * cols + j] := value;
      r := Pass;
    }

    /** Instance `map`: every entry becomes func(entry, i, j), row by row. */
    method Map(func: (real, nat, nat) -> real)
      requires Valid()
      modifies data
      ensures data[..] == Tabulate(rows, cols, MapFn(old(data[..]), cols, func))
    {
      ghost var orig := data[..];
      ghost var f := MapFn(orig, cols, func);
      FillStart(orig, cols, f);
      var i := 0;
      while i < rows
        invariant 0 <= i <= rows
        invariant FilledUpTo(data[..], orig, cols, f, i, 0)
      {
        var j := 0;
        while j < cols
          invariant 0 <= j <= cols
          invariant FilledUpTo(data[..], orig, cols, f, i, j)
        {
          FlatIndexBounds(i, j, rows, cols);
          var k := i * cols + j;
          ghost var before := data[..];
          FillStep(before, orig, cols, f, i, j);
          MapFnAt(orig, cols, func, i, j);
          var v := func(data[k], i, j);
          assert v == f(i, j);
          data[k] := v;
          assert data[..] == before[k := v];
          j := j + 1;
        }
        FillRowDone(data[..], orig, cols, f, i);
        i := i + 1;
      }
      FillEnd(data[..], orig, rows, cols, f);
    }

    /** Instance `multiply(n)` with a number: every entry times n. */
    method MultiplyScalar(n: real)
      requires Valid()
      modifies data
      ensures data[..] == Scaled(old(data[..]), n)
    {
      ghost var orig := data[..];
      var func := (el: real, i: nat, j: nat) => el * n;
      Map(func);
      forall i: nat, j: nat | i < rows && j < cols
        ensures MapFn(orig, cols, func)(i, j) == Entry(Scaled(orig, n), cols, i, j)
      {
        FlatIndexBounds(i, j, rows, cols);
        MapFnAt(orig, cols, func, i, j);
      }
      TabulateMatches(rows, cols, MapFn(orig, cols, func), Scaled(orig, n));
    }

    /** Instance `add(n)` with a number: every entry plus n. */
    method AddScalar(n: real)
      requires Valid()
      modifies data
      ensures data[..] == Shifted(old(data[..]), n)
    {
      ghost var orig := data[..];
      var func := (el: real, i: nat, j: nat) => el + n;
      Map(func);
      forall i: nat, j: nat | i < rows && j < cols
        ensures MapFn(orig, cols, func)(i, j) == Entry(Shifted(orig, n), cols, i, j)
      {
        FlatIndexBounds(i, j, rows, cols);
        MapFnAt(orig, cols, func, i, j);
      }
      TabulateMatches(rows, cols, MapFn(orig, cols, func), Shifted(orig, n));
    }

    /** Instance `multiply(n)` with a matrix of the same shape: entrywise product, in place. */
    method MultiplyElementwise(n: Matrix)
      requires Valid() && n.Valid() && n.rows == rows && n.cols == cols
      modifies data
      ensures data[..] == ElementwiseProduct(old(data[..]), old(n.data[..]))
    {
      ghost var orig := data[..];
      var other := n.data[..];
      var c := cols;
      var func := (el: real, i: nat, j: nat) => el * Entry(other, c, i, j);
      Map(func);
      forall i: nat, j: nat | i < rows && j < cols
        ensures MapFn(orig, cols, func)(i, j) == Entry(ElementwiseProduct(orig, other), cols, i, j)
      {
        FlatIndexBounds(i, j, rows, cols);
        MapFnAt(orig, cols, func, i, j);
        var k := i * cols + j;
        assert Entry(orig, cols, i, j) == orig[k] && Entry(other, c, i, j) == other[k];
        assert Entry(ElementwiseProduct(orig, other), cols, i, j) == orig[k] * other[k];
      }
      TabulateMatches(rows, cols, MapFn(orig, cols, func), ElementwiseProduct(orig, other));
    }

    /** Instance `add(n)` with a matrix of the same shape: entrywise sum, in place. */
    method AddElementwise(n: Matrix)
      requires Valid() && n.Valid() && n.rows == rows && n.cols == cols
      modifies data
      ensures data[..] == ElementwiseSum(old(data[..]), old(n.data[..]))
    {
      ghost var orig := data[..];
      var other := n.data[..];
      var c := cols;
      var func := (el: real, i: nat, j: nat) => el + Entry(other, c, i, j);
      Map(func);
      forall i: nat, j: nat | i < rows && j < cols
        ensures MapFn(orig, cols, func)(i, j) == Entry(ElementwiseSum(orig, other), cols, i, j)
      {
        FlatIndexBounds(i, j, rows, cols);
        MapFnAt(orig, cols, func, i, j);
        var k := i * cols + j;
        assert Entry(orig, cols, i, j) == orig[k] && Entry(other, c, i, j) == other[k];
        assert Entry(ElementwiseSum(orig, other), cols, i, j) == orig[k] + other[k];
      }
      TabulateMatches(rows, cols, MapFn(orig, cols, func), ElementwiseSum(orig, other));
    }

    /** An independent matrix with the same shape and entries. */
    method Copy() returns (result: Matrix)
      requires Valid()
      ensures fresh(result) && fresh(result.data) && result.Valid()
      ensures result.rows == rows && result.cols == cols && result.data[..] == data[..]
    {
      result := new Matrix(rows, cols);
      var d := data[..];
      var c := cols;
      var func := (el: real, i: nat, j: nat) => Entry(d, c, i, j);
      result.Map(func);
      forall i: nat, j: nat | i < rows && j < cols
        ensures MapFn(Zeros(rows * cols), cols, func)(i, j) == Entry(d, cols, i, j)
      {
        MapFnAt(Zeros(rows * cols), cols, func, i, j);
      }
      TabulateMatches(rows, cols, MapFn(Zeros(rows * cols), cols, func), d);
    }

    /** The row-major list of entries. */
    method ToArray() returns (arr: seq<real>)
      requires Valid()
      ensures arr == data[..]
    {
      ghost var f := EntryFn(data[..], cols);
      arr := [];
      var i := 0;
      while i < rows
        invariant 0 <= i <= rows
        invariant arr == Tabulate(i, cols, f)
      {
        var j := 0;
        while j < cols
          invariant 0 <= j <= cols
          invariant arr == Tabulate(i, cols, f) + RowOf(i, cols, f)[..j]
        {
          FlatIndexBounds(i, j, rows, cols);
          assert RowOf(i, cols, f)[..j + 1] == RowOf(i, cols, f)[..j] + [f(i, j)];
          arr := arr + [data[i * cols + j]];
          j := j + 1;
        }
        assert RowOf(i, cols, f)[..cols] == RowOf(i, cols, f);
        i := i + 1;
      }
      TabulateEntries(data[..], rows, cols);
    }

    /** An |arr| × 1 column holding arr. */
    static method FromArray(arr: seq<real>) returns (m: Matrix)
      ensures fresh(m) && fresh(m.data) && m.Valid()
      ensures m.rows == |arr| && m.cols == 1 && m.data[..] == arr
    {
      m := new Matrix(|arr|, 1);
      var i := 0;
      while i < |arr|
        invariant 0 <= i <= |arr|
        invariant forall p :: 0 <= p < i ==> m.data[p] == arr[p]
      {
        m.data[i * m.cols + 0] := arr[i];
        i := i + 1;
      }
    }

    /** A rows × cols matrix whose entry (i, j) is data[i*cols + j]. */
    static method FromJson(json: MatrixJson) returns (m: Matrix)
      requires |json.data| >= json.rows * json.cols
      ensures fresh(m) && fresh(m.data) && m.Valid()
      ensures m.rows == json.rows && m.cols == json.cols && m.data[..] == FromJsonData(json)
    {
      m := new Matrix(json.rows, json.cols);
      var d := json.data;
      var c := m.cols;
      var func := (el: real, i: nat, j: nat) => Entry(d, c, i, j);
      m.Map(func);
      forall i: nat, j: nat | i < json.rows && j < json.cols
        ensures MapFn(Zeros(json.rows * json.cols), c, func)(i, j) == EntryFn(d, c)(i, j)
      {
        MapFnAt(Zeros(json.rows * json.cols), c, func, i, j);
      }
      TabulateCongruent(json.rows, json.cols, MapFn(Zeros(json.rows * json.cols), c, func), EntryFn(d, c));
    }

    /** Static `map`: a new matrix of func(entry). */
    static method Mapped(matrix: Matrix, func: real -> real) returns (result: Matrix)
      requires matrix.Valid()
      ensures fresh(result) && fresh(result.data) && result.Valid()
      ensures result.rows == matrix.rows && result.cols == matrix.cols
      ensures result.data[..] == Applied(matrix.data[..], func)
    {
      result := new Matrix(matrix.rows, matrix.cols);
      var d := matrix.data[..];
      var c := matrix.cols;
      var cell := (el: real, i: nat, j: nat) => func(Entry(d, c, i, j));
      result.Map(cell);
      forall i: nat, j: nat | i < matrix.rows && j < matrix.cols
        ensures MapFn(Zeros(matrix.rows * c), c, cell)(i, j) == Entry(Applied(d, func), c, i, j)
      {
        MapFnAt(Zeros(matrix.rows * c), c, cell, i, j);
        FlatIndexBounds(i, j, matrix.rows, c);
        assert |d| == matrix.rows * c;
        assert Entry(d, c, i, j) == d[i * c + j];
        assert cell(Entry(Zeros(matrix.rows * c), c, i, j), i, j) == func(d[i * c + j]);
        assert Entry(Applied(d, func), c, i, j) == func(d[i * c + j]);
      }
      TabulateMatches(matrix.rows, c, MapFn(Zeros(matrix.rows * c), c, cell), Applied(d, func));
    }

    /** Static `transpose`: a cols × rows matrix with entry (i, j) = matrix(j, i). */
    static method Transpose(matrix: Matrix) returns (result: Matrix)
      requires matrix.Valid()
      ensures fresh(result) && fresh(result.data) && result.Valid()
      ensures result.rows == matrix.cols && result.cols == matrix.rows
      ensures result.data[..] == Transposed(matrix.data[..], matrix.rows, matrix.cols)
    {
      result := new Matrix(matrix.cols, matrix.rows);
      var d := matrix.data[..];
      var c := matrix.cols;
      var cell := (el: real, i: nat, j: nat) => Entry(d, c, j, i);
      result.Map(cell);
      forall i: nat, j: nat | i < matrix.cols && j < matrix.rows
        ensures MapFn(Zeros(matrix.cols * matrix.rows), matrix.rows, cell)(i, j) == SwapFn(d, c)(i, j)
      {
        MapFnAt(Zeros(matrix.cols * matrix.rows), matrix.rows, cell, i, j);
      }
      TabulateCongruent(matrix.cols, matrix.rows, MapFn(Zeros(matrix.cols * matrix.rows), matrix.rows, cell), SwapFn(d, c));
    }

    /** Static `add`: the entrywise sum, or an error when the shapes differ. */
    static method Add(a: Matrix, b: Matrix) returns (r: Result<Matrix, MatrixError>)
      requires a.Valid() && b.Valid()
      ensures r.Failure? <==> a.cols != b.cols || a.rows != b.rows
      ensures r.Failure? ==> r.error == DimensionMismatch
      ensures r.Success? ==> (fresh(r.value) && fresh(r.value.data) && r.value.Valid() &&
        r.value.rows == a.rows && r.value.cols == a.cols &&
        r.value.data[..] == ElementwiseSum(a.data[..], b.data[..]))
    {
      if a.cols != b.cols || a.rows != b.rows {
        return Failure(DimensionMismatch);
      }
      var result := new Matrix(a.rows, a.cols);
      var ad, bd := a.data[..], b.data[..];
      var c := a.cols;
      var cell := (el: real, i: nat, j: nat) => Entry(ad, c, i, j) + Entry(bd, c, i, j);
      result.Map(cell);
      forall i: nat, j: nat | i < a.rows && j < c
        ensures MapFn(Zeros(a.rows * c), c, cell)(i, j) == Entry(ElementwiseSum(ad, bd), c, i, j)
      {
        MapFnAt(Zeros(a.rows * c), c, cell, i, j);
        FlatIndexBounds(i, j, a.rows, c);
      }
      TabulateMatches(a.rows, c, MapFn(Zeros(a.rows * c), c, cell), ElementwiseSum(ad, bd));
      r := Success(result);
    }

    /** Static `subtract`: the entrywise difference, or an error when the shapes differ. */
    static method Subtract(a: Matrix, b: Matrix) returns (r: Result<Matrix, MatrixError>)
      requires a.Valid() && b.Valid()
      ensures r.Failure? <==> a.cols != b.cols || a.rows != b.rows
      ensures r.Failure? ==> r.error == DimensionMismatch
      ensures r.Success? ==> (fresh(r.value) && fresh(r.value.data) && r.value.Valid() &&
        r.value.rows == a.rows && r.value.cols == a.cols &&
        r.value.data[..] == ElementwiseDifference(a.data[..], b.data[..]))
    {
      if a.cols != b.cols || a.rows != b.rows {
        return Failure(DimensionMismatch);
      }
      var result := new Matrix(a.rows, a.cols);
      var ad, bd := a.data[..], b.data[..];
      var c := a.cols;
      var cell := (el: real, i: nat, j: nat) => Entry(ad, c, i, j) - Entry(bd, c, i, j);
      result.Map(cell);
      forall i: nat, j: nat | i < a.rows && j < c
        ensures MapFn(Zeros(a.rows * c), c, cell)(i, j) == Entry(ElementwiseDifference(ad, bd), c, i, j)
      {
        MapFnAt(Zeros(a.rows * c), c, cell, i, j);
        FlatIndexBounds(i, j, a.rows, c);
      }
      TabulateMatches(a.rows, c, MapFn(Zeros(a.rows * c), c, cell), ElementwiseDifference(ad, bd));
      r := Success(result);
    }

    /** The inner loop of `multiply`: row i of `a` times column j of `b`. */
    static method DotProduct(a: Matrix, b: Matrix, i: nat, j: nat) returns (sum: real)
      requires a.Valid() && b.Valid() && a.cols == b.rows && i < a.rows && j < b.cols
      ensures sum == Dot(a.data[..], b.data[..], a.cols, b.cols, i, j, a.cols)
    {
      sum := 0.0;
      var k := 0;
      while k < a.cols
        invariant 0 <= k <= a.cols
        invariant sum == Dot(a.data[..], b.data[..], a.cols, b.cols, i, j, k)
      {
        FlatIndexBounds(i, k, a.rows, a.cols);
        FlatIndexBounds(k, j, b.rows, b.cols);
        sum := sum + a.data[i * a.cols + k] * b.data[k * b.cols + j];
        k := k + 1;
      }
    }

    /** One pass of the middle loop of `multiply`: fill row i of `result` with dot products. */
    static method FillProductRow(a: Matrix, b: Matrix, result: Matrix, i: nat,
                                 ghost orig: seq<real>, ghost f: (nat, nat) -> real)
      requires a.Valid() && b.Valid() && result.Valid() && a.cols == b.rows && i < a.rows
      requires result.rows == a.rows && result.cols == b.cols && |orig| == a.rows * b.cols
      requires result.data != a.data && result.data != b.data
      requires f == DotFn(a.data[..], b.data[..], a.cols, b.cols)
      requires FilledUpTo(result.data[..], orig, b.cols, f, i, 0)
      modifies result.data
      ensures FilledUpTo(result.data[..], orig, b.cols, f, i + 1, 0)
    {
      var n := b.cols;
      var j := 0;
      while j < n
        invariant 0 <= j <= n
        invariant FilledUpTo(result.data[..], orig, n, f, i, j)
      {
        var sum := DotProduct(a, b, i, j);
        FlatIndexBounds(i, j, a.rows, n);
        var k := i * n + j;
        ghost var before := result.data[..];
        FillStep(before, orig, n, f, i, j);
        result.data[k] := sum;
        assert result.data[..] == before[k := f(i, j)];
        j := j + 1;
      }
      FillRowDone(result.data[..], orig, n, f, i);
    }

    /** Static `multiply`: the matrix product, or an error when a.cols != b.rows. */
    static method Multiply(a: Matrix, b: Matrix) returns (r: Result<Matrix, MatrixError>)
      requires a.Valid() && b.Valid()
      ensures r.Failure? <==> a.cols != b.rows
      ensures r.Failure? ==> r.error == DimensionMismatch
      ensures r.Success? ==> (fresh(r.value) && fresh(r.value.data) && r.value.Valid() &&
        r.value.rows == a.rows && r.value.cols == b.cols &&
        r.value.data[..] == Product(a.data[..], b.data[..], a.rows, a.cols, b.cols))
    {
      if a.cols != b.rows {
        return Failure(DimensionMismatch);
      }
      var result := new Matrix(a.rows, b.cols);
      ghost var orig := result.data[..];
      ghost var f := DotFn(a.data[..], b.data[..], a.cols, b.cols);
      FillStart(orig, b.cols, f);
      var i := 0;
      while i < a.rows
        invariant 0 <= i <= a.rows
        invariant FilledUpTo(result.data[..], orig, b.cols, f, i, 0)
      {
        FillProductRow(a, b, result, i, orig, f);
        i := i + 1;
      }
      FillEnd(result.data[..], orig, a.rows, b.cols, f);
      r := Success(result);
    }
  }
}
