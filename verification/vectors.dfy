/** Finite real vectors and matrices as sequences, with the sums and the
    elementwise operations the memory interface and the data generators are
    built from. PyTorch and NumPy tensors become nested sequences: a
    matrix is a sequence of rows. */
module Vectors {

  type Vector = seq<real>
  type Matrix = seq<Vector>

  /** Sum of all entries, first entry first. */
  function Sum(v: Vector): real
    decreases |v|
  {
    if |v| == 0 then 0.0 else v[0] + Sum(v[1..])
  }

  /** Sum of a sequence of naturals. */
  function SumNat(xs: seq<nat>): nat
    decreases |xs|
  {
    if |xs| == 0 then 0 else SumNat(xs[..|xs| - 1]) + xs[|xs| - 1]
  }

  function Zeros(n: nat): (r: Vector)
    ensures |r| == n
    ensures forall i :: 0 <= i < n ==> r[i] == 0.0
  {
    seq(n, i => 0.0)
  }

  function Constant(n: nat, x: real): (r: Vector)
    ensures |r| == n
    ensures forall i :: 0 <= i < n ==> r[i] == x
  {
    seq(n, i => x)
  }

  /** The vector of width `n` with a single 1 at index `k` (all zeros when
      `k` is out of range). */
  function OneHot(n: nat, k: int): (r: Vector)
    ensures |r| == n
    ensures forall i :: 0 <= i < n ==> r[i] == (if i == k then 1.0 else 0.0)
  {
    seq(n, i => if i == k then 1.0 else 0.0)
  }

  function Scale(c: real, v: Vector): (r: Vector)
    ensures |r| == |v|
    ensures forall i :: 0 <= i < |v| ==> r[i] == c * v[i]
  {
    seq(|v|, i requires 0 <= i < |v| => c * v[i])
  }

  function Add(a: Vector, b: Vector): (r: Vector)
    requires |a| == |b|
    ensures |r| == |a|
    ensures forall i :: 0 <= i < |a| ==> r[i] == a[i] + b[i]
  {
    seq(|a|, i requires 0 <= i < |a| => a[i] + b[i])
  }

  /** Elementwise (Hadamard) product. */
  function Mul(a: Vector, b: Vector): (r: Vector)
    requires |a| == |b|
    ensures |r| == |a|
    ensures forall i :: 0 <= i < |a| ==> r[i] == a[i] * b[i]
  {
    seq(|a|, i requires 0 <= i < |a| => a[i] * b[i])
  }

  predicate NonNegative(v: Vector) {
    forall i :: 0 <= i < |v| ==> 0.0 <= v[i]
  }

  /** A probability distribution: non-negative entries summing to one. */
  predicate IsDistribution(v: Vector) {
    NonNegative(v) && Sum(v) == 1.0
  }

  /** Non-negative entries with total mass at most one: what an attention
      vector stays once the L1 normalisation may fall short of mass one. */
  predicate SubDistribution(v: Vector) {
    NonNegative(v) && Sum(v) <= 1.0
  }

  /** `m` has `rows` rows, each of width `cols`. */
  predicate IsMatrix(m: Matrix, rows: nat, cols: nat) {
    |m| == rows && forall i :: 0 <= i < |m| ==> |m[i]| == cols
  }

  function ConstantMatrix(rows: nat, cols: nat, x: real): (r: Matrix)
    ensures IsMatrix(r, rows, cols)
    ensures forall i, j :: 0 <= i < rows && 0 <= j < cols ==> r[i][j] == x
  {
    seq(rows, i => Constant(cols, x))
  }

  /** Column `k` of a matrix whose rows all reach index `k`. */
  function Column(m: Matrix, k: nat): (r: Vector)
    requires forall i :: 0 <= i < |m| ==> k < |m[i]|
    ensures |r| == |m|
    ensures forall i :: 0 <= i < |m| ==> r[i] == m[i][k]
  {
    seq(|m|, i requires 0 <= i < |m| => m[i][k])
  }

  function RowSums(m: Matrix): (r: Vector)
    ensures |r| == |m|
    ensures forall i :: 0 <= i < |m| ==> r[i] == Sum(m[i])
  {
    seq(|m|, i requires 0 <= i < |m| => Sum(m[i]))
  }

  function ColumnSums(m: Matrix, cols: nat): (r: Vector)
    requires IsMatrix(m, |m|, cols)
    ensures |r| == cols
    ensures forall k :: 0 <= k < cols ==> r[k] == Sum(Column(m, k))
  {
    seq(cols, k requires 0 <= k < cols => Sum(Column(m, k)))
  }

  /** The cumulative sums of `sizes` with a leading zero, as
      `np.cumsum(np.insert(sizes, 0, 0))` computes them: one more entry than
      there are sizes, starting at 0, consecutive differences equal to the
      sizes, ending at their total. */
  function PrefixSums(sizes: seq<nat>): (r: seq<nat>)
    ensures |r| == |sizes| + 1
    ensures r[0] == 0
    ensures forall i :: 0 <= i < |sizes| ==> r[i + 1] == r[i] + sizes[i]
    ensures r[|sizes|] == SumNat(sizes)
    decreases |sizes|
  {
    if |sizes| == 0 then [0]
    else
      var p := PrefixSums(sizes[..|sizes| - 1]);
      p + [p[|p| - 1] + sizes[|sizes| - 1]]
  }

  /** Prefix sums never decrease and never exceed the total. */
  lemma {:induction false} PrefixSumsMonotone(sizes: seq<nat>, i: nat, j: nat)
    requires i <= j <= |sizes|
    ensures PrefixSums(sizes)[i] <= PrefixSums(sizes)[j] <= SumNat(sizes)
    decreases 2 * |sizes| - i - j
  {
    var p := PrefixSums(sizes);
    if i < j {
      PrefixSumsMonotone(sizes, i + 1, j);
      assert p[i + 1] == p[i] + sizes[i];
    } else if j < |sizes| {
      PrefixSumsMonotone(sizes, j + 1, |sizes|);
      assert p[j + 1] == p[j] + sizes[j];
    }
  }

  // ---------------------------------------------------------------------
  // Facts about sums
  // ---------------------------------------------------------------------

  lemma {:induction false} SumAppend(a: Vector, b: Vector)
    ensures Sum(a + b) == Sum(a) + Sum(b)
    decreases |a|
  {
    if |a| == 0 {
      assert a + b == b;
    } else {
      assert (a + b)[1..] == a[1..] + b;
      SumAppend(a[1..], b);
    }
  }

  lemma {:induction false} SumScale(c: real, v: Vector)
    ensures Sum(Scale(c, v)) == c * Sum(v)
    decreases |v|
  {
    if |v| > 0 {
      var scaled := Scale(c, v);
      var rest := v[1..];
      assert forall i :: 0 <= i < |rest| ==> scaled[1..][i] == Scale(c, rest)[i];
      assert scaled[1..] == Scale(c, rest);
      SumScale(c, rest);
      assert Sum(scaled) == c * v[0] + c * Sum(rest);
      assert c * v[0] + c * Sum(rest) == c * (v[0] + Sum(rest));
    }
  }

  lemma {:induction false} SumAdd(a: Vector, b: Vector)
    requires |a| == |b|
    ensures Sum(Add(a, b)) == Sum(a) + Sum(b)
    decreases |a|
  {
    if |a| > 0 {
      assert Add(a, b)[1..] == Add(a[1..], b[1..]);
      SumAdd(a[1..], b[1..]);
    }
  }

  /** Sums are monotone in every entry. */
  lemma {:induction false} SumLessEqual(a: Vector, b: Vector)
    requires |a| == |b|
    requires forall i :: 0 <= i < |a| ==> a[i] <= b[i]
    ensures Sum(a) <= Sum(b)
    decreases |a|
  {
    if |a| > 0 {
      SumLessEqual(a[1..], b[1..]);
    }
  }

  lemma {:induction false} SumNonNegative(v: Vector)
    requires NonNegative(v)
    ensures Sum(v) >= 0.0
  {
    SumLessEqual(Zeros(|v|), v);
    SumZeros(|v|);
  }

  lemma {:induction false} SumZeros(n: nat)
    ensures Sum(Zeros(n)) == 0.0
    decreases n
  {
    if n > 0 {
      assert Zeros(n)[1..] == Zeros(n - 1);
      SumZeros(n - 1);
    }
  }

  /** A vector that vanishes everywhere except at `k` sums to its entry at `k`. */
  lemma {:induction false} SumSingleEntry(v: Vector, k: nat)
    requires k < |v|
    requires forall i :: 0 <= i < |v| && i != k ==> v[i] == 0.0
    ensures Sum(v) == v[k]
    decreases |v|
  {
    if k == 0 {
      assert v[1..] == Zeros(|v| - 1);
      SumZeros(|v| - 1);
    } else {
      SumSingleEntry(v[1..], k - 1);
    }
  }

  lemma {:induction false} SumOneHot(n: nat, k: nat)
    requires k < n
    ensures Sum(OneHot(n, k)) == 1.0
  {
    SumSingleEntry(OneHot(n, k), k);
  }

  lemma {:induction false} OneHotIsDistribution(n: nat, k: nat)
    requires k < n
    ensures IsDistribution(OneHot(n, k))
  {
    SumOneHot(n, k);
  }

  /** Summing a matrix row by row or column by column gives the same total. */
  lemma {:induction false} SumRowsColumns(m: Matrix, cols: nat)
    requires IsMatrix(m, |m|, cols)
    ensures Sum(RowSums(m)) == Sum(ColumnSums(m, cols))
    decreases |m|
  {
    if |m| == 0 {
      assert ColumnSums(m, cols) == Zeros(cols);
      SumZeros(cols);
    } else {
      var rest := m[1..];
      SumRowsColumns(rest, cols);
      assert RowSums(m)[1..] == RowSums(rest);
      forall k | 0 <= k < cols
        ensures ColumnSums(m, cols)[k] == Add(m[0], ColumnSums(rest, cols))[k]
      {
        assert Column(m, k)[1..] == Column(rest, k);
      }
      assert ColumnSums(m, cols) == Add(m[0], ColumnSums(rest, cols));
      SumAdd(m[0], ColumnSums(rest, cols));
    }
  }
}
