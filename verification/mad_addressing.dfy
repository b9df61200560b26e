/** Location-based addressing of the Memory Augmented Decoder
    (models/encoder_solver/mad_interface.py): interpolation gating, circular
    convolution of an attention vector with a shift kernel, and sharpening.
    Every operation acts on one batch element; attention vectors have one
    entry per memory address. Parameters arrive already past their
    nonlinearities: the gate in [0,1], the shift kernel a distribution, the
    sharpening exponent a natural number. */
module MadAddressing {
  import opened Vectors

  // ---------------------------------------------------------------------
  // Interpolation gating
  // ---------------------------------------------------------------------

  /** `g * content + (1 - g) * prev`, address by address. */
  function Gate(g: real, content: Vector, prev: Vector): (r: Vector)
    requires |content| == |prev|
    ensures |r| == |content|
    ensures forall i :: 0 <= i < |r| ==> r[i] == g * content[i] + (1.0 - g) * prev[i]
  {
    Add(Scale(g, content), Scale(1.0 - g, prev))
  }

  /** The mass of a gated attention is the convex combination of the two
      masses. */
  lemma {:induction false} GateMass(g: real, content: Vector, prev: Vector)
    requires |content| == |prev|
    ensures Sum(Gate(g, content, prev)) == g * Sum(content) + (1.0 - g) * Sum(prev)
  {
    SumAdd(Scale(g, content), Scale(1.0 - g, prev));
    SumScale(g, content);
    SumScale(1.0 - g, prev);
  }

  /** Gating non-negative attentions with a gate in [0, 1] keeps every
      weight non-negative. */
  lemma {:induction false} GateNonNegative(g: real, content: Vector, prev: Vector)
    requires |content| == |prev|
    requires 0.0 <= g <= 1.0
    requires NonNegative(content) && NonNegative(prev)
    ensures NonNegative(Gate(g, content, prev))
  {
    var r := Gate(g, content, prev);
    forall i | 0 <= i < |r|
      ensures 0.0 <= r[i]
    {
      MulNonNegative(g, content[i]);
      MulNonNegative(1.0 - g, prev[i]);
    }
  }

  /** A convex combination of two distributions is a distribution. */
  lemma {:induction false} GatePreservesDistribution(g: real, content: Vector, prev: Vector)
    requires |content| == |prev|
    requires 0.0 <= g <= 1.0
    requires IsDistribution(content) && IsDistribution(prev)
    ensures IsDistribution(Gate(g, content, prev))
  {
    GateMass(g, content, prev);
    GateNonNegative(g, content, prev);
  }

  lemma {:induction false} MulNonNegative(a: real, b: real)
    requires 0.0 <= a && 0.0 <= b
    ensures 0.0 <= a * b
  {
  }

  /** A convex combination of two sub-distributions is a sub-distribution. */
  lemma {:induction false} GatePreservesSubDistribution(g: real, content: Vector, prev: Vector)
    requires |content| == |prev|
    requires 0.0 <= g <= 1.0
    requires SubDistribution(content) && SubDistribution(prev)
    ensures SubDistribution(Gate(g, content, prev))
  {
    GateMass(g, content, prev);
    ConvexBound(g, Sum(content), Sum(prev));
    GateNonNegative(g, content, prev);
  }

  lemma {:induction false} ConvexBound(g: real, x: real, y: real)
    requires 0.0 <= g <= 1.0 && x <= 1.0 && y <= 1.0
    ensures g * x + (1.0 - g) * y <= 1.0
  {
    assert g * x <= g * 1.0;
    assert (1.0 - g) * y <= (1.0 - g) * 1.0;
  }

  /** A fully open gate takes the content attention, a closed one keeps the
      previous attention. */
  lemma {:induction false} GateEndpoints(content: Vector, prev: Vector)
    requires |content| == |prev|
    ensures Gate(1.0, content, prev) == content
    ensures Gate(0.0, content, prev) == prev
  {
  }

  // ---------------------------------------------------------------------
  // Circular convolution
  // ---------------------------------------------------------------------

  /** Wrap an index once around `numAddr` addresses: a negative index gains
      `numAddr`, one at or past the end loses it. */
  function CircularIndex(idx: int, numAddr: int): (r: int)
    ensures -numAddr <= idx < 2 * numAddr ==> 0 <= r < numAddr
    ensures 0 <= idx < numAddr ==> r == idx
  {
    if idx < 0 then numAddr + idx
    else if idx >= numAddr then idx - numAddr
    else idx
  }

  /** Within one wrap on either side, the wrapped index is the residue of
      `idx` modulo `numAddr`: in range and congruent to `idx`. */
  lemma {:induction false} CircularIndexIsResidue(idx: int, numAddr: int)
    requires numAddr > 0
    requires -numAddr <= idx < 2 * numAddr
    ensures 0 <= CircularIndex(idx, numAddr) < numAddr
    ensures CircularIndex(idx, numAddr) == idx % numAddr
  {
    var r := CircularIndex(idx, numAddr);
    if idx < 0 {
      ModUnique(idx, numAddr, -1, r);
    } else if idx >= numAddr {
      ModUnique(idx, numAddr, 1, r);
    } else {
      ModUnique(idx, numAddr, 0, r);
    }
  }

  /** Euclidean remainder is determined by any quotient/remainder split. */
  lemma {:induction false} ModUnique(x: int, m: int, q: int, r: int)
    requires m > 0 && 0 <= r < m && x == q * m + r
    ensures x % m == r
  {
    var d := x / m - q;
    assert m * d == r - x % m;
    MulSmallIsZero(m, d);
  }

  lemma {:induction false} MulSmallIsZero(m: int, d: int)
    requires m > 0 && -m < m * d < m
    ensures d == 0
  {
  }

  /** Python's `range(lo, hi)`. */
  function PyRange(lo: int, hi: int): (r: seq<int>)
    ensures |r| == if lo < hi then hi - lo else 0
    ensures forall j :: 0 <= j < |r| ==> r[j] == lo + j
  {
    if lo < hi then seq(hi - lo, j => lo + j) else []
  }

  /** The extended index list: `circular_index` over
      `range(-S // 2 + 1, A + S // 2)`. Dafny's `/` by a positive divisor
      rounds down, as Python's `//` does. */
  function ExtendedIndices(shiftSize: nat, numAddr: nat): (r: seq<int>)
    ensures var lo, hi := (-(shiftSize as int)) / 2 + 1, numAddr + shiftSize / 2;
            && |r| == (if lo < hi then hi - lo else 0)
            && forall j :: 0 <= j < |r| ==> r[j] == CircularIndex(lo + j, numAddr)
  {
    var span := PyRange((-(shiftSize as int)) / 2 + 1, numAddr + shiftSize / 2);
    seq(|span|, j requires 0 <= j < |span| => CircularIndex(span[j], numAddr))
  }

  /** Shape of the extended index list for an odd kernel width S whose
      half-width c = S / 2 is at most A: A + S - 1 entries, entry j being
      `circular_index(j - c)`, every entry a valid address. */
  lemma {:induction false} ExtendedIndicesShape(shiftSize: nat, numAddr: nat)
    requires shiftSize % 2 == 1
    requires numAddr >= 1 && shiftSize / 2 <= numAddr
    ensures |ExtendedIndices(shiftSize, numAddr)| == numAddr + shiftSize - 1
    ensures forall j :: 0 <= j < numAddr + shiftSize - 1 ==>
              && ExtendedIndices(shiftSize, numAddr)[j] == CircularIndex(j - shiftSize / 2, numAddr)
              && 0 <= ExtendedIndices(shiftSize, numAddr)[j] < numAddr
  {
    assert (-(shiftSize as int)) / 2 == -(shiftSize / 2) - 1;
  }

  /** For an odd kernel width S with half-width c = (S-1)/2 no larger than A,
      the extended list has A + S - 1 entries, entry j is (j - c) mod A, and
      every entry is a valid address. */
  lemma {:induction false} ExtendedIndicesLayout(shiftSize: nat, numAddr: nat)
    requires shiftSize % 2 == 1
    requires numAddr >= 1 && shiftSize / 2 <= numAddr
    ensures |ExtendedIndices(shiftSize, numAddr)| == numAddr + shiftSize - 1
    ensures forall j :: 0 <= j < numAddr + shiftSize - 1 ==>
              && ExtendedIndices(shiftSize, numAddr)[j] == (j - shiftSize / 2) % numAddr
              && 0 <= ExtendedIndices(shiftSize, numAddr)[j] < numAddr
  {
    ExtendedIndicesShape(shiftSize, numAddr);
    var c := shiftSize / 2;
    forall j | 0 <= j < numAddr + shiftSize - 1
      ensures ExtendedIndices(shiftSize, numAddr)[j] == (j - c) % numAddr
    {
      CircularIndexIsResidue(j - c, numAddr);
    }
  }

  /** When the kernel's half-width exceeds the number of addresses, the first
      extended index is negative: `index_select` in
      `circular_convolution` then fails. */
  lemma {:induction false} ExtendedIndicesOutOfRange(shiftSize: nat, numAddr: nat)
    requires shiftSize % 2 == 1
    requires shiftSize / 2 > numAddr
    ensures |ExtendedIndices(shiftSize, numAddr)| > 0
    ensures ExtendedIndices(shiftSize, numAddr)[0] < 0
  {
    assert (-(shiftSize as int)) / 2 == -(shiftSize / 2) - 1;
  }

  /** What `F.conv1d` computes for one input channel and one filter (no
      padding, stride 1): a cross-correlation,
      out[i] = sum_k x[i + k] * kernel[k]. */
  function Correlate(x: Vector, kernel: Vector): (r: Vector)
    requires 1 <= |kernel| <= |x| + 1
    ensures |r| == |x| - |kernel| + 1
    ensures forall i :: 0 <= i < |r| ==> r[i] == Sum(Mul(x[i..i + |kernel|], kernel))
  {
    seq(|x| - |kernel| + 1, i requires 0 <= i <= |x| - |kernel| =>
      Sum(Mul(x[i..i + |kernel|], kernel)))
  }

  /** Kernel widths the convolution accepts for `numAddr` addresses: odd, and
      at most one wrap on each side. */
  predicate ValidKernel(kernel: Vector, numAddr: nat) {
    |kernel| % 2 == 1 && numAddr >= 1 && |kernel| / 2 <= numAddr
  }

  /** `index_select` of the attention along the extended index list. */
  function ExtendedAttention(att: Vector, shiftSize: nat): (r: Vector)
    requires shiftSize % 2 == 1 && |att| >= 1 && shiftSize / 2 <= |att|
    ensures |r| == |att| + shiftSize - 1
    ensures forall j :: 0 <= j < |r| ==> r[j] == att[CircularIndex(j - shiftSize / 2, |att|)]
  {
    ExtendedIndicesShape(shiftSize, |att|);
    var ext := ExtendedIndices(shiftSize, |att|);
    seq(|ext|, j requires 0 <= j < |ext| => att[ext[j]])
  }

  /** Circular convolution: gather the attention along the extended index
      list, then correlate with the kernel. */
  function CircularConvolution(att: Vector, kernel: Vector): (r: Vector)
    requires ValidKernel(kernel, |att|)
    ensures |r| == |att|
  {
    Correlate(ExtendedAttention(att, |kernel|), kernel)
  }

  /** The terms of output entry `i`: the attention `k - c` addresses along
      (wrapping around), weighted by kernel entry `k`. */
  function ShiftTerms(att: Vector, kernel: Vector, i: nat): (r: Vector)
    requires ValidKernel(kernel, |att|) && i < |att|
    ensures |r| == |kernel|
    ensures forall k :: 0 <= k < |kernel| ==>
              r[k] == att[CircularIndex(i + k - |kernel| / 2, |att|)] * kernel[k]
  {
    seq(|kernel|, k requires 0 <= k < |kernel| =>
      att[CircularIndex(i + k - |kernel| / 2, |att|)] * kernel[k])
  }

  lemma {:induction false} ConvolutionTerms(att: Vector, kernel: Vector, i: nat)
    requires ValidKernel(kernel, |att|) && i < |att|
    ensures CircularConvolution(att, kernel)[i] == Sum(ShiftTerms(att, kernel, i))
  {
    var ext := ExtendedAttention(att, |kernel|);
    var window := ext[i..i + |kernel|];
    var product := Mul(window, kernel);
    var terms := ShiftTerms(att, kernel, i);
    forall k | 0 <= k < |kernel|
      ensures product[k] == terms[k]
    {
      assert window[k] == ext[i + k];
    }
    assert product == terms;
  }

  /** The terms of the reference definition, with `%` in place of the
      extended index list. */
  function ReferenceTerms(att: Vector, kernel: Vector, i: nat): (r: Vector)
    requires |att| >= 1
    ensures |r| == |kernel|
    ensures forall k :: 0 <= k < |kernel| ==>
              r[k] == att[(i + k - |kernel| / 2) % |att|] * kernel[k]
  {
    seq(|kernel|, k requires 0 <= k < |kernel| =>
      att[(i + k - |kernel| / 2) % |att|] * kernel[k])
  }

  /** Reference definition of circular convolution in terms of `%`:
      out[i] = sum_k att[(i + k - c) mod A] * kernel[k]. */
  function ShiftReference(att: Vector, kernel: Vector): (r: Vector)
    requires |att| >= 1
    ensures |r| == |att|
  {
    seq(|att|, i requires 0 <= i < |att| => Sum(ReferenceTerms(att, kernel, i)))
  }

  lemma {:induction false} TermsMatchReference(att: Vector, kernel: Vector, i: nat)
    requires ValidKernel(kernel, |att|) && i < |att|
    ensures ShiftTerms(att, kernel, i) == ReferenceTerms(att, kernel, i)
  {
    var c := |kernel| / 2;
    var terms := ShiftTerms(att, kernel, i);
    var reference := ReferenceTerms(att, kernel, i);
    forall k | 0 <= k < |kernel|
      ensures terms[k] == reference[k]
    {
      CircularIndexIsResidue(i + k - c, |att|);
    }
  }

  /** The extended-index construction computes exactly the circular
      convolution of its reference definition. */
  lemma {:induction false} ConvolutionMatchesReference(att: Vector, kernel: Vector)
    requires ValidKernel(kernel, |att|)
    ensures CircularConvolution(att, kernel) == ShiftReference(att, kernel)
  {
    forall i | 0 <= i < |att|
      ensures CircularConvolution(att, kernel)[i] == ShiftReference(att, kernel)[i]
    {
      ConvolutionTerms(att, kernel, i);
      TermsMatchReference(att, kernel, i);
    }
  }

  /** Rotation of the attention by `d` addresses: entry i becomes the entry
      `d` places further along, wrapping around. */
  function Rotate(a: Vector, d: int): (r: Vector)
    requires -|a| <= d <= |a|
    ensures |r| == |a|
    ensures forall i :: 0 <= i < |a| ==> r[i] == a[CircularIndex(i + d, |a|)]
  {
    seq(|a|, i requires 0 <= i < |a| => a[CircularIndex(i + d, |a|)])
  }

  /** Rotation only reorders the entries, so it keeps their sum. */
  lemma {:induction false} RotateSum(a: Vector, d: int)
    requires -|a| <= d <= |a|
    ensures Sum(Rotate(a, d)) == Sum(a)
  {
    var e := if d >= 0 then d else |a| + d;
    var r := Rotate(a, d);
    forall i | 0 <= i < |a|
      ensures r[i] == (a[e..] + a[..e])[i]
    {
      if i < |a| - e {
        assert (a[e..] + a[..e])[i] == a[e + i];
      } else {
        assert (a[e..] + a[..e])[i] == a[i + e - |a|];
      }
    }
    assert r == a[e..] + a[..e];
    assert a == a[..e] + a[e..];
    SumAppend(a[e..], a[..e]);
    SumAppend(a[..e], a[e..]);
  }

  /** Rotating a hard attention on address k by d moves it to address
      k - d, wrapping around. */
  lemma {:induction false} RotateOneHot(numAddr: nat, k: nat, d: int)
    requires k < numAddr && -(numAddr as int) <= d <= numAddr
    ensures Rotate(OneHot(numAddr, k), d) == OneHot(numAddr, CircularIndex(k - d, numAddr))
  {
    var r := Rotate(OneHot(numAddr, k), d);
    var target := CircularIndex(k - d, numAddr);
    forall i | 0 <= i < numAddr
      ensures r[i] == OneHot(numAddr, target)[i]
    {
      CircularIndexIsResidue(i + d, numAddr);
      CircularIndexIsResidue(k - d, numAddr);
    }
  }

  /** Rotating by `d` and then by `-d` restores the attention. */
  lemma {:induction false} RotateRoundTrip(a: Vector, d: int)
    requires -|a| <= d <= |a|
    ensures Rotate(Rotate(a, d), -d) == a
  {
    var there := Rotate(a, d);
    var back := Rotate(there, -d);
    forall i | 0 <= i < |a|
      ensures back[i] == a[i]
    {
      var j := CircularIndex(i - d, |a|);
      assert back[i] == there[j];
      assert CircularIndex(j + d, |a|) == i;
    }
  }

  /** The terms of the convolution laid out as an A x S matrix. */
  function TermMatrix(att: Vector, kernel: Vector): (m: Matrix)
    requires ValidKernel(kernel, |att|)
    ensures IsMatrix(m, |att|, |kernel|)
    ensures forall i :: 0 <= i < |att| ==> m[i] == ShiftTerms(att, kernel, i)
  {
    seq(|att|, i requires 0 <= i < |att| => ShiftTerms(att, kernel, i))
  }

  /** Column k of the term matrix is the attention rotated by k - c,
      weighted by kernel entry k. */
  lemma {:induction false} TermColumn(att: Vector, kernel: Vector, k: nat)
    requires ValidKernel(kernel, |att|) && k < |kernel|
    ensures -|att| <= k - |kernel| / 2 <= |att|
    ensures Column(TermMatrix(att, kernel), k) == Scale(kernel[k], Rotate(att, k - |kernel| / 2))
  {
    var m := TermMatrix(att, kernel);
    var column := Column(m, k);
    var scaled := Scale(kernel[k], Rotate(att, k - |kernel| / 2));
    forall i | 0 <= i < |att|
      ensures column[i] == scaled[i]
    {
      assert m[i] == ShiftTerms(att, kernel, i);
    }
  }

  lemma {:induction false} ConvolutionRowSums(att: Vector, kernel: Vector)
    requires ValidKernel(kernel, |att|)
    ensures CircularConvolution(att, kernel) == RowSums(TermMatrix(att, kernel))
  {
    var m := TermMatrix(att, kernel);
    forall i | 0 <= i < |att|
      ensures CircularConvolution(att, kernel)[i] == RowSums(m)[i]
    {
      ConvolutionTerms(att, kernel, i);
    }
  }

  lemma {:induction false} TermColumnSum(att: Vector, kernel: Vector, k: nat)
    requires ValidKernel(kernel, |att|) && k < |kernel|
    ensures Sum(Column(TermMatrix(att, kernel), k)) == Sum(Scale(kernel[k], att))
  {
    TermColumn(att, kernel, k);
    ScaledRotationSum(att, k - |kernel| / 2, kernel[k]);
  }

  /** Scaling commutes with rotation, so a scaled rotation keeps the scaled
      sum. */
  lemma {:induction false} ScaledRotationSum(att: Vector, d: int, c: real)
    requires -|att| <= d <= |att|
    ensures Sum(Scale(c, Rotate(att, d))) == Sum(Scale(c, att))
  {
    var left := Scale(c, Rotate(att, d));
    var right := Rotate(Scale(c, att), d);
    forall i | 0 <= i < |att|
      ensures left[i] == right[i]
    {
    }
    assert left == right;
    RotateSum(Scale(c, att), d);
  }

  lemma {:induction false} ScaledSum(c: real, v: Vector)
    ensures Sum(Scale(c, v)) == Sum(v) * c
  {
    SumScale(c, v);
  }

  /** Total mass of the convolution: the product of the attention's and the
      kernel's masses. */
  lemma {:induction false} ConvolutionSum(att: Vector, kernel: Vector)
    requires ValidKernel(kernel, |att|)
    ensures Sum(CircularConvolution(att, kernel)) == Sum(att) * Sum(kernel)
  {
    var m := TermMatrix(att, kernel);
    var columns := ColumnSums(m, |kernel|);
    assert Sum(CircularConvolution(att, kernel)) == Sum(RowSums(m)) by {
      ConvolutionRowSums(att, kernel);
    }
    assert Sum(RowSums(m)) == Sum(columns) by {
      SumRowsColumns(m, |kernel|);
    }
    forall k | 0 <= k < |kernel|
      ensures columns[k] == Sum(Scale(kernel[k], att))
    {
      TermColumnSum(att, kernel, k);
    }
    MassFromColumns(Sum(CircularConvolution(att, kernel)), columns, att, kernel);
  }

  /** If column k carries kernel[k] times the attention's mass, the columns
      together carry the product of both masses. */
  lemma {:induction false} MassFromColumns(total: real, columns: Vector, att: Vector, kernel: Vector)
    requires |columns| == |kernel| && total == Sum(columns)
    requires forall k :: 0 <= k < |kernel| ==> columns[k] == Sum(Scale(kernel[k], att))
    ensures total == Sum(att) * Sum(kernel)
  {
    forall k | 0 <= k < |kernel|
      ensures columns[k] == Scale(Sum(att), kernel)[k]
    {
      ScaledSum(kernel[k], att);
    }
    assert columns == Scale(Sum(att), kernel);
    SumScale(Sum(att), kernel);
  }

  lemma {:induction false} ConvolutionEntryNonNegative(att: Vector, kernel: Vector, i: nat)
    requires ValidKernel(kernel, |att|) && i < |att|
    requires NonNegative(att) && NonNegative(kernel)
    ensures 0.0 <= CircularConvolution(att, kernel)[i]
  {
    ConvolutionTerms(att, kernel, i);
    ShiftTermsNonNegative(att, kernel, i);
    SumNonNegative(ShiftTerms(att, kernel, i));
  }

  lemma {:induction false} ShiftTermsNonNegative(att: Vector, kernel: Vector, i: nat)
    requires ValidKernel(kernel, |att|) && i < |att|
    requires NonNegative(att) && NonNegative(kernel)
    ensures NonNegative(ShiftTerms(att, kernel, i))
  {
    var t := ShiftTerms(att, kernel, i);
    forall k | 0 <= k < |kernel|
      ensures 0.0 <= t[k]
    {
      MulNonNegative(att[CircularIndex(i + k - |kernel| / 2, |att|)], kernel[k]);
    }
  }

  /** Circular convolution of a distribution with a distribution kernel is a
      distribution. */
  lemma {:induction false} ConvolutionPreservesDistribution(att: Vector, kernel: Vector)
    requires ValidKernel(kernel, |att|)
    requires IsDistribution(att) && IsDistribution(kernel)
    ensures IsDistribution(CircularConvolution(att, kernel))
  {
    ConvolutionSum(att, kernel);
    forall i | 0 <= i < |att|
      ensures 0.0 <= CircularConvolution(att, kernel)[i]
    {
      ConvolutionEntryNonNegative(att, kernel, i);
    }
  }

  /** Convolving a sub-distribution with a distribution kernel keeps it a
      sub-distribution. */
  lemma {:induction false} ConvolutionPreservesSubDistribution(att: Vector, kernel: Vector)
    requires ValidKernel(kernel, |att|)
    requires SubDistribution(att) && IsDistribution(kernel)
    ensures SubDistribution(CircularConvolution(att, kernel))
  {
    var out := CircularConvolution(att, kernel);
    ConvolutionSum(att, kernel);
    assert Sum(out) == Sum(att) * 1.0;
    forall i | 0 <= i < |out|
      ensures 0.0 <= out[i]
    {
      ConvolutionEntryNonNegative(att, kernel, i);
    }
  }

  /** A kernel one-hot at index c + d moves the attention by d addresses:
      out[i] = att[(i + d) mod A]. */
  lemma {:induction false} ConvolutionOneHot(att: Vector, shiftSize: nat, d: int)
    requires ValidKernel(OneHot(shiftSize, 0), |att|)
    requires -(shiftSize / 2) <= d <= shiftSize / 2
    ensures CircularConvolution(att, OneHot(shiftSize, shiftSize / 2 + d)) == Rotate(att, d)
  {
    var c := shiftSize / 2;
    var kernel := OneHot(shiftSize, c + d);
    forall i | 0 <= i < |att|
      ensures CircularConvolution(att, kernel)[i] == Rotate(att, d)[i]
    {
      ConvolutionOneHotEntry(att, shiftSize, d, i);
    }
  }

  /** One address of `ConvolutionOneHot`. */
  lemma {:induction false} ConvolutionOneHotEntry(att: Vector, shiftSize: nat, d: int, i: nat)
    requires ValidKernel(OneHot(shiftSize, 0), |att|) && i < |att|
    requires -(shiftSize / 2) <= d <= shiftSize / 2
    ensures CircularConvolution(att, OneHot(shiftSize, shiftSize / 2 + d))[i] == Rotate(att, d)[i]
  {
    var c := shiftSize / 2;
    var kernel := OneHot(shiftSize, c + d);
    var terms := ShiftTerms(att, kernel, i);
    ConvolutionTerms(att, kernel, i);
    assert forall k :: 0 <= k < |terms| && k != c + d ==> terms[k] == 0.0;
    SumSingleEntry(terms, c + d);
    assert terms[c + d] == att[CircularIndex(i + d, |att|)] * 1.0;
  }

  /** A kernel one-hot at its centre leaves the attention unchanged. */
  lemma {:induction false} ConvolutionCentreIdentity(att: Vector, shiftSize: nat)
    requires ValidKernel(OneHot(shiftSize, 0), |att|)
    ensures CircularConvolution(att, OneHot(shiftSize, shiftSize / 2)) == att
  {
    ConvolutionOneHot(att, shiftSize, 0);
    assert Rotate(att, 0) == att;
  }

  /** A one-hot shift by d followed by a one-hot shift by -d returns the
      attention to where it started. */
  lemma {:induction false} ShiftRoundTrip(att: Vector, shiftSize: nat, d: int)
    requires ValidKernel(OneHot(shiftSize, 0), |att|)
    requires -(shiftSize / 2) <= d <= shiftSize / 2
    ensures var there := CircularConvolution(att, OneHot(shiftSize, shiftSize / 2 + d));
            CircularConvolution(there, OneHot(shiftSize, shiftSize / 2 - d)) == att
  {
    ConvolutionOneHot(att, shiftSize, d);
    ShiftBack(att, shiftSize, d);
  }

  lemma {:induction false} ShiftBack(att: Vector, shiftSize: nat, d: int)
    requires ValidKernel(OneHot(shiftSize, 0), |att|)
    requires -(shiftSize / 2) <= d <= shiftSize / 2
    ensures CircularConvolution(Rotate(att, d), OneHot(shiftSize, shiftSize / 2 - d)) == att
  {
    var there := Rotate(att, d);
    var kernel := OneHot(shiftSize, shiftSize / 2 - d);
    assert kernel == OneHot(shiftSize, shiftSize / 2 + -d);
    assert CircularConvolution(there, kernel) == Rotate(there, -d) by {
      ConvolutionOneHot(there, shiftSize, -d);
    }
    RotateRoundTrip(att, d);
  }

  // ---------------------------------------------------------------------
  // Sharpening
  // ---------------------------------------------------------------------

  /** `eps` of `F.normalize`: the L1 norm is clamped below by it. */
  const NormalizeEps: real := 0.000000000001

  function Pow(x: real, n: nat): real
    decreases n
  {
    if n == 0 then 1.0 else x * Pow(x, n - 1)
  }

  function Abs(x: real): real {
    if x < 0.0 then -x else x
  }

  function Max(a: real, b: real): real {
    if a < b then b else a
  }

  function AbsAll(v: Vector): (r: Vector)
    ensures |r| == |v|
  {
    seq(|v|, i requires 0 <= i < |v| => Abs(v[i]))
  }

  function L1Norm(v: Vector): real {
    Sum(AbsAll(v))
  }

  /** `F.normalize(v, p=1)`: divide by the L1 norm clamped below by eps. */
  function L1Normalize(v: Vector): (r: Vector)
    ensures |r| == |v|
    ensures forall i :: 0 <= i < |v| ==> r[i] == v[i] / Max(L1Norm(v), NormalizeEps)
  {
    var d := Max(L1Norm(v), NormalizeEps);
    seq(|v|, i requires 0 <= i < |v| => v[i] / d)
  }

  /** Every entry raised to the sharpening exponent. */
  function Powered(att: Vector, gamma: nat): (r: Vector)
    ensures |r| == |att|
    ensures forall i :: 0 <= i < |att| ==> r[i] == Pow(att[i], gamma)
  {
    seq(|att|, i requires 0 <= i < |att| => Pow(att[i], gamma))
  }

  /** Sharpening: raise to `gamma`, then L1-normalise. */
  function Sharpen(att: Vector, gamma: nat): (r: Vector)
    ensures |r| == |att|
    ensures forall i :: 0 <= i < |att| ==>
              r[i] == Pow(att[i], gamma) / Max(L1Norm(Powered(att, gamma)), NormalizeEps)
  {
    L1Normalize(Powered(att, gamma))
  }

  lemma {:induction false} PowNonNegative(x: real, n: nat)
    requires 0.0 <= x
    ensures 0.0 <= Pow(x, n)
    decreases n
  {
    if n > 0 {
      PowNonNegative(x, n - 1);
    }
  }

  lemma {:induction false} PowMonotone(x: real, y: real, n: nat)
    requires 0.0 <= x <= y
    ensures Pow(x, n) <= Pow(y, n)
    decreases n
  {
    if n > 0 {
      PowMonotone(x, y, n - 1);
      PowNonNegative(x, n - 1);
      assert x * Pow(x, n - 1) <= y * Pow(x, n - 1) <= y * Pow(y, n - 1);
    }
  }

  lemma {:induction false} PowZeroOne(n: nat)
    ensures Pow(1.0, n) == 1.0
    ensures n >= 1 ==> Pow(0.0, n) == 0.0
    decreases n
  {
    if n > 0 {
      PowZeroOne(n - 1);
    }
  }

  lemma {:induction false} AbsAllNonNegative(v: Vector)
    requires NonNegative(v)
    ensures AbsAll(v) == v
  {
  }

  /** Sharpening keeps entries non-negative with total at most one, and the
      total is exactly one whenever the powered entries have mass at least
      the normalisation floor. */
  lemma {:induction false} SharpenBounds(att: Vector, gamma: nat)
    requires NonNegative(att)
    ensures NonNegative(Sharpen(att, gamma))
    ensures Sum(Sharpen(att, gamma)) <= 1.0
    ensures Sum(Powered(att, gamma)) >= NormalizeEps ==> Sum(Sharpen(att, gamma)) == 1.0
  {
    var p := Powered(att, gamma);
    PoweredNonNegative(att, gamma);
    AbsAllNonNegative(p);
    SumNonNegative(p);
    NormalizeScales(p);
    var d := Max(Sum(p), NormalizeEps);
    forall i | 0 <= i < |p|
      ensures 0.0 <= Sharpen(att, gamma)[i]
    {
      QuotientNonNegative(p[i], d);
    }
    QuotientBound(Sum(p), d);
  }

  /** Below the normalisation floor the sharpened attention is the powered
      attention divided by the floor, so it carries less than unit mass. */
  lemma {:induction false} SharpenBelowFloor(att: Vector, gamma: nat)
    requires NonNegative(att)
    requires Sum(Powered(att, gamma)) < NormalizeEps
    ensures Sum(Sharpen(att, gamma)) == Sum(Powered(att, gamma)) / NormalizeEps
    ensures Sum(Sharpen(att, gamma)) < 1.0
  {
    var p := Powered(att, gamma);
    PoweredNonNegative(att, gamma);
    NormalizeScales(p);
    assert Max(Sum(p), NormalizeEps) == NormalizeEps;
  }

  lemma {:induction false} PoweredNonNegative(att: Vector, gamma: nat)
    requires NonNegative(att)
    ensures NonNegative(Powered(att, gamma))
  {
    forall i | 0 <= i < |att|
      ensures 0.0 <= Powered(att, gamma)[i]
    {
      PowNonNegative(att[i], gamma);
    }
  }

  /** For a non-negative vector the normalised vector sums to the total
      divided by the clamped norm. */
  lemma {:induction false} NormalizeScales(p: Vector)
    requires NonNegative(p)
    ensures Sum(L1Normalize(p)) == Sum(p) / Max(Sum(p), NormalizeEps)
  {
    AbsAllNonNegative(p);
    var d := Max(Sum(p), NormalizeEps);
    assert L1Normalize(p) == Scale(1.0 / d, p);
    SumScale(1.0 / d, p);
  }

  lemma {:induction false} QuotientNonNegative(x: real, d: real)
    requires 0.0 <= x && 0.0 < d
    ensures 0.0 <= x / d
  {
  }

  /** A non-negative total divided by the total clamped below by a positive
      floor is at most one, and exactly one once the total reaches the floor. */
  lemma {:induction false} QuotientBound(s: real, d: real)
    requires 0.0 <= s && d == Max(s, NormalizeEps)
    ensures s / d <= 1.0
    ensures s >= NormalizeEps ==> s / d == 1.0
  {
  }

  /** Sharpening never reorders addresses: a heavier address stays at least
      as heavy. */
  lemma {:induction false} SharpenMonotone(att: Vector, gamma: nat, i: nat, j: nat)
    requires NonNegative(att)
    requires i < |att| && j < |att| && att[i] <= att[j]
    ensures Sharpen(att, gamma)[i] <= Sharpen(att, gamma)[j]
  {
    PowMonotone(att[i], att[j], gamma);
  }

  /** With exponent one a distribution is left as it is. */
  lemma {:induction false} SharpenExponentOne(att: Vector)
    requires IsDistribution(att)
    ensures Sharpen(att, 1) == att
  {
    var p := Powered(att, 1);
    assert p == att;
    AbsAllNonNegative(att);
  }

  /** A hard (one-hot) attention is a fixed point of sharpening for any
      positive exponent. */
  lemma {:induction false} SharpenOneHot(n: nat, k: nat, gamma: nat)
    requires k < n && gamma >= 1
    ensures Sharpen(OneHot(n, k), gamma) == OneHot(n, k)
  {
    PowZeroOne(gamma);
    var p := Powered(OneHot(n, k), gamma);
    assert p == OneHot(n, k);
    AbsAllNonNegative(p);
    SumOneHot(n, k);
  }
}
