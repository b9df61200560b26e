/** Reading and writing the external memory of the Memory Augmented Decoder
    (models/encoder_solver/mad_interface.py, `read_from_memory` and
    `update_memory`). The memory is one batch element's A x C matrix: one row
    of C content bits per address. */
module MadMemory {
  import opened Vectors

  /** The read vector: entry c is the attention-weighted sum of column c,
      that is `attention^T x memory`. */
  function ReadFromMemory(att: Vector, mem: Matrix, width: nat): (r: Vector)
    requires IsMatrix(mem, |att|, width)
    ensures |r| == width
    ensures forall c :: 0 <= c < width ==> r[c] == Sum(Mul(att, Column(mem, c)))
  {
    seq(width, c requires 0 <= c < width => Sum(Mul(att, Column(mem, c))))
  }

  /** Reference definition of the read: the sum over addresses of each row
      scaled by its attention weight. */
  function WeightedRows(att: Vector, mem: Matrix, width: nat): (r: Vector)
    requires IsMatrix(mem, |att|, width)
    ensures |r| == width
    decreases |att|
  {
    if |att| == 0 then Zeros(width)
    else Add(Scale(att[0], mem[0]), WeightedRows(att[1..], mem[1..], width))
  }

  /** The column-by-column read equals the row-by-row weighted sum. */
  lemma {:induction false} ReadIsWeightedRows(att: Vector, mem: Matrix, width: nat)
    requires IsMatrix(mem, |att|, width)
    ensures ReadFromMemory(att, mem, width) == WeightedRows(att, mem, width)
    decreases |att|
  {
    var r := ReadFromMemory(att, mem, width);
    var w := WeightedRows(att, mem, width);
    if |att| == 0 {
      forall c | 0 <= c < width
        ensures r[c] == w[c]
      {
        assert Mul(att, Column(mem, c)) == [];
      }
    } else {
      ReadIsWeightedRows(att[1..], mem[1..], width);
      var rest := ReadFromMemory(att[1..], mem[1..], width);
      forall c | 0 <= c < width
        ensures r[c] == w[c]
      {
        ReadEntryStep(att, mem, width, c);
      }
    }
  }

  /** Peeling off the first address of one read entry. */
  lemma {:induction false} ReadEntryStep(att: Vector, mem: Matrix, width: nat, c: nat)
    requires IsMatrix(mem, |att|, width) && |att| > 0 && c < width
    ensures ReadFromMemory(att, mem, width)[c]
              == att[0] * mem[0][c] + ReadFromMemory(att[1..], mem[1..], width)[c]
  {
    var terms := Mul(att, Column(mem, c));
    var tail := Mul(att[1..], Column(mem[1..], c));
    forall a | 0 <= a < |tail|
      ensures terms[1..][a] == tail[a]
    {
      assert mem[1..][a] == mem[a + 1];
    }
    assert terms[1..] == tail;
  }

  /** A hard attention on address k reads row k. */
  lemma {:induction false} ReadOneHot(mem: Matrix, width: nat, k: nat)
    requires IsMatrix(mem, |mem|, width) && k < |mem|
    ensures ReadFromMemory(OneHot(|mem|, k), mem, width) == mem[k]
  {
    var r := ReadFromMemory(OneHot(|mem|, k), mem, width);
    forall c | 0 <= c < width
      ensures r[c] == mem[k][c]
    {
      SumSingleEntry(Mul(OneHot(|mem|, k), Column(mem, c)), k);
    }
  }

  /** Reading with a distribution yields a convex combination of the rows:
      every entry stays within any bounds that hold for the whole memory. */
  lemma {:induction false} ReadBounded(att: Vector, mem: Matrix, width: nat, lo: real, hi: real)
    requires IsMatrix(mem, |att|, width)
    requires IsDistribution(att)
    requires forall a, c :: 0 <= a < |att| && 0 <= c < width ==> lo <= mem[a][c] <= hi
    ensures forall c :: 0 <= c < width ==> lo <= ReadFromMemory(att, mem, width)[c] <= hi
  {
    forall c | 0 <= c < width
      ensures lo <= ReadFromMemory(att, mem, width)[c] <= hi
    {
      ReadEntryBounded(att, Column(mem, c), lo, hi);
    }
  }

  lemma {:induction false} ReadEntryBounded(att: Vector, column: Vector, lo: real, hi: real)
    requires |column| == |att| && IsDistribution(att)
    requires forall a :: 0 <= a < |att| ==> lo <= column[a] <= hi
    ensures lo <= Sum(Mul(att, column)) <= hi
  {
    var terms := Mul(att, column);
    forall a | 0 <= a < |att|
      ensures Scale(lo, att)[a] <= terms[a] <= Scale(hi, att)[a]
    {
      MulBetween(att[a], column[a], lo, hi);
    }
    SumLessEqual(Scale(lo, att), terms);
    SumLessEqual(terms, Scale(hi, att));
    SumScale(lo, att);
    SumScale(hi, att);
  }

  lemma {:induction false} MulBetween(w: real, x: real, lo: real, hi: real)
    requires 0.0 <= w && lo <= x <= hi
    ensures lo * w <= w * x <= hi * w
  {
    assert w * (x - lo) >= 0.0 && w * (hi - x) >= 0.0;
  }

  // ---------------------------------------------------------------------
  // Writing
  // ---------------------------------------------------------------------

  /** One memory row after a write with weight `weight`: every bit is first
      erased in proportion to `weight * erase[c]`, then `weight * add[c]` is
      added. */
  function WriteRow(row: Vector, weight: real, erase: Vector, add: Vector): (r: Vector)
    requires |row| == |erase| == |add|
    ensures |r| == |row|
    ensures weight == 0.0 ==> r == row
    ensures weight == 1.0 && erase == Constant(|row|, 1.0) ==> r == add
  {
    seq(|row|, c requires 0 <= c < |row| =>
      row[c] * (1.0 - weight * erase[c]) + weight * add[c])
  }

  /** `update_memory`: address a is rewritten with weight w[a]. Addresses
      the write attention ignores keep their row; an address it fully
      attends with a full erase takes the add vector. */
  function UpdateMemory(w: Vector, erase: Vector, add: Vector, mem: Matrix): (r: Matrix)
    requires IsMatrix(mem, |w|, |erase|) && |add| == |erase|
    ensures IsMatrix(r, |w|, |erase|)
    ensures forall a :: 0 <= a < |w| && w[a] == 0.0 ==> r[a] == mem[a]
    ensures forall a :: 0 <= a < |w| && w[a] == 1.0 && erase == Constant(|erase|, 1.0) ==> r[a] == add
    ensures forall a, c :: 0 <= a < |w| && 0 <= c < |erase| ==>
              r[a][c] == mem[a][c] * (1.0 - w[a] * erase[c]) + w[a] * add[c]
  {
    seq(|w|, a requires 0 <= a < |w| => WriteRow(mem[a], w[a], erase, add))
  }

  /** A hard write at address k with a full erase replaces row k by the add
      vector and leaves every other row as it was. */
  lemma {:induction false} WriteOneHotReplaces(mem: Matrix, width: nat, k: nat, add: Vector)
    requires IsMatrix(mem, |mem|, width) && k < |mem| && |add| == width
    ensures var r := UpdateMemory(OneHot(|mem|, k), Constant(width, 1.0), add, mem);
            && r[k] == add
            && forall a :: 0 <= a < |mem| && a != k ==> r[a] == mem[a]
  {
  }

  /** Reading back a hard write at address k with a full erase returns
      exactly what was added. */
  lemma {:induction false} ReadAfterWrite(mem: Matrix, width: nat, k: nat, add: Vector)
    requires IsMatrix(mem, |mem|, width) && k < |mem| && |add| == width
    ensures var written := UpdateMemory(OneHot(|mem|, k), Constant(width, 1.0), add, mem);
            ReadFromMemory(OneHot(|mem|, k), written, width) == add
  {
    var written := UpdateMemory(OneHot(|mem|, k), Constant(width, 1.0), add, mem);
    WriteOneHotReplaces(mem, width, k, add);
    ReadOneHot(written, width, k);
  }

  /** A write with weights, erase and add bits in [0, 1] keeps a
      non-negative memory non-negative. */
  lemma {:induction false} WritePreservesNonNegative(w: Vector, erase: Vector, add: Vector, mem: Matrix)
    requires IsMatrix(mem, |w|, |erase|) && |add| == |erase|
    requires forall a :: 0 <= a < |w| ==> 0.0 <= w[a] <= 1.0
    requires forall c :: 0 <= c < |erase| ==> 0.0 <= erase[c] <= 1.0 && 0.0 <= add[c]
    requires forall a, c :: 0 <= a < |w| && 0 <= c < |erase| ==> 0.0 <= mem[a][c]
    ensures forall a, c :: 0 <= a < |w| && 0 <= c < |erase| ==>
              0.0 <= UpdateMemory(w, erase, add, mem)[a][c]
  {
    var r := UpdateMemory(w, erase, add, mem);
    forall a, c | 0 <= a < |w| && 0 <= c < |erase|
      ensures 0.0 <= r[a][c]
    {
      WriteCellNonNegative(mem[a][c], w[a], erase[c], add[c]);
    }
  }

  lemma {:induction false} WriteCellNonNegative(m: real, w: real, e: real, x: real)
    requires 0.0 <= m && 0.0 <= w <= 1.0 && 0.0 <= e <= 1.0 && 0.0 <= x
    ensures 0.0 <= m * (1.0 - w * e) + w * x
  {
    assert w * e <= 1.0 by {
      assert w * e <= w * 1.0;
    }
    assert 0.0 <= m * (1.0 - w * e);
    assert 0.0 <= w * x;
  }
}
