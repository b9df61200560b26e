/** The serial-recall problem with command lines and double repeat
    (miprometheus/problems/seq_to_seq/algorithmic/recall/serial_recall_cl_double_repeat.py):
    construction checks and the layout of one generated batch. The random
    draws (the sequence length, the odd and even bit vectors and the control
    lines of the recall part) are parameters. A sample has 2L + 2 time steps:
    the store marker, L data steps alternating the odd and the even bit
    vector, the recall marker, then L recall steps whose targets repeat the
    data. */
module SerialRecall {
  import opened Vectors
  import opened Outcomes

  /** Control channel of the store marker and of the recall marker. */
  const StoreBit: nat := 0
  const RecallBit: nat := 1

  /** Widths used when the configuration names none. */
  const DefaultControlBits: int := 2
  const DefaultDataBits: int := 8

  datatype Problem = Problem(
    controlBits: nat,
    dataBits: nat,
    minSequenceLength: nat,
    maxSequenceLength: nat)

  datatype ProblemError =
    | TooFewControlBits(controlBits: int)
    | TooFewDataBits(dataBits: int)

  /** The constructor: at least two control bits (room for both markers),
      then at least one data bit. */
  function NewProblem(controlBits: int, dataBits: int, minLength: nat, maxLength: nat)
    : (r: Result<Problem, ProblemError>)
    ensures r.Ok? <==> controlBits >= 2 && dataBits >= 1
    ensures controlBits < 2 ==> r == Err(TooFewControlBits(controlBits))
    ensures controlBits >= 2 && dataBits < 1 ==> r == Err(TooFewDataBits(dataBits))
    ensures r.Ok? ==> && r.value.controlBits == controlBits && r.value.dataBits == dataBits
                      && StoreBit < r.value.controlBits && RecallBit < r.value.controlBits
  {
    if controlBits < 2 then Err(TooFewControlBits(controlBits))
    else if dataBits < 1 then Err(TooFewDataBits(dataBits))
    else Ok(Problem(controlBits, dataBits, minLength, maxLength))
  }

  /** The default widths pass the constructor's checks. */
  lemma {:induction false} DefaultsAccepted(minLength: nat, maxLength: nat)
    ensures NewProblem(DefaultControlBits, DefaultDataBits, minLength, maxLength).Ok?
  {
  }

  // ---------------------------------------------------------------------
  // Strided row assignment
  // ---------------------------------------------------------------------

  /** `row[col:col + len(value)] = value`. */
  function Overwrite(row: Vector, col: nat, value: Vector): (r: Vector)
    requires col + |value| <= |row|
    ensures |r| == |row|
    ensures forall j :: 0 <= j < |row| ==>
              r[j] == if col <= j < col + |value| then value[j - col] else row[j]
  {
    row[..col] + value + row[col + |value|..]
  }

  /** Rows start, start + step, ... below stop, as the slice
      `start:stop:step` selects them. */
  predicate Selected(i: int, start: nat, stop: int, step: nat)
    requires step >= 1
  {
    start <= i < stop && (i - start) % step == 0
  }

  /** `m[start:stop:step, col:col + len(value)] = value`, the value broadcast
      to every selected row. */
  function SetRows(m: Matrix, start: nat, stop: int, step: nat, col: nat, value: Vector): (r: Matrix)
    requires step >= 1
    requires forall i :: 0 <= i < |m| ==> col + |value| <= |m[i]|
    ensures |r| == |m|
    ensures forall i :: 0 <= i < |m| ==>
              r[i] == if Selected(i, start, stop, step) then Overwrite(m[i], col, value) else m[i]
  {
    seq(|m|, i requires 0 <= i < |m| =>
      if Selected(i, start, stop, step) then Overwrite(m[i], col, value) else m[i])
  }

  /** Overwriting a zero row leaves zeros around the value. */
  lemma {:induction false} OverwriteZeros(n: nat, col: nat, value: Vector)
    requires col + |value| <= n
    ensures Overwrite(Zeros(n), col, value) == Zeros(col) + value + Zeros(n - col - |value|)
  {
    var r := Overwrite(Zeros(n), col, value);
    var expected := Zeros(col) + value + Zeros(n - col - |value|);
    forall j | 0 <= j < n
      ensures r[j] == expected[j]
    {
    }
  }

  // ---------------------------------------------------------------------
  // Layout of one sample
  // ---------------------------------------------------------------------

  /** The control part of a marker: only channel `bit` set. */
  function Marker(controlBits: nat, bit: nat): (r: Vector)
    requires bit < controlBits
    ensures |r| == controlBits && r[bit] == 1.0
    ensures forall j :: 0 <= j < controlBits && j != bit ==> r[j] == 0.0
  {
    OneHot(controlBits, bit)
  }

  /** The random parts of one sample, with the widths their generators give
      them. */
  predicate ValidDraw(p: Problem, odd: Vector, even: Vector, ctrlAux: Vector) {
    && StoreBit < p.controlBits && RecallBit < p.controlBits
    && |odd| == p.dataBits && |even| == p.dataBits && |ctrlAux| == p.controlBits
  }

  /** The store marker and the data steps, before the recall part is laid
      down. */
  function StorePart(p: Problem, len: nat, odd: Vector, even: Vector): (r: Matrix)
    requires StoreBit < p.controlBits && |odd| == p.dataBits && |even| == p.dataBits
    ensures IsMatrix(r, 2 * len + 2, p.controlBits + p.dataBits)
  {
    var width := p.controlBits + p.dataBits;
    var blank := ConstantMatrix(2 * len + 2, width, 0.0);
    var withStore := SetRows(blank, 0, 1, 1, 0, Marker(p.controlBits, StoreBit));
    var withOdd := SetRows(withStore, 1, len + 1, 2, p.controlBits, odd);
    SetRows(withOdd, 2, len + 1, 2, p.controlBits, even)
  }

  /** The input sequence of one sample, built by the same assignments, in the
      same order, as the generator. */
  function Inputs(p: Problem, len: nat, odd: Vector, even: Vector, ctrlAux: Vector): (r: Matrix)
    requires ValidDraw(p, odd, even, ctrlAux)
    ensures IsMatrix(r, 2 * len + 2, p.controlBits + p.dataBits)
  {
    var stored := StorePart(p, len, odd, even);
    var withRecall := SetRows(stored, len + 1, len + 2, 1, 0, Marker(p.controlBits, RecallBit));
    SetRows(withRecall, len + 2, 2 * len + 2, 1, 0, ctrlAux)
  }

  /** The target sequence of one sample: data bits only. */
  function Targets(p: Problem, len: nat, odd: Vector, even: Vector): (r: Matrix)
    requires |odd| == p.dataBits && |even| == p.dataBits
    ensures IsMatrix(r, 2 * len + 2, p.dataBits)
  {
    var blank := ConstantMatrix(2 * len + 2, p.dataBits, 0.0);
    var withOdd := SetRows(blank, len + 2, 2 * len + 2, 2, 0, odd);
    SetRows(withOdd, len + 3, 2 * len + 2, 2, 0, even)
  }

  /** The target mask of one sample, one channel per step. */
  function Mask(len: nat): (r: Matrix)
    ensures IsMatrix(r, 2 * len + 2, 1)
    ensures forall t :: 0 <= t < |r| ==> r[t] == [if t >= len + 2 then 1.0 else 0.0]
  {
    SetRows(ConstantMatrix(2 * len + 2, 1, 0.0), len + 2, 2 * len + 2, 1, 0, [1.0])
  }

  /** Step 0 carries the store marker and nothing else. */
  lemma {:induction false} StoreMarkerStep(p: Problem, len: nat, odd: Vector, even: Vector, ctrlAux: Vector)
    requires ValidDraw(p, odd, even, ctrlAux)
    ensures Inputs(p, len, odd, even, ctrlAux)[0]
              == Marker(p.controlBits, StoreBit) + Zeros(p.dataBits)
  {
    var width := p.controlBits + p.dataBits;
    OverwriteZeros(width, 0, Marker(p.controlBits, StoreBit));
    assert Zeros(0) + Marker(p.controlBits, StoreBit) == Marker(p.controlBits, StoreBit);
  }

  /** Step L + 1 carries the recall marker and nothing else. */
  lemma {:induction false} RecallMarkerStep(p: Problem, len: nat, odd: Vector, even: Vector, ctrlAux: Vector)
    requires ValidDraw(p, odd, even, ctrlAux)
    ensures Inputs(p, len, odd, even, ctrlAux)[len + 1]
              == Marker(p.controlBits, RecallBit) + Zeros(p.dataBits)
  {
    var width := p.controlBits + p.dataBits;
    OverwriteZeros(width, 0, Marker(p.controlBits, RecallBit));
    assert Zeros(0) + Marker(p.controlBits, RecallBit) == Marker(p.controlBits, RecallBit);
  }

  /** Data steps 1..L have zero control bits and alternate the odd bit
      vector (odd steps) and the even bit vector (even steps). */
  lemma {:induction false} DataSteps(p: Problem, len: nat, odd: Vector, even: Vector, ctrlAux: Vector, t: nat)
    requires ValidDraw(p, odd, even, ctrlAux)
    requires 1 <= t <= len
    ensures Inputs(p, len, odd, even, ctrlAux)[t]
              == Zeros(p.controlBits) + (if t % 2 == 1 then odd else even)
  {
    assert Inputs(p, len, odd, even, ctrlAux)[t] == StorePart(p, len, odd, even)[t];
    StorePartDataStep(p, len, odd, even, t);
  }

  lemma {:induction false} StorePartDataStep(p: Problem, len: nat, odd: Vector, even: Vector, t: nat)
    requires StoreBit < p.controlBits && |odd| == p.dataBits && |even| == p.dataBits
    requires 1 <= t <= len
    ensures StorePart(p, len, odd, even)[t]
              == Zeros(p.controlBits) + (if t % 2 == 1 then odd else even)
  {
    var width := p.controlBits + p.dataBits;
    var data := if t % 2 == 1 then odd else even;
    assert StorePart(p, len, odd, even)[t] == Overwrite(Zeros(width), p.controlBits, data);
    OverwriteZeros(width, p.controlBits, data);
    assert Zeros(0) == [];
  }

  /** Recall steps L + 2 .. 2L + 1 carry the control lines and no data. */
  lemma {:induction false} RecallSteps(p: Problem, len: nat, odd: Vector, even: Vector, ctrlAux: Vector, t: nat)
    requires ValidDraw(p, odd, even, ctrlAux)
    requires len + 2 <= t < 2 * len + 2
    ensures Inputs(p, len, odd, even, ctrlAux)[t] == ctrlAux + Zeros(p.dataBits)
  {
    var width := p.controlBits + p.dataBits;
    var r := Inputs(p, len, odd, even, ctrlAux);
    var expected := ctrlAux + Zeros(p.dataBits);
    forall j | 0 <= j < width
      ensures r[t][j] == expected[j]
    {
    }
  }

  /** The targets are zero up to the recall marker; from step L + 2 on they
      alternate the odd and the even bit vector. */
  lemma {:induction false} TargetSteps(p: Problem, len: nat, odd: Vector, even: Vector, t: nat)
    requires |odd| == p.dataBits && |even| == p.dataBits
    requires t < 2 * len + 2
    ensures Targets(p, len, odd, even)[t]
              == if t < len + 2 then Zeros(p.dataBits)
                 else if (t - len) % 2 == 0 then odd
                 else even
  {
    var r := Targets(p, len, odd, even);
    if t >= len + 2 {
      OverwriteZeros(p.dataBits, 0, odd);
      OverwriteZeros(p.dataBits, 0, even);
      assert Zeros(0) + odd + Zeros(0) == odd;
      assert Zeros(0) + even + Zeros(0) == even;
    }
  }

  /** The copy relation: recall step t = L + 2 + j asks for exactly the data
      bits of input step t - L - 1 = 1 + j, and every other target step is zero. */
  lemma {:induction false} CopyRelation(p: Problem, len: nat, odd: Vector, even: Vector, ctrlAux: Vector)
    requires ValidDraw(p, odd, even, ctrlAux)
    ensures forall t :: len + 2 <= t < 2 * len + 2 ==>
              Targets(p, len, odd, even)[t]
                == Inputs(p, len, odd, even, ctrlAux)[t - len - 1][p.controlBits..]
    ensures forall t :: 0 <= t < len + 2 ==> Targets(p, len, odd, even)[t] == Zeros(p.dataBits)
  {
    var inputs := Inputs(p, len, odd, even, ctrlAux);
    var targets := Targets(p, len, odd, even);
    forall t | len + 2 <= t < 2 * len + 2
      ensures targets[t] == inputs[t - len - 1][p.controlBits..]
    {
      DataSteps(p, len, odd, even, ctrlAux, t - len - 1);
      TargetSteps(p, len, odd, even, t);
      var data := if (t - len - 1) % 2 == 1 then odd else even;
      assert (Zeros(p.controlBits) + data)[p.controlBits..] == data;
    }
    forall t | 0 <= t < len + 2
      ensures targets[t] == Zeros(p.dataBits)
    {
      TargetSteps(p, len, odd, even, t);
    }
  }

  /** The mask is set exactly on the recall steps. */
  lemma {:induction false} MaskMarksRecall(len: nat, t: nat)
    requires t < 2 * len + 2
    ensures Mask(len)[t][0] == 1.0 <==> t >= len + 2
    ensures Mask(len)[t][0] == 0.0 <==> t < len + 2
  {
  }

  // ---------------------------------------------------------------------
  // A batch
  // ---------------------------------------------------------------------

  datatype Batch = Batch(
    sequences: seq<Matrix>,
    sequencesLength: seq<nat>,
    targets: seq<Matrix>,
    masks: seq<Matrix>,
    numSubsequences: seq<nat>)

  /** `generate_batch` with the draws as parameters: one length for the whole
      batch, and per sample its odd and even bit vectors; the control lines
      of the recall part are shared by the whole batch. */
  function GenerateBatch(p: Problem, len: nat, odds: seq<Vector>, evens: seq<Vector>, ctrlAux: Vector)
    : (r: Batch)
    requires p.minSequenceLength <= len <= p.maxSequenceLength
    requires |odds| == |evens|
    requires forall b :: 0 <= b < |odds| ==> ValidDraw(p, odds[b], evens[b], ctrlAux)
    ensures |r.sequences| == |r.targets| == |r.masks| == |odds|
    ensures |r.sequencesLength| == |r.numSubsequences| == |odds|
    ensures forall b :: 0 <= b < |odds| ==>
              && p.minSequenceLength <= r.sequencesLength[b] <= p.maxSequenceLength
              && r.sequencesLength[b] == len
              && r.numSubsequences[b] == 1
              && IsMatrix(r.sequences[b], 2 * len + 2, p.controlBits + p.dataBits)
              && IsMatrix(r.targets[b], 2 * len + 2, p.dataBits)
              && IsMatrix(r.masks[b], 2 * len + 2, 1)
  {
    var n := |odds|;
    Batch(
      seq(n, b requires 0 <= b < n => Inputs(p, len, odds[b], evens[b], ctrlAux)),
      seq(n, b => len),
      seq(n, b requires 0 <= b < n =>
        assert ValidDraw(p, odds[b], evens[b], ctrlAux); Targets(p, len, odds[b], evens[b])),
      seq(n, b => Mask(len)),
      seq(n, b => 1))
  }

  /** In every sample of a batch the targets repeat the data steps. */
  lemma {:induction false} BatchCopyRelation(p: Problem, len: nat, odds: seq<Vector>, evens: seq<Vector>, ctrlAux: Vector,
                          b: nat, j: nat)
    requires p.minSequenceLength <= len <= p.maxSequenceLength
    requires |odds| == |evens|
    requires forall b :: 0 <= b < |odds| ==> ValidDraw(p, odds[b], evens[b], ctrlAux)
    requires b < |odds| && j < len
    ensures var batch := GenerateBatch(p, len, odds, evens, ctrlAux);
            batch.targets[b][len + 2 + j] == batch.sequences[b][1 + j][p.controlBits..]
  {
    CopyRelation(p, len, odds[b], evens[b], ctrlAux);
  }
}
