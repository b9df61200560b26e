/** The marker-separated copy-sequence generator of the scratch-pad task
    (data_gen/build_data_scratch_pad_t3.py): the initial state of the
    model it feeds, and one iteration of the generator. An iteration draws a
    number of markers n, n + 1 subsequence lengths and the data bits; the
    draws are parameters here. The data rows are split into the subsequences
    by inserting a zero separator row after each but the last, two control
    channels are put in front (channel 1 flags the separators), the final
    subsequence is the target, and a recall block of as many steps, with
    only channel 0 set, is appended to the inputs. */
module ScratchPad {
  import opened Vectors
  import opened Outcomes

  // ---------------------------------------------------------------------
  // Initial state
  // ---------------------------------------------------------------------

  /** The initial outputs and states, per batch element: the output and the
      state of the controller, the attention of every head over the N
      addresses, and the M x N memory. */
  datatype InitialState = InitialState(
    tmOutput: Matrix,
    tmState: Matrix,
    attention: seq<Matrix>,
    memory: seq<Matrix>)

  /** Setting address 0 of an attention over no addresses is an index
      error. */
  datatype InitError = NoAddresses

  /** Every memory cell starts at this value. */
  const InitialMemoryValue: real := 0.01

  function InitState(batchSize: nat, tmOutputUnits: nat, tmStateUnits: nat, numHeads: nat,
                     numAddr: nat, memoryRows: nat): (r: Result<InitialState, InitError>)
    ensures r.Ok? <==> numAddr >= 1
    ensures r.Ok? ==>
              && IsMatrix(r.value.tmOutput, batchSize, tmOutputUnits)
              && IsMatrix(r.value.tmState, batchSize, tmStateUnits)
              && (forall b, j :: 0 <= b < batchSize && 0 <= j < tmOutputUnits ==> r.value.tmOutput[b][j] == 1.0)
              && (forall b, j :: 0 <= b < batchSize && 0 <= j < tmStateUnits ==> r.value.tmState[b][j] == 1.0)
              && |r.value.attention| == batchSize && |r.value.memory| == batchSize
              && forall b :: 0 <= b < batchSize ==>
                   && IsMatrix(r.value.attention[b], numHeads, numAddr)
                   && IsMatrix(r.value.memory[b], memoryRows, numAddr)
                   && (forall h :: 0 <= h < numHeads ==> r.value.attention[b][h] == OneHot(numAddr, 0))
                   && forall i, a :: 0 <= i < memoryRows && 0 <= a < numAddr ==>
                        r.value.memory[b][i][a] == InitialMemoryValue
  {
    if numAddr == 0 then Err(NoAddresses)
    else
      Ok(InitialState(
        ConstantMatrix(batchSize, tmOutputUnits, 1.0),
        ConstantMatrix(batchSize, tmStateUnits, 1.0),
        seq(batchSize, b => seq(numHeads, h => OneHot(numAddr, 0))),
        seq(batchSize, b => ConstantMatrix(memoryRows, numAddr, InitialMemoryValue))))
  }

  /** Every initial attention is a distribution, hard on address 0. */
  lemma {:induction false} InitAttentionIsDistribution(batchSize: nat, tmOutputUnits: nat, tmStateUnits: nat,
                                    numHeads: nat, numAddr: nat, memoryRows: nat, b: nat, h: nat)
    requires numAddr >= 1 && b < batchSize && h < numHeads
    ensures var r := InitState(batchSize, tmOutputUnits, tmStateUnits, numHeads, numAddr, memoryRows);
            r.Ok? && IsDistribution(r.value.attention[b][h]) && r.value.attention[b][h][0] == 1.0
  {
    OneHotIsDistribution(numAddr, 0);
  }

  // ---------------------------------------------------------------------
  // Separator insertion
  // ---------------------------------------------------------------------

  predicate NonDecreasing(ps: seq<nat>) {
    forall i, j :: 0 <= i <= j < |ps| ==> ps[i] <= ps[j]
  }

  /** Positions that can all be inserted into `rows` rows. */
  predicate InsertablePositions(ps: seq<nat>, rows: nat) {
    NonDecreasing(ps) && forall k :: 0 <= k < |ps| ==> ps[k] <= rows
  }

  /** `np.insert(m, ps, 0, axis=0)` for non-decreasing positions: a zero row
      goes in before original row ps[k] for every k. */
  function InsertZeroRows(m: Matrix, ps: seq<nat>, width: nat): (r: Matrix)
    requires InsertablePositions(ps, |m|)
    ensures |r| == |m| + |ps|
    decreases |ps|
  {
    if |ps| == 0 then m
    else
      var last := ps[|ps| - 1];
      InsertZeroRows(m[..last], ps[..|ps| - 1], width) + [Zeros(width)] + m[last..]
  }

  /** Where the separators end up: the k-th inserted row lands at ps[k] + k. */
  function SeparatorPositions(ps: seq<nat>): (r: seq<nat>)
    ensures |r| == |ps|
    ensures forall k :: 0 <= k < |ps| ==> r[k] == ps[k] + k
  {
    seq(|ps|, k requires 0 <= k < |ps| => ps[k] + k)
  }

  /** Drop the rows at the given strictly increasing positions. */
  function RemoveRows(m: Matrix, qs: seq<nat>): Matrix
    requires forall k :: 0 <= k < |qs| ==> qs[k] < |m|
    requires forall i, j :: 0 <= i < j < |qs| ==> qs[i] < qs[j]
    decreases |qs|
  {
    if |qs| == 0 then m
    else
      var last := qs[|qs| - 1];
      RemoveRows(m[..last], qs[..|qs| - 1]) + m[last + 1..]
  }

  lemma {:induction false} SeparatorPositionsIncrease(ps: seq<nat>)
    requires NonDecreasing(ps)
    ensures forall i, j :: 0 <= i < j < |ps| ==> SeparatorPositions(ps)[i] < SeparatorPositions(ps)[j]
  {
  }

  /** The k-th separator is a zero row at position ps[k] + k. */
  lemma {:induction false} SeparatorsAreZeroRows(m: Matrix, ps: seq<nat>, width: nat)
    requires InsertablePositions(ps, |m|)
    ensures forall k :: 0 <= k < |ps| ==> InsertZeroRows(m, ps, width)[ps[k] + k] == Zeros(width)
    decreases |ps|
  {
    if |ps| > 0 {
      var n := |ps|;
      var last := ps[n - 1];
      var init := ps[..n - 1];
      assert InsertablePositions(init, |m[..last]|);
      SeparatorsAreZeroRows(m[..last], init, width);
      var front := InsertZeroRows(m[..last], init, width);
      var r := InsertZeroRows(m, ps, width);
      assert r == front + [Zeros(width)] + m[last..];
      forall k | 0 <= k < n
        ensures r[ps[k] + k] == Zeros(width)
      {
        if k < n - 1 {
          assert ps[k] + k < |front|;
          assert init[k] == ps[k];
        }
      }
    }
  }

  /** Removing the separators again gives back the data rows. */
  lemma {:induction false} InsertRemoveRoundTrip(m: Matrix, ps: seq<nat>, width: nat)
    requires InsertablePositions(ps, |m|)
    ensures var qs := SeparatorPositions(ps);
            && (forall k :: 0 <= k < |qs| ==> qs[k] < |m| + |ps|)
            && (forall i, j :: 0 <= i < j < |qs| ==> qs[i] < qs[j])
            && RemoveRows(InsertZeroRows(m, ps, width), qs) == m
    decreases |ps|
  {
    var qs := SeparatorPositions(ps);
    SeparatorPositionsIncrease(ps);
    if |ps| > 0 {
      var n := |ps|;
      var last := ps[n - 1];
      var init := ps[..n - 1];
      assert InsertablePositions(init, |m[..last]|);
      InsertRemoveRoundTrip(m[..last], init, width);
      var front := InsertZeroRows(m[..last], init, width);
      var r := InsertZeroRows(m, ps, width);
      assert r == front + [Zeros(width)] + m[last..];
      assert qs[..n - 1] == SeparatorPositions(init);
      assert qs[n - 1] == |front|;
      assert r[..qs[n - 1]] == front;
      assert r[qs[n - 1] + 1..] == m[last..];
      assert m[..last] + m[last..] == m;
    }
  }

  /** After the last separator come exactly the rows of the final
      subsequence. */
  lemma {:induction false} InsertZeroRowsTail(m: Matrix, ps: seq<nat>, width: nat)
    requires InsertablePositions(ps, |m|) && |ps| > 0
    ensures var r := InsertZeroRows(m, ps, width);
            r[|r| - (|m| - ps[|ps| - 1])..] == m[ps[|ps| - 1]..]
  {
  }

  // ---------------------------------------------------------------------
  // Channels, target and recall block
  // ---------------------------------------------------------------------

  /** `np.insert(seq, (0, 0), 0, axis=2)`: two zero channels in front. */
  function AddChannels(m: Matrix): (r: Matrix)
    ensures |r| == |m|
    ensures forall t :: 0 <= t < |m| ==> r[t] == [0.0, 0.0] + m[t]
  {
    seq(|m|, t requires 0 <= t < |m| => [0.0, 0.0] + m[t])
  }

  /** `inputs[:, qs, 1] = 1`. */
  function FlagSeparators(m: Matrix, qs: seq<nat>): (r: Matrix)
    requires forall t :: 0 <= t < |m| ==> |m[t]| >= 2
    ensures |r| == |m|
    ensures forall t :: 0 <= t < |m| ==> |r[t]| == |m[t]|
    ensures forall t :: 0 <= t < |m| ==> r[t][1] == (if t in qs then 1.0 else m[t][1])
    ensures forall t, c :: 0 <= t < |m| && 0 <= c < |m[t]| && c != 1 ==> r[t][c] == m[t][c]
  {
    seq(|m|, t requires 0 <= t < |m| => if t in qs then m[t][1 := 1.0] else m[t])
  }

  /** The recall block: `len` steps with only channel 0 set. */
  function RecallBlock(len: nat, width: nat): (r: Matrix)
    ensures IsMatrix(r, len, width)
    ensures forall t, c :: 0 <= t < len && 0 <= c < width ==> r[t][c] == (if c == 0 then 1.0 else 0.0)
  {
    seq(len, t => OneHot(width, 0))
  }

  /** `seq[-last:]` as written: for `last` = 0 the slice `-0:` starts at the
      front, so the whole sequence is returned. */
  function TargetAsWritten(marked: Matrix, last: nat): (r: Matrix)
    requires last <= |marked|
    ensures |r| == (if last == 0 then |marked| else last)
    ensures forall t :: 0 <= t < |r| ==> r[t] == marked[|marked| - |r| + t]
  {
    if last == 0 then marked else marked[|marked| - last..]
  }

  /** The final `last` rows of the marked sequence. */
  function Target(marked: Matrix, last: nat): (r: Matrix)
    requires last <= |marked|
    ensures |r| == last
    ensures forall t :: 0 <= t < last ==> r[t] == marked[|marked| - last + t]
  {
    marked[|marked| - last..]
  }

  /** The two agree whenever the final subsequence is not empty. */
  lemma {:induction false} TargetAgreesWhenNonEmpty(marked: Matrix, last: nat)
    requires 1 <= last <= |marked|
    ensures TargetAsWritten(marked, last) == Target(marked, last)
  {
  }

  /** With an empty final subsequence the target as written is the whole
      marked sequence instead of nothing: lengths [2, 0] give a three-row
      target where none was meant. */
  lemma {:induction false} TargetAsWrittenEmptyFinal(bits: Matrix)
    requires IsMatrix(bits, 2, 1)
    ensures var marked := InsertZeroRows(bits, [2], 1);
            && |TargetAsWritten(marked, 0)| == 3
            && |Target(marked, 0)| == 0
  {
  }

  // ---------------------------------------------------------------------
  // One iteration
  // ---------------------------------------------------------------------

  datatype Config = Config(minLen: nat, maxLen: nat, elementSize: nat, nbMarkersMax: nat)

  /** What the random draws produce: at most `nbMarkersMax` markers, one
      length per subsequence within [minLen, maxLen], and a data row per
      step of the element width. */
  predicate ValidDraw(cfg: Config, nbMarkers: nat, lengths: seq<nat>, bits: Matrix) {
    && nbMarkers <= cfg.nbMarkersMax
    && |lengths| == nbMarkers + 1
    && (forall i :: 0 <= i < |lengths| ==> cfg.minLen <= lengths[i] <= cfg.maxLen)
    && IsMatrix(bits, SumNat(lengths), cfg.elementSize)
  }

  /** Insertion positions: the running totals of the lengths, without the
      grand total. */
  function MarkerPositions(lengths: seq<nat>): (r: seq<nat>)
    requires |lengths| >= 1
    ensures |r| == |lengths| - 1
    ensures forall k :: 0 <= k < |r| ==> r[k] == PrefixSums(lengths)[k + 1]
  {
    PrefixSums(lengths)[1..|lengths|]
  }

  /** The marker positions can be inserted into the data rows, and the last
      one sits where the final subsequence starts. */
  lemma {:induction false} MarkerPositionsInsertable(lengths: seq<nat>)
    requires |lengths| >= 1
    ensures InsertablePositions(MarkerPositions(lengths), SumNat(lengths))
    ensures |lengths| >= 2 ==>
              MarkerPositions(lengths)[|lengths| - 2] == SumNat(lengths) - lengths[|lengths| - 1]
  {
    var ps := MarkerPositions(lengths);
    forall i, j | 0 <= i <= j < |ps|
      ensures ps[i] <= ps[j] <= SumNat(lengths)
    {
      PrefixSumsMonotone(lengths, i + 1, j + 1);
    }
  }

  /** The data rows with the separators in place. */
  function Marked(cfg: Config, nbMarkers: nat, lengths: seq<nat>, bits: Matrix): (r: Matrix)
    requires ValidDraw(cfg, nbMarkers, lengths, bits)
    ensures |r| == SumNat(lengths) + nbMarkers
  {
    MarkerPositionsInsertable(lengths);
    if nbMarkers != 0 then InsertZeroRows(bits, MarkerPositions(lengths), cfg.elementSize) else bits
  }

  datatype Sample = Sample(inputs: Matrix, target: Matrix, seqLengths: seq<nat>)

  /** One iteration of the generator for one batch element. */
  function BuildSample(cfg: Config, nbMarkers: nat, lengths: seq<nat>, bits: Matrix): (r: Sample)
    requires ValidDraw(cfg, nbMarkers, lengths, bits)
    ensures |r.inputs| == SumNat(lengths) + nbMarkers + lengths[nbMarkers]
    ensures |r.target| == lengths[nbMarkers]
    ensures r.seqLengths == lengths
  {
    var marked := Marked(cfg, nbMarkers, lengths, bits);
    var widened := AddChannels(marked);
    var flagged := if nbMarkers != 0
                   then FlagSeparators(widened, SeparatorPositions(MarkerPositions(lengths)))
                   else widened;
    var last := lengths[nbMarkers];
    Sample(flagged + RecallBlock(last, cfg.elementSize + 2), Target(marked, last), lengths)
  }

  /** The marked rows are the data rows with zero separator rows at
      position_markers[k] + k; removing those rows gives the data back. */
  lemma {:induction false} MarkedLayout(cfg: Config, nbMarkers: nat, lengths: seq<nat>, bits: Matrix)
    requires ValidDraw(cfg, nbMarkers, lengths, bits)
    ensures var marked := Marked(cfg, nbMarkers, lengths, bits);
            var qs := SeparatorPositions(MarkerPositions(lengths));
            && |qs| == nbMarkers
            && (forall k :: 0 <= k < nbMarkers ==> qs[k] == PrefixSums(lengths)[k + 1] + k)
            && (forall k :: 0 <= k < nbMarkers ==> qs[k] < |marked| && marked[qs[k]] == Zeros(cfg.elementSize))
            && (forall i, j :: 0 <= i < j < |qs| ==> qs[i] < qs[j])
            && RemoveRows(marked, qs) == bits
  {
    var ps := MarkerPositions(lengths);
    MarkerPositionsInsertable(lengths);
    SeparatorPositionsIncrease(ps);
    MarkedSeparators(cfg, nbMarkers, lengths, bits);
    MarkedRemoveSeparators(cfg, nbMarkers, lengths, bits);
  }

  lemma {:induction false} MarkedSeparators(cfg: Config, nbMarkers: nat, lengths: seq<nat>, bits: Matrix)
    requires ValidDraw(cfg, nbMarkers, lengths, bits)
    ensures var marked := Marked(cfg, nbMarkers, lengths, bits);
            var qs := SeparatorPositions(MarkerPositions(lengths));
            forall k :: 0 <= k < nbMarkers ==> qs[k] < |marked| && marked[qs[k]] == Zeros(cfg.elementSize)
  {
    if nbMarkers != 0 {
      var ps := MarkerPositions(lengths);
      MarkerPositionsInsertable(lengths);
      assert Marked(cfg, nbMarkers, lengths, bits) == InsertZeroRows(bits, ps, cfg.elementSize);
      SeparatorsAreZeroRows(bits, ps, cfg.elementSize);
    }
  }

  lemma {:induction false} MarkedRemoveSeparators(cfg: Config, nbMarkers: nat, lengths: seq<nat>, bits: Matrix)
    requires ValidDraw(cfg, nbMarkers, lengths, bits)
    ensures var marked := Marked(cfg, nbMarkers, lengths, bits);
            var qs := SeparatorPositions(MarkerPositions(lengths));
            && (forall k :: 0 <= k < |qs| ==> qs[k] < |marked|)
            && (forall i, j :: 0 <= i < j < |qs| ==> qs[i] < qs[j])
            && RemoveRows(marked, qs) == bits
  {
    var ps := MarkerPositions(lengths);
    MarkerPositionsInsertable(lengths);
    if nbMarkers == 0 {
      assert SeparatorPositions(ps) == [];
    } else {
      assert Marked(cfg, nbMarkers, lengths, bits) == InsertZeroRows(bits, ps, cfg.elementSize);
      InsertRemoveRoundTrip(bits, ps, cfg.elementSize);
    }
  }

  /** Inputs have two control channels in front of the data: channel 0 is
      clear and channel 1 is set exactly at the separators, over the marked
      part; the recall block after it has only channel 0 set. */
  lemma {:induction false} InputChannels(cfg: Config, nbMarkers: nat, lengths: seq<nat>, bits: Matrix)
    requires ValidDraw(cfg, nbMarkers, lengths, bits)
    ensures var r := BuildSample(cfg, nbMarkers, lengths, bits);
            var marked := Marked(cfg, nbMarkers, lengths, bits);
            var qs := SeparatorPositions(MarkerPositions(lengths));
            && IsMatrix(r.inputs, |r.inputs|, cfg.elementSize + 2)
            && (forall t :: 0 <= t < |marked| ==>
                  && r.inputs[t][0] == 0.0
                  && r.inputs[t][1] == (if t in qs then 1.0 else 0.0)
                  && r.inputs[t][2..] == marked[t])
            && forall t :: |marked| <= t < |r.inputs| ==> r.inputs[t] == OneHot(cfg.elementSize + 2, 0)
  {
    var r := BuildSample(cfg, nbMarkers, lengths, bits);
    var marked := Marked(cfg, nbMarkers, lengths, bits);
    var qs := SeparatorPositions(MarkerPositions(lengths));
    assert nbMarkers == 0 ==> qs == [];
    forall t | 0 <= t < |marked|
      ensures |marked[t]| == cfg.elementSize
    {
      MarkedRowWidth(cfg, nbMarkers, lengths, bits, t);
    }
    forall t | 0 <= t < |marked|
      ensures r.inputs[t][2..] == marked[t]
    {
      assert r.inputs[t][2..] == ([0.0, 0.0] + marked[t])[2..];
    }
  }

  /** Every marked row has the element width. */
  lemma {:induction false} MarkedRowWidth(cfg: Config, nbMarkers: nat, lengths: seq<nat>, bits: Matrix, t: nat)
    requires ValidDraw(cfg, nbMarkers, lengths, bits)
    requires t < |Marked(cfg, nbMarkers, lengths, bits)|
    ensures |Marked(cfg, nbMarkers, lengths, bits)[t]| == cfg.elementSize
  {
    MarkerPositionsInsertable(lengths);
    if nbMarkers != 0 {
      InsertedRowWidth(bits, MarkerPositions(lengths), cfg.elementSize, t);
    }
  }

  lemma {:induction false} InsertedRowWidth(m: Matrix, ps: seq<nat>, width: nat, t: nat)
    requires InsertablePositions(ps, |m|) && IsMatrix(m, |m|, width)
    requires t < |m| + |ps|
    ensures |InsertZeroRows(m, ps, width)[t]| == width
    decreases |ps|
  {
    if |ps| > 0 {
      var n := |ps|;
      var last := ps[n - 1];
      var init := ps[..n - 1];
      assert InsertablePositions(init, |m[..last]|);
      var front := InsertZeroRows(m[..last], init, width);
      if t < |front| {
        InsertedRowWidth(m[..last], init, width, t);
      }
    }
  }

  /** The target is the final subsequence of the data rows. */
  lemma {:induction false} TargetIsFinalSubsequence(cfg: Config, nbMarkers: nat, lengths: seq<nat>, bits: Matrix)
    requires ValidDraw(cfg, nbMarkers, lengths, bits)
    ensures var last := lengths[nbMarkers];
            BuildSample(cfg, nbMarkers, lengths, bits).target == bits[SumNat(lengths) - last..]
  {
    var last := lengths[nbMarkers];
    var ps := MarkerPositions(lengths);
    MarkerPositionsInsertable(lengths);
    assert PrefixSums(lengths)[nbMarkers + 1] == PrefixSums(lengths)[nbMarkers] + last;
    if nbMarkers != 0 {
      InsertZeroRowsTail(bits, ps, cfg.elementSize);
    }
  }

  /** One iteration over a batch: the drawn counts and lengths are shared,
      the data bits are drawn per batch element. */
  function BuildIteration(cfg: Config, nbMarkers: nat, lengths: seq<nat>, bits: seq<Matrix>)
    : (r: seq<Sample>)
    requires |lengths| == nbMarkers + 1
    requires forall b :: 0 <= b < |bits| ==> ValidDraw(cfg, nbMarkers, lengths, bits[b])
    ensures |r| == |bits|
    ensures forall b :: 0 <= b < |bits| ==>
              && |r[b].inputs| == SumNat(lengths) + nbMarkers + lengths[nbMarkers]
              && |r[b].target| == lengths[nbMarkers]
              && r[b].seqLengths == lengths
  {
    seq(|bits|, b requires 0 <= b < |bits| => BuildSample(cfg, nbMarkers, lengths, bits[b]))
  }
}
