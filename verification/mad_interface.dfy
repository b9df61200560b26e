/** The head-level operations of the Memory Augmented Decoder interface
    (models/encoder_solver/mad_interface.py): the initial state, the
    attention update of one head (gating, circular convolution, sharpening)
    and one step of the interface as the composition of the helpers: every
    read head reads from the memory as it was before the step, then the
    write head rewrites it. Everything is per batch element. */
module MadInterface {
  import opened Vectors
  import opened Outcomes
  import opened MadParams
  import opened MadAddressing
  import opened MadMemory

  /** State kept for one head between steps: its attention over the
      addresses, its gating and its shift kernel. */
  datatype HeadState = HeadState(attention: Vector, gate: Vector, shift: Vector)

  datatype InterfaceState = InterfaceState(readHeads: seq<HeadState>, writeHead: HeadState)

  /** The index errors the initial-state construction can raise. */
  datatype InitError =
    | NoMemoryAddresses
    | ShiftIndexOutOfRange(shiftSize: nat)

  // ---------------------------------------------------------------------
  // Initial state
  // ---------------------------------------------------------------------

  /** The initial head state exactly as `init_state` builds it: hard
      attention on address 0, gating one-hot at entry 0, and the shift
      kernel one-hot at entry 1. Setting entry 0 of an empty attention and
      entry 1 of a one-wide kernel are index errors. */
  function InitHeadStateAsWritten(numAddr: nat, shiftSize: nat): (r: Result<HeadState, InitError>)
    ensures r.Ok? <==> numAddr >= 1 && shiftSize >= 2
    ensures numAddr == 0 ==> r == Err(NoMemoryAddresses)
    ensures numAddr >= 1 && shiftSize < 2 ==> r == Err(ShiftIndexOutOfRange(shiftSize))
    ensures r.Ok? ==> && IsDistribution(r.value.attention) && r.value.attention[0] == 1.0
                      && |r.value.attention| == numAddr
                      && IsDistribution(r.value.gate) && r.value.gate[0] == 1.0 && |r.value.gate| == 3
                      && |r.value.shift| == shiftSize
                      && IsDistribution(r.value.shift) && r.value.shift[1] == 1.0
  {
    if numAddr == 0 then Err(NoMemoryAddresses)
    else if shiftSize < 2 then Err(ShiftIndexOutOfRange(shiftSize))
    else
      OneHotIsDistribution(numAddr, 0);
      OneHotIsDistribution(3, 0);
      OneHotIsDistribution(shiftSize, 1);
      Ok(HeadState(OneHot(numAddr, 0), OneHot(3, 0), OneHot(shiftSize, 1)))
  }

  /** The initial head state with the shift kernel one-hot at its centre,
      which is the zero shift for every odd kernel width. */
  function InitHeadState(numAddr: nat, shiftSize: nat): (r: Result<HeadState, InitError>)
    ensures r.Ok? <==> numAddr >= 1
    ensures numAddr == 0 ==> r == Err(NoMemoryAddresses)
    ensures r.Ok? ==> && IsDistribution(r.value.attention) && r.value.attention[0] == 1.0
                      && |r.value.attention| == numAddr
                      && IsDistribution(r.value.gate) && r.value.gate[0] == 1.0 && |r.value.gate| == 3
                      && |r.value.shift| == shiftSize
                      && (shiftSize % 2 == 1 ==> IsDistribution(r.value.shift)
                                                 && r.value.shift[shiftSize / 2] == 1.0)
  {
    if numAddr == 0 then Err(NoMemoryAddresses)
    else
      OneHotIsDistribution(numAddr, 0);
      OneHotIsDistribution(3, 0);
      CentreKernelIsDistribution(shiftSize);
      Ok(HeadState(OneHot(numAddr, 0), OneHot(3, 0), OneHot(shiftSize, shiftSize / 2)))
  }

  lemma {:induction false} CentreKernelIsDistribution(shiftSize: nat)
    ensures shiftSize % 2 == 1 ==> IsDistribution(OneHot(shiftSize, shiftSize / 2))
  {
    if shiftSize % 2 == 1 {
      OneHotIsDistribution(shiftSize, shiftSize / 2);
    }
  }

  /** The corrected initial kernel is the zero shift: convolving any
      attention with it leaves the attention unchanged. */
  lemma {:induction false} InitShiftIsZeroShift(att: Vector, shiftSize: nat)
    requires shiftSize % 2 == 1 && |att| >= 1 && shiftSize / 2 <= |att|
    ensures InitHeadState(|att|, shiftSize).Ok?
    ensures CircularConvolution(att, InitHeadState(|att|, shiftSize).value.shift) == att
  {
    ConvolutionCentreIdentity(att, shiftSize);
  }

  /** The kernel as written is the zero shift when the kernel has three
      entries, and there the two constructions agree. */
  lemma {:induction false} InitAsWrittenAgreesForThree(numAddr: nat)
    requires numAddr >= 1
    ensures InitHeadStateAsWritten(numAddr, 3) == InitHeadState(numAddr, 3)
  {
  }

  /** For every wider kernel the kernel as written is not the zero shift: it
      moves a hard attention on address 0 away from address 0. */
  lemma {:induction false} InitAsWrittenShiftsForWideKernels(numAddr: nat, shiftSize: nat)
    requires shiftSize % 2 == 1 && shiftSize >= 5
    requires numAddr >= 1 && shiftSize / 2 <= numAddr
    ensures InitHeadStateAsWritten(numAddr, shiftSize).Ok?
    ensures CircularConvolution(OneHot(numAddr, 0), InitHeadStateAsWritten(numAddr, shiftSize).value.shift)[0] == 0.0
  {
    var c := shiftSize / 2;
    ConvolutionOneHot(OneHot(numAddr, 0), shiftSize, 1 - c);
    assert c + (1 - c) == 1;
  }

  /** A one-wide kernel, valid for the constructor, makes the initial state
      as written fail. */
  lemma {:induction false} InitAsWrittenFailsForUnitKernel(numAddr: nat)
    requires numAddr >= 1
    ensures NewInterface(0, 0, 1, 1).Ok?
    ensures InitHeadStateAsWritten(numAddr, 1) == Err(ShiftIndexOutOfRange(1))
  {
  }

  /** `init_state` for a constructed interface: every read head and the
      write head start from the same initial head state. */
  function InitState(iface: Interface, numAddr: nat): (r: Result<InterfaceState, InitError>)
    requires iface.Valid()
    ensures r.Ok? <==> numAddr >= 1
    ensures r.Ok? ==> && |r.value.readHeads| == iface.numReadHeads
                      && StateValid(r.value, numAddr, iface.shiftSize)
                      && r.value.writeHead.attention == OneHot(numAddr, 0)
                      && forall h :: 0 <= h < |r.value.readHeads| ==>
                           r.value.readHeads[h].attention == OneHot(numAddr, 0)
    ensures r.Ok? ==> && r.value.writeHead == InitHeadState(numAddr, iface.shiftSize).value
                      && forall h :: 0 <= h < |r.value.readHeads| ==> r.value.readHeads[h] == r.value.writeHead
  {
    var head :- InitHeadState(numAddr, iface.shiftSize);
    OneHotIsDistribution(numAddr, 0);
    Ok(InterfaceState(seq(iface.numReadHeads, h => head), head))
  }

  // ---------------------------------------------------------------------
  // Attention update of one head
  // ---------------------------------------------------------------------

  /** Parameters of one head past their nonlinearities: the interpolation
      gate, the shift kernel and the sharpening exponent. */
  datatype HeadParams = HeadParams(gate: real, shift: Vector, gamma: nat)

  /** The ranges the nonlinearities guarantee: a gate in [0, 1] and a shift
      kernel that is a distribution of the interface's kernel width. */
  predicate ValidHeadParams(p: HeadParams, numAddr: nat, shiftSize: nat) {
    && 0.0 <= p.gate <= 1.0
    && |p.shift| == shiftSize
    && ValidKernel(p.shift, numAddr)
    && IsDistribution(p.shift)
  }

  /** `update_attention` after content addressing: gate between the content
      and the previous attention, shift by circular convolution, sharpen. */
  function UpdateAttention(content: Vector, prev: Vector, p: HeadParams): (r: Vector)
    requires |content| == |prev| && ValidKernel(p.shift, |prev|)
    ensures |r| == |prev|
  {
    Sharpen(CircularConvolution(Gate(p.gate, content, prev), p.shift), p.gamma)
  }

  /** The attention update keeps attentions sub-distributions, and it yields
      a distribution whenever the sharpened mass clears the normalisation
      floor. */
  lemma {:induction false} UpdateAttentionSubDistribution(content: Vector, prev: Vector, p: HeadParams)
    requires |content| == |prev| && ValidHeadParams(p, |prev|, |p.shift|)
    requires SubDistribution(content) && SubDistribution(prev)
    ensures SubDistribution(UpdateAttention(content, prev, p))
    ensures var shifted := CircularConvolution(Gate(p.gate, content, prev), p.shift);
            Sum(Powered(shifted, p.gamma)) >= NormalizeEps ==> IsDistribution(UpdateAttention(content, prev, p))
  {
    var gated := Gate(p.gate, content, prev);
    GatePreservesSubDistribution(p.gate, content, prev);
    ConvolutionPreservesSubDistribution(gated, p.shift);
    SharpenBounds(CircularConvolution(gated, p.shift), p.gamma);
  }

  /** With sharpening exponent one, distributions stay distributions. */
  lemma {:induction false} UpdateAttentionDistribution(content: Vector, prev: Vector, p: HeadParams)
    requires |content| == |prev| && ValidHeadParams(p, |prev|, |p.shift|) && p.gamma == 1
    requires IsDistribution(content) && IsDistribution(prev)
    ensures IsDistribution(UpdateAttention(content, prev, p))
  {
    var gated := Gate(p.gate, content, prev);
    GatePreservesDistribution(p.gate, content, prev);
    ConvolutionPreservesDistribution(gated, p.shift);
    SharpenExponentOne(CircularConvolution(gated, p.shift));
  }

  /** A closed gate with a one-hot kernel at c + d moves a hard attention on
      address k to address k - d (wrapping around) and keeps it hard. */
  lemma {:induction false} UpdateAttentionHardShift(content: Vector, numAddr: nat, k: nat, shiftSize: nat, d: int, gamma: nat)
    requires |content| == numAddr && k < numAddr
    requires ValidKernel(OneHot(shiftSize, 0), numAddr)
    requires -(shiftSize / 2) <= d <= shiftSize / 2 && gamma >= 1
    ensures var p := HeadParams(0.0, OneHot(shiftSize, shiftSize / 2 + d), gamma);
            UpdateAttention(content, OneHot(numAddr, k), p) == OneHot(numAddr, CircularIndex(k - d, numAddr))
  {
    var prev := OneHot(numAddr, k);
    GateEndpoints(content, prev);
    ConvolutionOneHot(prev, shiftSize, d);
    RotateOneHot(numAddr, k, d);
    SharpenOneHot(numAddr, CircularIndex(k - d, numAddr), gamma);
  }

  // ---------------------------------------------------------------------
  // One step of the interface
  // ---------------------------------------------------------------------

  /** What the controller hands the interface in one step: for every read
      head and for the write head its parameters and its content attention,
      and the erase and add vectors of the write head (past their sigmoid). */
  datatype StepInput = StepInput(
    readParams: seq<HeadParams>,
    readContent: seq<Vector>,
    writeParams: HeadParams,
    writeContent: Vector,
    erase: Vector,
    add: Vector)

  /** The read vectors, the new memory and the new interface state. */
  datatype StepOutput = StepOutput(readVectors: seq<Vector>, memory: Matrix, state: InterfaceState)

  /** Every head's attention covers the addresses, is a sub-distribution and
      carries a kernel of the interface's width. */
  predicate HeadValid(h: HeadState, numAddr: nat, shiftSize: nat) {
    |h.attention| == numAddr && SubDistribution(h.attention) && |h.shift| == shiftSize
  }

  predicate StateValid(s: InterfaceState, numAddr: nat, shiftSize: nat) {
    && HeadValid(s.writeHead, numAddr, shiftSize)
    && forall h :: 0 <= h < |s.readHeads| ==> HeadValid(s.readHeads[h], numAddr, shiftSize)
  }

  /** The shapes one step needs: one parameter set and one content attention
      per read head, a memory of A >= 1 rows of the interface's content
      width, and erase and add vectors of that width. */
  predicate StepShapes(iface: Interface, state: InterfaceState, mem: Matrix, input: StepInput) {
    && |mem| >= 1
    && IsMatrix(mem, |mem|, iface.contentBits)
    && |state.readHeads| == iface.numReadHeads
    && |input.readParams| == iface.numReadHeads
    && |input.readContent| == iface.numReadHeads
    && |state.writeHead.attention| == |mem|
    && |input.writeContent| == |mem|
    && ValidKernel(input.writeParams.shift, |mem|)
    && |input.writeParams.shift| == iface.shiftSize
    && |input.erase| == iface.contentBits
    && |input.add| == iface.contentBits
    && forall h :: 0 <= h < iface.numReadHeads ==>
         && |state.readHeads[h].attention| == |mem|
         && |input.readContent[h]| == |mem|
         && ValidKernel(input.readParams[h].shift, |mem|)
         && |input.readParams[h].shift| == iface.shiftSize
  }

  /** The ranges past the nonlinearities: valid head parameters, content
      attentions that are distributions, and erase and add bits in [0, 1]. */
  predicate StepRanges(iface: Interface, mem: Matrix, input: StepInput) {
    && ValidHeadParams(input.writeParams, |mem|, iface.shiftSize)
    && IsDistribution(input.writeContent)
    && (forall c :: 0 <= c < |input.erase| ==> 0.0 <= input.erase[c] <= 1.0)
    && (forall c :: 0 <= c < |input.add| ==> 0.0 <= input.add[c] <= 1.0)
    && forall h :: 0 <= h < |input.readParams| ==>
         && ValidHeadParams(input.readParams[h], |mem|, iface.shiftSize)
         && h < |input.readContent| && IsDistribution(input.readContent[h])
  }

  function NewReadHead(state: InterfaceState, mem: Matrix, input: StepInput, h: nat): (r: HeadState)
    requires h < |state.readHeads| && h < |input.readParams| && h < |input.readContent|
    requires |state.readHeads[h].attention| == |mem| && |input.readContent[h]| == |mem|
    requires ValidKernel(input.readParams[h].shift, |mem|)
    ensures |r.attention| == |mem|
    ensures r.gate == [input.readParams[h].gate] && r.shift == input.readParams[h].shift
  {
    var p := input.readParams[h];
    HeadState(UpdateAttention(input.readContent[h], state.readHeads[h].attention, p), [p.gate], p.shift)
  }

  /** One step: each read head updates its attention and reads the memory
      as it was before the step; the write head updates its attention and
      then erases and adds. */
  function Forward(iface: Interface, state: InterfaceState, mem: Matrix, input: StepInput): (r: StepOutput)
    requires StepShapes(iface, state, mem, input)
    ensures |r.readVectors| == iface.numReadHeads == |r.state.readHeads|
    ensures IsMatrix(r.memory, |mem|, iface.contentBits)
    ensures forall h :: 0 <= h < |r.readVectors| ==>
              && |r.state.readHeads[h].attention| == |mem|
              && r.readVectors[h] == ReadFromMemory(r.state.readHeads[h].attention, mem, iface.contentBits)
    ensures |r.state.writeHead.attention| == |mem|
    ensures r.memory == UpdateMemory(r.state.writeHead.attention, input.erase, input.add, mem)
    ensures forall h :: 0 <= h < |r.state.readHeads| ==> r.state.readHeads[h] == NewReadHead(state, mem, input, h)
    ensures r.state.writeHead == HeadState(UpdateAttention(input.writeContent, state.writeHead.attention, input.writeParams),
                                           [input.writeParams.gate], input.writeParams.shift)
  {
    var heads := seq(iface.numReadHeads, h requires 0 <= h < iface.numReadHeads =>
      NewReadHead(state, mem, input, h));
    var readVectors := seq(iface.numReadHeads, h requires 0 <= h < iface.numReadHeads =>
      ReadFromMemory(heads[h].attention, mem, iface.contentBits));
    var p := input.writeParams;
    var write := UpdateAttention(input.writeContent, state.writeHead.attention, p);
    StepOutput(readVectors, UpdateMemory(write, input.erase, input.add, mem),
               InterfaceState(heads, HeadState(write, [p.gate], p.shift)))
  }

  /** A step keeps every head's attention a sub-distribution over the same
      addresses, and a non-negative memory non-negative. */
  lemma {:induction false} ForwardPreservesState(iface: Interface, state: InterfaceState, mem: Matrix, input: StepInput)
    requires StepShapes(iface, state, mem, input) && StepRanges(iface, mem, input)
    requires StateValid(state, |mem|, iface.shiftSize)
    requires forall a, c :: 0 <= a < |mem| && 0 <= c < iface.contentBits ==> 0.0 <= mem[a][c]
    ensures var r := Forward(iface, state, mem, input);
            && StateValid(r.state, |mem|, iface.shiftSize)
            && forall a, c :: 0 <= a < |mem| && 0 <= c < iface.contentBits ==> 0.0 <= r.memory[a][c]
  {
    var r := Forward(iface, state, mem, input);
    forall h | 0 <= h < |r.state.readHeads|
      ensures HeadValid(r.state.readHeads[h], |mem|, iface.shiftSize)
    {
      UpdateAttentionSubDistribution(input.readContent[h], state.readHeads[h].attention, input.readParams[h]);
    }
    UpdateAttentionSubDistribution(input.writeContent, state.writeHead.attention, input.writeParams);
    var w := r.state.writeHead.attention;
    forall a | 0 <= a < |w|
      ensures 0.0 <= w[a] <= 1.0
    {
      SubDistributionEntry(w, a);
    }
    WritePreservesNonNegative(w, input.erase, input.add, mem);
  }

  /** An entry of a sub-distribution is at most one. */
  lemma {:induction false} SubDistributionEntry(v: Vector, a: nat)
    requires SubDistribution(v) && a < |v|
    ensures 0.0 <= v[a] <= 1.0
  {
    var rest := v[..a] + v[a + 1..];
    assert v == v[..a] + [v[a]] + v[a + 1..];
    SumAppend(v[..a] + [v[a]], v[a + 1..]);
    SumAppend(v[..a], [v[a]]);
    SumAppend(v[..a], v[a + 1..]);
    assert Sum([v[a]]) == v[a];
    assert NonNegative(rest);
    SumNonNegative(rest);
  }

  /** With every gate closed, every kernel the zero shift and every head hard
      on address k, a step reads row k with every read head, overwrites row
      k with the add vector under a full erase, leaves the other rows alone
      and keeps every head on address k. */
  lemma {:induction false} ForwardHardAttention(iface: Interface, state: InterfaceState, mem: Matrix, input: StepInput, k: nat)
    requires iface.Valid() && StepShapes(iface, state, mem, input)
    requires k < |mem| && iface.shiftSize / 2 <= |mem|
    requires input.erase == Constant(iface.contentBits, 1.0)
    requires state.writeHead.attention == OneHot(|mem|, k)
    requires input.writeParams == HeadParams(0.0, OneHot(iface.shiftSize, iface.shiftSize / 2), 1)
    requires forall h :: 0 <= h < iface.numReadHeads ==>
               && state.readHeads[h].attention == OneHot(|mem|, k)
               && input.readParams[h] == HeadParams(0.0, OneHot(iface.shiftSize, iface.shiftSize / 2), 1)
    ensures var r := Forward(iface, state, mem, input);
            && (forall h :: 0 <= h < |r.readVectors| ==> r.readVectors[h] == mem[k])
            && r.memory[k] == input.add
            && (forall a :: 0 <= a < |mem| && a != k ==> r.memory[a] == mem[a])
            && r.state.writeHead.attention == OneHot(|mem|, k)
            && forall h :: 0 <= h < |r.state.readHeads| ==> r.state.readHeads[h].attention == OneHot(|mem|, k)
  {
    var r := Forward(iface, state, mem, input);
    ForwardHardWrite(iface, state, mem, input, k);
    forall h | 0 <= h < |r.state.readHeads|
      ensures r.state.readHeads[h].attention == OneHot(|mem|, k)
      ensures r.readVectors[h] == mem[k]
    {
      ForwardHardRead(iface, state, mem, input, k, h);
    }
  }

  /** The write half of `ForwardHardAttention`. */
  lemma {:induction false} ForwardHardWrite(iface: Interface, state: InterfaceState, mem: Matrix, input: StepInput, k: nat)
    requires iface.Valid() && StepShapes(iface, state, mem, input)
    requires k < |mem| && iface.shiftSize / 2 <= |mem|
    requires input.erase == Constant(iface.contentBits, 1.0)
    requires state.writeHead.attention == OneHot(|mem|, k)
    requires input.writeParams == HeadParams(0.0, OneHot(iface.shiftSize, iface.shiftSize / 2), 1)
    ensures var r := Forward(iface, state, mem, input);
            && r.memory[k] == input.add
            && (forall a :: 0 <= a < |mem| && a != k ==> r.memory[a] == mem[a])
            && r.state.writeHead.attention == OneHot(|mem|, k)
  {
    UpdateAttentionHardShift(input.writeContent, |mem|, k, iface.shiftSize, 0, 1);
    WriteOneHotReplaces(mem, iface.contentBits, k, input.add);
  }

  /** The read half of `ForwardHardAttention`, for read head h. */
  lemma {:induction false} ForwardHardRead(iface: Interface, state: InterfaceState, mem: Matrix, input: StepInput, k: nat, h: nat)
    requires iface.Valid() && StepShapes(iface, state, mem, input)
    requires k < |mem| && iface.shiftSize / 2 <= |mem| && h < iface.numReadHeads
    requires state.readHeads[h].attention == OneHot(|mem|, k)
    requires input.readParams[h] == HeadParams(0.0, OneHot(iface.shiftSize, iface.shiftSize / 2), 1)
    ensures var r := Forward(iface, state, mem, input);
            && r.state.readHeads[h].attention == OneHot(|mem|, k)
            && r.readVectors[h] == mem[k]
  {
    UpdateAttentionHardShift(input.readContent[h], |mem|, k, iface.shiftSize, 0, 1);
    ReadOneHot(mem, iface.contentBits, k);
  }
}
