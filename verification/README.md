# Memory Augmented Decoder addressing and two sequence generators, in Dafny

This project models three parts of the repository as pure functions over
`seq<real>` vectors and matrices, and proves properties about them.

1. **The Memory Augmented Decoder (MAD) interface**
   (`models/encoder_solver/mad_interface.py`).
   - Construction checks the configuration and builds the read-head
     parameter-layout table.
   - `split_params` slices a raw parameter vector along that table.
   - `init_state` builds the initial head state.
   - One attention update:
     - gating between the content attention and the previous attention;
     - circular convolution with a shift kernel, through the extended index
       list and `conv1d`;
     - sharpening with L1 renormalisation.
   - `read_from_memory` and the erase-then-add `update_memory`.
   - `forward` as the composition of these helpers: every read head reads the
     memory as it was before the step, then the write head rewrites it.
   - Everything is per batch element.
2. **The serial-recall problem with command lines**
   (`miprometheus/problems/seq_to_seq/algorithmic/recall/serial_recall_cl_double_repeat.py`).
   - Construction checks.
   - The exact layout of inputs, targets and mask in `generate_batch`:
     - a store marker;
     - L data steps alternating the odd and the even bit vector;
     - a recall marker;
     - L recall steps whose targets repeat the data.
3. **The scratch-pad copy-sequence generator**
   (`data_gen/build_data_scratch_pad_t3.py`).
   - `init_state`.
   - One iteration of `build_data_gen`:
     - zero separator rows inserted at the running totals of the subsequence
       lengths;
     - two control channels in front, with channel 1 flagging the separators;
     - the final subsequence as target;
     - a recall block appended to the inputs.

Modules follow the program's structure:
- `Outcomes`: the `Result` type used for constructors that can fail.
- `Vectors`: sums, one-hot vectors, matrices, prefix sums.
- `MadParams`, `MadAddressing`, `MadMemory`, `MadInterface`: the MAD interface.
- `SerialRecall`, `ScratchPad`: the two generators.

Inputs that come from random number generators, or from code outside these
files, are explicit parameters. The ranges their generators guarantee are
preconditions.

Each operation has a partner, linked by a lemma:
- Circular convolution has a reference definition with `%`
  (`ConvolutionMatchesReference`).
- Parameter splitting has concatenation (`SplitRoundTrip`).
- Separator insertion has row removal (`InsertRemoveRoundTrip`).
- A one-hot shift has the opposite shift (`ShiftRoundTrip`).
- The column-wise memory read has the row-wise weighted sum
  (`ReadIsWeightedRows`).
- A write has a read (`ReadAfterWrite`).
- The serial-recall inputs have the targets (`CopyRelation`).

## Model

| member | source | states |
|---|---|---|
| MadParams.NewInterface | models/encoder_solver/mad_interface.py:54-67 | Construction fails exactly when the shift size is even, then non-positive, then when there are fewer than one read head, in that order. On success the read layout is [0, 3, 3+S, 4+S] and its last entry equals the number of read parameters 3+1+S. |
| MadParams.ReadLayout | models/encoder_solver/mad_interface.py:62-67 | The read-head table gives the gate [0,3), the shift kernel [3,3+S) and the exponent [3+S,4+S). Its last location is 3+1+S, so the constructor's layout assertion always holds. |
| Vectors.PrefixSums | models/encoder_solver/mad_interface.py:178-180 | The parameter locations have one more entry than there are sizes. They start at 0, their consecutive differences are the sizes, and they end at the sizes' total. |
| MadParams.SplitParams | models/encoder_solver/mad_interface.py:184-188 | Splitting yields len(locations)-1 slices, and slice i has width locations[i+1]-locations[i]. |
| MadParams.SplitParamsConcat | models/encoder_solver/mad_interface.py:184-188 | Concatenating the slices gives back the stretch of the parameter vector between the first and the last location. |
| MadParams.SplitRoundTrip | models/encoder_solver/mad_interface.py:170-188 | For a vector as wide as the sizes' total, the locations ascend and there is one slice per size, of exactly that width. The slices concatenate back to the whole vector. |
| MadParams.ReadParamsSplit | models/encoder_solver/mad_interface.py:130 | A read-parameter vector splits into exactly three pieces: the first 3 entries (gate), the next S (shift kernel) and the last one (exponent). |
| MadAddressing.Gate | models/encoder_solver/mad_interface.py:232 | The gated attention has one entry per address, and entry i is g * content[i] + (1-g) * prev[i]. |
| MadAddressing.GateMass | models/encoder_solver/mad_interface.py:232 | The mass of the gated attention is g times the content mass plus (1-g) times the previous mass. |
| MadAddressing.GateNonNegative | models/encoder_solver/mad_interface.py:232 | With g in [0,1], gating non-negative attentions gives non-negative weights. |
| MadAddressing.GatePreservesDistribution | models/encoder_solver/mad_interface.py:232 | With g in [0,1] and two distributions as inputs, the gated attention is a distribution. |
| MadAddressing.GatePreservesSubDistribution | models/encoder_solver/mad_interface.py:232 | With g in [0,1], gating keeps non-negative attentions of mass at most one within those bounds. |
| MadAddressing.GateEndpoints | models/encoder_solver/mad_interface.py:232 | g = 1 yields the content attention and g = 0 yields the previous attention. |
| MadAddressing.CircularIndex | models/encoder_solver/mad_interface.py:296-303 | For -A <= idx < 2A the wrapped index is a valid address, and an index already in [0, A) is left as it is. |
| MadAddressing.CircularIndexIsResidue | models/encoder_solver/mad_interface.py:296-303 | For -A <= idx < 2A, `circular_index` lies in [0, A) and equals idx mod A. |
| MadAddressing.PyRange | models/encoder_solver/mad_interface.py:316 | `range(lo, hi)` has hi - lo entries when lo < hi and none otherwise, and entry j is lo + j. |
| MadAddressing.ExtendedIndices | models/encoder_solver/mad_interface.py:316 | With lo = -S//2+1 (floor division) and hi = A + S//2, the list has hi - lo entries when lo < hi and none otherwise, and entry j is `circular_index(lo + j, A)`. |
| MadAddressing.ExtendedIndicesShape | models/encoder_solver/mad_interface.py:316 | For odd S with S//2 <= A, the extended index list over range(-S//2+1, A+S//2) has A+S-1 entries. Entry j is `circular_index(j - S//2)`, and every entry is a valid address. |
| MadAddressing.ExtendedIndicesLayout | models/encoder_solver/mad_interface.py:316 | Entry j of the extended index list is (j - (S-1)/2) mod A. |
| MadAddressing.ExtendedIndicesOutOfRange | models/encoder_solver/mad_interface.py:316-320 | When S//2 exceeds A, the first extended index is negative, so the index selection cannot succeed. |
| MadAddressing.ExtendedAttention | models/encoder_solver/mad_interface.py:320 | The index-selected attention has A+S-1 entries, and entry j is the attention at address (j - S//2) wrapped once. |
| MadAddressing.Correlate | models/encoder_solver/mad_interface.py:323-331 | `conv1d` with no padding and stride 1 has len(x) - S + 1 outputs, and output i is the kernel-weighted sum of x[i..i+S), a cross-correlation. |
| MadAddressing.CircularConvolution | models/encoder_solver/mad_interface.py:316-331 | The gather along the extended index list followed by `conv1d` gives exactly A entries, one per address, for every odd kernel with S//2 <= A. |
| MadAddressing.ConvolutionTerms | models/encoder_solver/mad_interface.py:316-331 | Output i of gather-then-`conv1d` is the sum over k of att[circular_index(i+k-S//2)] * kernel[k]. |
| MadAddressing.ConvolutionMatchesReference | models/encoder_solver/mad_interface.py:316-331 | The extended-index construction equals the reference definition out[i] = sum_k att[(i+k-(S-1)/2) mod A] * kernel[k], at every address. |
| MadAddressing.ConvolutionSum | models/encoder_solver/mad_interface.py:316-331 | The output mass is the attention's mass times the kernel's mass. |
| MadAddressing.ConvolutionEntryNonNegative | models/encoder_solver/mad_interface.py:324-331 | Non-negative attention and kernel give a non-negative output entry. |
| MadAddressing.ConvolutionPreservesDistribution | models/encoder_solver/mad_interface.py:316-331 | Convolving a distribution with a distribution kernel gives a distribution of the same length A. |
| MadAddressing.ConvolutionPreservesSubDistribution | models/encoder_solver/mad_interface.py:316-331 | Convolving a sub-distribution with a distribution kernel gives a sub-distribution. |
| MadAddressing.ConvolutionOneHot | models/encoder_solver/mad_interface.py:316-331 | A kernel one-hot at S//2 + d turns the attention into its rotation by d: out[i] = att[(i+d) mod A]. |
| MadAddressing.ConvolutionCentreIdentity | models/encoder_solver/mad_interface.py:316-331 | A kernel one-hot at the centre S//2 leaves the attention unchanged. |
| MadAddressing.ShiftRoundTrip | models/encoder_solver/mad_interface.py:316-331 | A one-hot shift by d followed by a one-hot shift by -d restores the attention. |
| MadAddressing.RotateOneHot | models/encoder_solver/mad_interface.py:316-331 | Shifting a hard attention on address k by d puts it on address k - d, wrapped around. |
| MadAddressing.Powered | models/encoder_solver/mad_interface.py:356 | Entry i is att[i] raised to the exponent, with as many entries as the attention. |
| MadAddressing.L1Normalize | models/encoder_solver/mad_interface.py:360 | `F.normalize(p=1)`: entry i is v[i] divided by max(L1 norm of v, 1e-12), with as many entries as v. |
| MadAddressing.Sharpen | models/encoder_solver/mad_interface.py:356-363 | Entry i is att[i] to the exponent, divided by max(L1 norm of the powered attention, 1e-12), with as many entries as the attention. |
| MadAddressing.SharpenBounds | models/encoder_solver/mad_interface.py:355-363 | Sharpening keeps the entries non-negative with total at most one. The total is exactly one once the powered mass reaches the normalisation floor 1e-12. |
| MadAddressing.SharpenBelowFloor | models/encoder_solver/mad_interface.py:360 | Below the floor the sharpened total is the powered mass divided by 1e-12, which is less than one. |
| MadAddressing.NormalizeScales | models/encoder_solver/mad_interface.py:360 | For a non-negative vector, L1 normalisation divides the total by the norm clamped below at 1e-12. |
| MadAddressing.SharpenMonotone | models/encoder_solver/mad_interface.py:356-360 | Sharpening never reorders addresses: a heavier address stays at least as heavy. |
| MadAddressing.SharpenExponentOne | models/encoder_solver/mad_interface.py:356-360 | With exponent one a distribution is a fixed point of sharpening. |
| MadAddressing.SharpenOneHot | models/encoder_solver/mad_interface.py:356-360 | For any positive exponent, a hard attention is a fixed point of sharpening. |
| MadMemory.ReadFromMemory | models/encoder_solver/mad_interface.py:373-377 | The read vector has one entry per content bit, and entry c is the attention-weighted sum of column c of the memory. |
| MadMemory.ReadIsWeightedRows | models/encoder_solver/mad_interface.py:366-377 | The read vector `att^T x mem`, column by column, equals the sum over addresses of each row weighted by its attention. |
| MadMemory.ReadOneHot | models/encoder_solver/mad_interface.py:373-377 | An attention one-hot at address k reads exactly row k. |
| MadMemory.ReadBounded | models/encoder_solver/mad_interface.py:373 | A read with a distribution stays within any bounds that hold for every memory cell. |
| MadMemory.WriteRow | models/encoder_solver/mad_interface.py:388-393 | A zero weight leaves the row unchanged. Weight one with a full erase turns the row into the add vector. |
| MadMemory.UpdateMemory | models/encoder_solver/mad_interface.py:388-393 | Each cell becomes prev*(1 - w[a]*e[c]) + w[a]*add[c]. Rows with w[a] = 0 are unchanged. A row with w[a] = 1 under a full erase becomes the add vector. |
| MadMemory.WriteOneHotReplaces | models/encoder_solver/mad_interface.py:388-393 | A write one-hot at k with a full erase replaces row k by the add vector and leaves every other row unchanged. |
| MadMemory.ReadAfterWrite | models/encoder_solver/mad_interface.py:366-395 | Reading back a hard, fully erasing write at address k returns exactly the add vector. |
| MadMemory.WritePreservesNonNegative | models/encoder_solver/mad_interface.py:388-393 | With weights, erase and add bits in [0,1], a non-negative memory stays non-negative. |
| MadInterface.InitHeadStateAsWritten | models/encoder_solver/mad_interface.py:82-95 | As written, init gives hard attention on address 0, gating one-hot at 0 and the shift one-hot at index 1. It fails with an index error when there are no addresses or when S < 2. |
| MadInterface.InitHeadState | models/encoder_solver/mad_interface.py:82-95 | The corrected init succeeds for every A >= 1. Its attention and gating match the code. For odd S the shift is a distribution one-hot at the centre S//2. |
| MadInterface.InitShiftIsZeroShift | models/encoder_solver/mad_interface.py:92-93 | The corrected initial kernel is the zero shift: convolving any attention with it leaves the attention unchanged. |
| MadInterface.InitAsWrittenAgreesForThree | models/encoder_solver/mad_interface.py:92-93 | For S = 3 the initial state as written and the corrected one coincide. |
| MadInterface.InitAsWrittenShiftsForWideKernels | models/encoder_solver/mad_interface.py:92-93 | For S >= 5 the kernel as written is not the zero shift: it moves a hard attention on address 0 off address 0. |
| MadInterface.InitAsWrittenFailsForUnitKernel | models/encoder_solver/mad_interface.py:92-93 | S = 1 passes the constructor, yet the initial state as written fails with an index error. |
| MadInterface.InitState | models/encoder_solver/mad_interface.py:72-98 | The interface state is built exactly when A >= 1. It has one head per read head, and every read head equals the write head, which is the initial head state: attention hard on address 0, gating one-hot at entry 0, and the centre kernel. Every head is a valid sub-distribution state. |
| MadInterface.UpdateAttention | models/encoder_solver/mad_interface.py:229-239 | Gating, shifting and sharpening keep the attention one entry per address. |
| MadInterface.UpdateAttentionSubDistribution | models/encoder_solver/mad_interface.py:229-239 | Gate, shift and sharpen keep attentions sub-distributions. The result is a distribution when the sharpened mass clears the normalisation floor. |
| MadInterface.UpdateAttentionDistribution | models/encoder_solver/mad_interface.py:229-239 | With exponent one, distributions stay distributions through the whole attention update. |
| MadInterface.UpdateAttentionHardShift | models/encoder_solver/mad_interface.py:229-239 | With a closed gate and a one-hot kernel at S//2 + d, the update moves a hard attention on k to a hard attention on k - d, wrapped around. |
| MadInterface.NewReadHead | models/encoder_solver/mad_interface.py:127-133 | The new state of read head h keeps one attention entry per address, and stores that step's gate and shift kernel. |
| MadInterface.Forward | models/encoder_solver/mad_interface.py:100-168 | There is one read vector and one new head per read head. Each new head's attention is the attention update (gate, shift, sharpen) of that head's content attention, its previous attention and its parameters, and the head keeps that step's gate and kernel; the write head likewise. Each read vector reads the memory as it was before the step, with that head's new attention. The new memory is the write applied with the write head's new attention. |
| MadInterface.ForwardPreservesState | models/encoder_solver/mad_interface.py:100-168 | A step keeps every head's attention a sub-distribution over the same addresses. It keeps a non-negative memory non-negative. |
| MadInterface.ForwardHardAttention | models/encoder_solver/mad_interface.py:100-168 | Setup: closed gates, zero-shift kernels, every head hard on k, a full erase. Then every read head reads row k, row k becomes the add vector, the other rows stay, and every head stays on k. |
| SerialRecall.NewProblem | miprometheus/problems/seq_to_seq/algorithmic/recall/serial_recall_cl_double_repeat.py:69-70 | Construction fails exactly unless control_bits >= 2 and data_bits >= 1, the control check first. On success both marker channels fit in the control bits. |
| SerialRecall.DefaultsAccepted | miprometheus/problems/seq_to_seq/algorithmic/recall/serial_recall_cl_double_repeat.py:60-62 | The default widths, 2 control bits and 8 data bits, pass the constructor. |
| SerialRecall.Marker | miprometheus/problems/seq_to_seq/algorithmic/recall/serial_recall_cl_double_repeat.py:94-100 | A marker has only its own channel set. |
| SerialRecall.Inputs | miprometheus/problems/seq_to_seq/algorithmic/recall/serial_recall_cl_double_repeat.py:118-139 | The inputs have 2L+2 steps of width control_bits + data_bits. |
| SerialRecall.StoreMarkerStep | miprometheus/problems/seq_to_seq/algorithmic/recall/serial_recall_cl_double_repeat.py:123-125 | Step 0 is the store marker followed by zero data bits. |
| SerialRecall.DataSteps | miprometheus/problems/seq_to_seq/algorithmic/recall/serial_recall_cl_double_repeat.py:127-131 | Steps 1..L have zero control bits. Odd steps hold the odd bit vector and even steps the even one. |
| SerialRecall.RecallMarkerStep | miprometheus/problems/seq_to_seq/algorithmic/recall/serial_recall_cl_double_repeat.py:133-135 | Step L+1 is the recall marker followed by zero data bits. |
| SerialRecall.RecallSteps | miprometheus/problems/seq_to_seq/algorithmic/recall/serial_recall_cl_double_repeat.py:137-139 | Steps L+2..2L+1 carry the control lines and no data. |
| SerialRecall.Targets | miprometheus/problems/seq_to_seq/algorithmic/recall/serial_recall_cl_double_repeat.py:144-148 | The targets have 2L+2 steps of width data_bits. |
| SerialRecall.TargetSteps | miprometheus/problems/seq_to_seq/algorithmic/recall/serial_recall_cl_double_repeat.py:144-148 | Targets are zero up to step L+1. From L+2 on they alternate the odd and the even bit vector. |
| SerialRecall.CopyRelation | miprometheus/problems/seq_to_seq/algorithmic/recall/serial_recall_cl_double_repeat.py:116-148 | The target at step L+2+j is the data part of input step 1+j. Every other target step is zero. |
| SerialRecall.Mask | miprometheus/problems/seq_to_seq/algorithmic/recall/serial_recall_cl_double_repeat.py:152-154 | The mask has 2L+2 one-entry steps, step t holding 1 when t >= L+2 and 0 otherwise. |
| SerialRecall.MaskMarksRecall | miprometheus/problems/seq_to_seq/algorithmic/recall/serial_recall_cl_double_repeat.py:152-154 | The mask is 1 exactly at steps >= L+2 and 0 exactly before. |
| SerialRecall.GenerateBatch | miprometheus/problems/seq_to_seq/algorithmic/recall/serial_recall_cl_double_repeat.py:106-162 | Every sample gets sequences_length L within [min, max] and one subsequence, plus inputs, targets and mask of the stated shapes. |
| SerialRecall.BatchCopyRelation | miprometheus/problems/seq_to_seq/algorithmic/recall/serial_recall_cl_double_repeat.py:144-148 | The copy relation holds in every sample of a batch. |
| ScratchPad.InitState | data_gen/build_data_scratch_pad_t3.py:7-16 | Succeeds exactly when N >= 1. The outputs and states are all ones, every head's attention is one-hot at address 0, and every memory cell is 0.01. |
| ScratchPad.InitAttentionIsDistribution | data_gen/build_data_scratch_pad_t3.py:10-11 | Every initial attention is a distribution with its whole mass on address 0. |
| ScratchPad.MarkerPositions | data_gen/build_data_scratch_pad_t3.py:29 | The insertion positions are the running totals of the lengths, leaving out the grand total. |
| ScratchPad.MarkerPositionsInsertable | data_gen/build_data_scratch_pad_t3.py:29-37 | The positions never decrease and never exceed the data length. The last one is where the final subsequence starts. |
| ScratchPad.InsertZeroRows | data_gen/build_data_scratch_pad_t3.py:36-37 | Inserting zero rows at non-decreasing positions adds exactly one row per position. |
| ScratchPad.SeparatorsAreZeroRows | data_gen/build_data_scratch_pad_t3.py:36-37 | After insertion the k-th separator is a zero row at position p_k + k. |
| ScratchPad.InsertRemoveRoundTrip | data_gen/build_data_scratch_pad_t3.py:36-37 | The separator positions strictly increase, and removing those rows gives back the data rows. |
| ScratchPad.MarkedLayout | data_gen/build_data_scratch_pad_t3.py:28-44 | Separator k sits at step position_markers[k] + k and is a zero row. Removing the separators gives back the drawn bits. |
| ScratchPad.Marked | data_gen/build_data_scratch_pad_t3.py:35-37 | The marked sequence has sum(seq_lengths) + nb_markers steps. |
| ScratchPad.AddChannels | data_gen/build_data_scratch_pad_t3.py:40 | Every step keeps its row, with two zero channels put in front. |
| ScratchPad.FlagSeparators | data_gen/build_data_scratch_pad_t3.py:43-45 | Channel 1 becomes 1 at the flagged steps and stays as it was elsewhere. Every other channel is unchanged, and so are the shapes. |
| ScratchPad.RecallBlock | data_gen/build_data_scratch_pad_t3.py:49-50 | The recall block has seq_lengths[-1] steps of the full width, with channel 0 set to 1 and every other channel 0. |
| ScratchPad.InputChannels | data_gen/build_data_scratch_pad_t3.py:40-51 | Inputs have width element_size+2. Over the marked part, channel 0 is clear, channel 1 is set exactly at the separators and the rest is the marked row. The recall block has only channel 0 set. |
| ScratchPad.BuildSample | data_gen/build_data_scratch_pad_t3.py:47-58 | The inputs have sum(seq_lengths) + nb_markers + seq_lengths[-1] steps and the target seq_lengths[-1] steps. The lengths are returned as drawn. |
| ScratchPad.TargetAsWritten | data_gen/build_data_scratch_pad_t3.py:47 | `seq[-last:]` as written: it has last rows when last > 0 and all the rows when last == 0, and in either case it is the trailing stretch of the marked sequence. |
| ScratchPad.Target | data_gen/build_data_scratch_pad_t3.py:47 | The corrected target has exactly last rows, namely the final last rows of the marked sequence. |
| ScratchPad.TargetAgreesWhenNonEmpty | data_gen/build_data_scratch_pad_t3.py:47 | When the final length is positive, the target as written and the corrected target coincide. |
| ScratchPad.TargetAsWrittenEmptyFinal | data_gen/build_data_scratch_pad_t3.py:47 | With lengths [2, 0] the target as written has 3 rows, where the final subsequence has none. |
| ScratchPad.TargetIsFinalSubsequence | data_gen/build_data_scratch_pad_t3.py:47 | The target is exactly the final subsequence of the drawn data rows. |
| ScratchPad.BuildIteration | data_gen/build_data_scratch_pad_t3.py:21-58 | One sample per batch element, each with the lengths of BuildSample, over shared draws of counts and lengths. |

## Left out

- Content-based addressing (sigmoid of the key, softplus strength, cosine similarity with the L2 `F.normalize`, softmax) needs transcendental functions. The content attention is an input of the attention update, assumed to be a distribution.
- The sigmoid on the gate, the softmax on the shift kernel and the softplus on the exponent are replaced by the ranges they produce. The gate is in [0, 1] and the kernel is a distribution.
- MadInterface.UpdateAttention: the sharpening exponent is a natural number, not the real `1 + softplus(gamma)`, because real powers need transcendental functions.
- MadInterface.HeadParams: the gate is one scalar per head, which departs from the source for every A. The layout table gives the gate 3 entries, so at line 232 a 3-entry gate multiplies an attention of A addresses. Broadcasting makes that work only in two cases. At A = 3 it gates address by address with three independent values, which the scalar gate does not model. At A = 1 it widens the result to three entries. For every other A the source fails with a broadcast error, while the model computes the gated attention.
- MadAddressing.CircularConvolution: kernels wider than 2A + 1, that is with S // 2 > A, make the source fail. The extended index list then holds indices outside [0, A), and `index_select` at lines 316-320 rejects them (see `ExtendedIndicesOutOfRange`). The model excludes such kernels by the precondition `ValidKernel`, which also requires A >= 1.
- The linear projection layers that produce the head parameters, and the erase and add vectors, are trainable modules. Their outputs are inputs of `Forward`.
- MadInterface.Forward: the step is the composition of the helpers, not the code line by line. The code does not run as written: it subclasses an undefined tuple type, calls undefined projection attributes, uses the key before it is assigned, and misnames the previous read attentions.
- MadInterface.HeadState: the state tuple the code builds at line 239 has four fields (including the content attention) where the declared tuple has three. The model keeps attention, gate and shift, with the gate stored as a one-entry vector.
- MadInterface.InitState: the code returns one read-head tuple and no write head. The model gives every read head and the write head that initial state. That state uses the corrected kernel, one-hot at the centre S // 2, so "built exactly when A >= 1" does not hold of the code as written: there the kernel is one-hot at index 1, which is a non-zero shift for S >= 5 (`InitAsWrittenShiftsForWideKernels`), and S = 1, which the constructor accepts, raises an index error (`InitAsWrittenFailsForUnitKernel`). `InitHeadStateAsWritten` models that behaviour.
- The batch axis: every MAD operation acts on each batch element independently, so the model is per element.
- Floating-point rounding: `real` arithmetic throughout.
- Random draws: the draws of both generators are parameters, and their ranges and shapes are preconditions. These are `np.random.*` and the control lines of `generate_ctrl_aux`, which is not part of this model.
- SerialRecall.NewProblem: `min_sequence_length`, `max_sequence_length`, `store_bit` and `recall_bit` come from the base class `AlgorithmicSeqToSeqProblem`, which is not part of this model. The model takes the length bounds as given and makes the store and recall channels the constants 0 and 1.
- SerialRecall.GenerateBatch: when min_sequence_length > max_sequence_length, `np.random.randint` at lines 106-107 raises a ValueError. The model has no error result for that case: its precondition that the drawn length lies within the bounds cannot be met, so that case is excluded.
- ScratchPad.BuildIteration: when min_len > max_len, `np.random.randint` at line 25 raises a ValueError. The model has no error result for that case: its draw precondition (`ValidDraw`, every length within [min_len, max_len]) cannot be met, so that case is excluded.
- Tensor conversion (`torch.from_numpy`, dtypes), the data-dictionary plumbing, the infinite generator loop and the sample display.
- ScratchPad.BuildSample: the target is the corrected final-subsequence slice, of seq_lengths[-1] rows. It differs from the code when seq_lengths[-1] == 0, which `min_len = 0` allows: there `-0:` selects the whole marked sequence (`TargetAsWrittenEmptyFinal`, `TargetAsWritten`).
- Downstream of the findings below, the model uses the corrected initial head state and the corrected target.

## Findings

| source | as written | input that shows it | evidently intended | confidence | as-written member | corrected member |
|---|---|---|---|---|---|---|
| models/encoder_solver/mad_interface.py:92-93 | the initial shift kernel is one-hot at index 1, commented as the zero shift | S = 5, A = 5: the initial hard attention on address 0, convolved with this kernel, has weight 0 on address 0 (it moves by one address) | the kernel one-hot at the centre S // 2, the zero shift for every odd S | medium, not executed | MadInterface.InitAsWrittenShiftsForWideKernels | MadInterface.InitShiftIsZeroShift |
| models/encoder_solver/mad_interface.py:92-93 | index 1 of a kernel of width S is set unconditionally | S = 1, which the constructor accepts: index 1 is out of range, so building the initial state fails | an initial state for every accepted S | medium, not executed | MadInterface.InitAsWrittenFailsForUnitKernel | MadInterface.InitHeadState |
| data_gen/build_data_scratch_pad_t3.py:47 | target = seq[:, -seq_lengths[-1]:, :] | min_len = 0 with lengths [2, 0]: `-0:` selects every row, so the target has 3 rows | the final subsequence, here empty | low, not executed | ScratchPad.TargetAsWrittenEmptyFinal | ScratchPad.TargetIsFinalSubsequence |
