/** Construction of the Memory Augmented Decoder interface
    (models/encoder_solver/mad_interface.py): validation of the configuration,
    the parameter-layout table of a read head, and the slicing of a raw
    parameter vector along that table. */
module MadParams {
  import opened Vectors
  import opened Outcomes

  /** One reason per assertion of the constructor, checked in the same order. */
  datatype ConfigError =
    | EvenShiftSize(shiftSize: int)
    | NonPositiveShiftSize(shiftSize: int)
    | TooFewReadHeads(numReadHeads: int)

  /** A constructed interface. The trainable projection layers are not part of
      the model; only the sizes and the read-head layout table are. */
  datatype Interface = Interface(
    hiddenSize: nat,
    contentBits: nat,
    shiftSize: nat,
    numReadHeads: nat,
    readParamLocations: seq<nat>)
  {
    /** What a successful construction guarantees. */
    predicate Valid() {
      && shiftSize % 2 == 1
      && numReadHeads >= 1
      && readParamLocations == PrefixSums(ReadParamSizes(shiftSize))
    }
  }

  /** Widths of the read-head parameters in the order the constructor lists
      them: gate 3, shift kernel S, sharpening exponent 1. */
  function ReadParamSizes(shiftSize: nat): seq<nat> {
    [3, shiftSize, 1]
  }

  /** Width of the read-head parameter vector the projection layer produces. */
  function NumReadParams(shiftSize: nat): nat {
    3 + 1 + shiftSize
  }

  /** The constructor: rejects an even shift size, then a non-positive one,
      then fewer than one read head; otherwise builds the layout table. */
  function NewInterface(hiddenSize: nat, contentBits: nat, shiftSize: int, numReadHeads: int)
    : (r: Result<Interface, ConfigError>)
    ensures r.Ok? <==> shiftSize % 2 == 1 && shiftSize > 0 && numReadHeads >= 1
    ensures shiftSize % 2 == 0 ==> r == Err(EvenShiftSize(shiftSize))
    ensures shiftSize % 2 == 1 && shiftSize <= 0 ==> r == Err(NonPositiveShiftSize(shiftSize))
    ensures shiftSize % 2 == 1 && shiftSize > 0 && numReadHeads < 1 ==> r == Err(TooFewReadHeads(numReadHeads))
    ensures r.Ok? ==> && r.value.Valid()
                      && r.value.shiftSize == shiftSize
                      && r.value.numReadHeads == numReadHeads
                      && r.value.hiddenSize == hiddenSize
                      && r.value.contentBits == contentBits
                      && r.value.readParamLocations == [0, 3, 3 + shiftSize, 4 + shiftSize]
  {
    if shiftSize % 2 == 0 then Err(EvenShiftSize(shiftSize))
    else if shiftSize <= 0 then Err(NonPositiveShiftSize(shiftSize))
    else if numReadHeads < 1 then Err(TooFewReadHeads(numReadHeads))
    else
      ReadLayout(shiftSize);
      Ok(Interface(hiddenSize, contentBits, shiftSize, numReadHeads,
                   PrefixSums(ReadParamSizes(shiftSize))))
  }

  /** The read-head layout is gate [0,3), shift [3,3+S), gamma [3+S,4+S); in
      particular its last location equals the number of read parameters, so
      the constructor's layout assertion can never fail. */
  lemma {:induction false} ReadLayout(shiftSize: nat)
    ensures PrefixSums(ReadParamSizes(shiftSize)) == [0, 3, 3 + shiftSize, 4 + shiftSize]
    ensures PrefixSums(ReadParamSizes(shiftSize))[3] == NumReadParams(shiftSize)
  {
    var p := PrefixSums(ReadParamSizes(shiftSize));
    assert p[1] == 3 && p[2] == 3 + shiftSize && p[3] == 4 + shiftSize;
  }

  /** The locations never decrease. */
  predicate Ascending(locations: seq<nat>) {
    forall i, j :: 0 <= i <= j < |locations| ==> locations[i] <= locations[j]
  }

  /** Slice `params` into consecutive pieces between neighbouring locations. */
  function SplitParams(params: Vector, locations: seq<nat>): (r: seq<Vector>)
    requires |locations| >= 1
    requires Ascending(locations)
    requires locations[|locations| - 1] <= |params|
    ensures |r| == |locations| - 1
    ensures forall i :: 0 <= i < |r| ==> |r[i]| == locations[i + 1] - locations[i]
  {
    seq(|locations| - 1, i requires 0 <= i < |locations| - 1 =>
      params[locations[i]..locations[i + 1]])
  }

  /** Concatenation of a sequence of vectors, last piece last. */
  function Concat(parts: seq<Vector>): Vector
    decreases |parts|
  {
    if |parts| == 0 then [] else Concat(parts[..|parts| - 1]) + parts[|parts| - 1]
  }

  /** Gluing the slices back together gives the covered stretch of `params`. */
  lemma {:induction false} SplitParamsConcat(params: Vector, locations: seq<nat>)
    requires |locations| >= 1
    requires Ascending(locations)
    requires locations[|locations| - 1] <= |params|
    ensures Concat(SplitParams(params, locations))
              == params[locations[0]..locations[|locations| - 1]]
    decreases |locations|
  {
    var n := |locations|;
    if n > 1 {
      var init := locations[..n - 1];
      assert Ascending(init);
      SplitParamsConcat(params, init);
      var parts := SplitParams(params, locations);
      var initParts := SplitParams(params, init);
      assert parts[..n - 2] == initParts;
      var a, b, c := locations[0], locations[n - 2], locations[n - 1];
      assert a <= b <= c;
      calc {
        Concat(parts);
        Concat(parts[..n - 2]) + parts[n - 2];
        Concat(initParts) + parts[n - 2];
        params[a..b] + params[b..c];
        { assert params[a..c] == params[a..b] + params[b..c]; }
        params[a..c];
      }
    }
  }

  /** Splitting a parameter vector of the right width along the layout table
      of `sizes` yields one piece per size, of exactly that width, and the
      pieces concatenate back to the whole vector. */
  lemma {:induction false} SplitRoundTrip(params: Vector, sizes: seq<nat>)
    requires |params| == SumNat(sizes)
    ensures var locations := PrefixSums(sizes);
            && Ascending(locations)
            && var parts := SplitParams(params, locations);
               && |parts| == |sizes|
               && (forall i :: 0 <= i < |sizes| ==> |parts[i]| == sizes[i])
               && Concat(parts) == params
  {
    var locations := PrefixSums(sizes);
    forall i, j | 0 <= i <= j < |locations|
      ensures locations[i] <= locations[j]
    {
      PrefixSumsMonotone(sizes, i, j);
    }
    SplitParamsConcat(params, locations);
    assert params[0..|params|] == params;
  }

  /** The three read-head pieces: gate, shift kernel, sharpening exponent. */
  lemma {:induction false} ReadParamsSplit(params: Vector, shiftSize: nat)
    requires |params| == NumReadParams(shiftSize)
    ensures var parts := SplitParams(params, PrefixSums(ReadParamSizes(shiftSize)));
            && |parts| == 3
            && parts[0] == params[..3]
            && parts[1] == params[3..3 + shiftSize]
            && parts[2] == params[3 + shiftSize..]
  {
    ReadLayout(shiftSize);
  }
}
