/** The scalar temperature estimate `_value` derives from a validated frame:
    the mean of a fixed 16-reading centre square, then an affine calibration. */
module Temperature {
  import opened FrameValidation

  const TemperatureMultiplier: real := 1.35
  const TemperatureOffset: real := -6.0

  /** The frame indices the worker reads, in the order it lists them. They
      form four runs of four, each run 16 indices after the previous one. */
  const CentreSquare: seq<int> :=
    [72, 73, 74, 75, 88, 89, 90, 91, 104, 105, 106, 107, 120, 121, 122, 123]

  /** Shape of the index list: 16 in-frame, pairwise distinct indices, four
      runs of four consecutive indices spaced 16 apart. */
  lemma CentreSquareShape()
    ensures |CentreSquare| == 16
    ensures forall k :: 0 <= k < 16 ==> 0 <= CentreSquare[k] < FrameSize
    ensures forall a, b :: 0 <= a < b < 16 ==> CentreSquare[a] < CentreSquare[b]
    ensures forall k :: 0 <= k < 16 ==> CentreSquare[k] == 72 + 16 * (k / 4) + k % 4
    ensures forall x :: x in CentreSquare <==> 72 <= x < 124 && (x - 72) % 16 < 4
  {
    forall x | 72 <= x < 124 && (x - 72) % 16 < 4
      ensures x in CentreSquare
    {
      var k := 4 * ((x - 72) / 16) + (x - 72) % 16;
      assert 0 <= k < 16 && CentreSquare[k] == x;
    }
  }

  /** `center_square`: the readings at the centre indices, in list order. */
  function CentreReadings(f: Frame): (c: seq<real>)
    ensures |c| == 16
    ensures forall k :: 0 <= k < 16 ==> c[k] == f[CentreSquare[k]]
  {
    seq(16, k requires 0 <= k < 16 => f[CentreSquare[k]])
  }

  function Sum(s: seq<real>): real {
    if |s| == 0 then 0.0 else s[0] + Sum(s[1..])
  }

  /** `statistics.mean`, which raises on an empty list. */
  function Mean(s: seq<real>): real
    requires |s| > 0
  {
    Sum(s) / |s| as real
  }

  /** The calibrated estimate before it is formatted to one decimal place. */
  function RawEstimate(f: Frame): real {
    Mean(CentreReadings(f)) * TemperatureMultiplier + TemperatureOffset
  }

  /** Pointwise larger sequences have a larger sum. */
  lemma {:induction false} SumMonotone(a: seq<real>, b: seq<real>)
    requires |a| == |b|
    requires forall i :: 0 <= i < |a| ==> a[i] <= b[i]
    ensures Sum(a) <= Sum(b)
  {
    if |a| > 0 {
      SumMonotone(a[1..], b[1..]);
    }
  }

  /** A sequence of n copies of v sums to n * v. */
  lemma {:induction false} SumConstant(s: seq<real>, v: real)
    requires forall i :: 0 <= i < |s| ==> s[i] == v
    ensures Sum(s) == |s| as real * v
  {
    if |s| > 0 {
      SumConstant(s[1..], v);
    }
  }

  /** Raising any centre reading never lowers the estimate. */
  lemma RawEstimateMonotone(f: Frame, g: Frame)
    requires forall k :: 0 <= k < 16 ==> f[CentreSquare[k]] <= g[CentreSquare[k]]
    ensures RawEstimate(f) <= RawEstimate(g)
  {
    SumMonotone(CentreReadings(f), CentreReadings(g));
  }

  /** Readings outside the centre square do not affect the estimate. */
  lemma RawEstimateIgnoresOutside(f: Frame, g: Frame)
    requires forall k :: 0 <= k < 16 ==> f[CentreSquare[k]] == g[CentreSquare[k]]
    ensures RawEstimate(f) == RawEstimate(g)
  {
    assert CentreReadings(f) == CentreReadings(g);
  }

  /** A centre square reading v throughout gives 1.35 * v - 6. */
  lemma RawEstimateUniform(f: Frame, v: real)
    requires forall k :: 0 <= k < 16 ==> f[CentreSquare[k]] == v
    ensures RawEstimate(f) == 1.35 * v - 6.0
  {
    SumConstant(CentreReadings(f), v);
  }

  /** A centre square of 100.0 gives 129.0. */
  lemma RawEstimateOfHundred(f: Frame)
    requires forall k :: 0 <= k < 16 ==> f[CentreSquare[k]] == 100.0
    ensures RawEstimate(f) == 129.0
  {
    RawEstimateUniform(f, 100.0);
  }

  /** On a frame that passed validation the estimate lies between the
      calibrated thresholds: 1.35 * 5 - 6 and 1.35 * 300 - 6. */
  lemma RawEstimateOfAcceptedFrame(f: Frame)
    requires Validate(f) == Accepted
    ensures 0.75 <= RawEstimate(f) <= 399.0
  {
    var c := CentreReadings(f);
    var low := seq(16, _ => ChessboardMinThreshold);
    var high := seq(16, _ => ChessboardMaxThreshold);
    SumMonotone(low, c);
    SumMonotone(c, high);
    SumConstant(low, ChessboardMinThreshold);
    SumConstant(high, ChessboardMaxThreshold);
  }
}
