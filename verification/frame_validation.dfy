/** Plausibility checks the worker applies to every frame read from the
    MLX90640 sensor before it is used. */
module FrameValidation {

  /** Readings per frame: a 32 x 24 grid, row-major. */
  const FrameSize := 768

  /** A reading above this is a sensor artifact. */
  const ChessboardMaxThreshold: real := 300.0

  /** A reading below this is a sensor artifact. */
  const ChessboardMinThreshold: real := 5.0

  /** The list `getFrame` fills: always 768 readings. */
  type Frame = f: seq<real> | |f| == FrameSize witness seq(768, _ => 150.0)

  /** Python's `max` over a non-empty list. */
  function MaxOf(s: seq<real>): (m: real)
    requires |s| > 0
    ensures m in s
    ensures forall i :: 0 <= i < |s| ==> s[i] <= m
  {
    if |s| == 1 then s[0]
    else
      var rest := MaxOf(s[1..]);
      if s[0] >= rest then s[0] else rest
  }

  /** Python's `min` over a non-empty list. */
  function MinOf(s: seq<real>): (m: real)
    requires |s| > 0
    ensures m in s
    ensures forall i :: 0 <= i < |s| ==> m <= s[i]
  {
    if |s| == 1 then s[0]
    else
      var rest := MinOf(s[1..]);
      if s[0] <= rest then s[0] else rest
  }

  /** Outcome of the three checks, in the order the worker applies them;
      a rejection carries the value the worker logs. */
  datatype Verdict =
    | Accepted
    | ZeroReading
    | AboveMaximum(max: real)
    | BelowMinimum(min: real)

  /** The worker's checks: a zero anywhere (the chessboard error), then the
      maximum against 300, then the minimum against 5. */
  function Validate(f: Frame): (v: Verdict)
    ensures v == ZeroReading <==> 0.0 in f
    ensures v.AboveMaximum? <==>
              0.0 !in f && exists i :: 0 <= i < |f| && f[i] > ChessboardMaxThreshold
    ensures v.AboveMaximum? ==> v.max in f && forall i :: 0 <= i < |f| ==> f[i] <= v.max
    ensures v.BelowMinimum? <==>
              && 0.0 !in f
              && (forall i :: 0 <= i < |f| ==> f[i] <= ChessboardMaxThreshold)
              && exists i :: 0 <= i < |f| && f[i] < ChessboardMinThreshold
    ensures v.BelowMinimum? ==> v.min in f && forall i :: 0 <= i < |f| ==> v.min <= f[i]
    ensures v == Accepted <==>
              forall i :: 0 <= i < |f| ==> ChessboardMinThreshold <= f[i] <= ChessboardMaxThreshold
  {
    if 0.0 in f then ZeroReading
    else if MaxOf(f) > ChessboardMaxThreshold then AboveMaximum(MaxOf(f))
    else if MinOf(f) < ChessboardMinThreshold then BelowMinimum(MinOf(f))
    else Accepted
  }

  /** The zero check is subsumed by the minimum check: a frame that passes the
      range checks cannot contain a zero. */
  lemma ZeroCheckSubsumed(f: Frame)
    requires MinOf(f) >= ChessboardMinThreshold
    ensures 0.0 !in f
  {
  }
}
