/** The false-colour palette: the Gaussian-mixture gradient that fills the
    1000-entry colour table, and the mapping of a reading to a table index.
    `math.exp` is a parameter `exp`; no property here depends on it. */
module ColorMap {
  import opened Numeric

  /** Readings at or below this are drawn with the first table entry. */
  const MinTemp: real := 20.0

  /** Readings at or above this are drawn with the last table entry. */
  const MaxTemp: real := 200.0

  /** Entries in the colour table. */
  const ColorDepth := 1000

  /** A palette anchor: a position in [0, 1] and an RGB triple of floats. */
  datatype ControlPoint = ControlPoint(position: real, red: real, green: real, blue: real)

  datatype Channel = Red | Green | Blue

  function Amplitude(p: ControlPoint, ch: Channel): real {
    match ch
    case Red => p.red
    case Green => p.green
    case Blue => p.blue
  }

  /** `heatmap`: black, navy, green, red, gold, amber, white. */
  const Heatmap: seq<ControlPoint> := [
    ControlPoint(0.0, 0.0, 0.0, 0.0),
    ControlPoint(0.20, 0.0, 0.0, 0.5),
    ControlPoint(0.40, 0.0, 0.5, 0.0),
    ControlPoint(0.60, 0.5, 0.0, 0.0),
    ControlPoint(0.80, 0.75, 0.75, 0.0),
    ControlPoint(0.90, 1.0, 0.75, 0.0),
    ControlPoint(1.00, 1.0, 1.0, 1.0)
  ]

  /** One colour-table entry; each channel is a byte once built by `Gradient`. */
  datatype Rgb = Rgb(r: int, g: int, b: int)

  predicate IsByte(v: int) {
    0 <= v <= 255
  }

  predicate IsByteTriple(c: Rgb) {
    IsByte(c.r) && IsByte(c.g) && IsByte(c.b)
  }

  /** `_gaussian(x, a, b, c, d)`; Python divides by `2 * c ** 2`. */
  function Gaussian(exp: real -> real, x: real, a: real, b: real, c: real, d: real): real
    requires c != 0.0
  {
    a * exp(-((x - b) * (x - b)) / (2.0 * c * c)) + d
  }

  /** The list comprehension summed in `_gradient`, for one channel: one
      kernel per control point, all with deviation `sigma`. The comprehension
      never evaluates `sigma` over an empty palette. */
  function KernelSum(exp: real -> real, x: real, width: real, sigma: real,
                     points: seq<ControlPoint>, ch: Channel): real
    requires |points| > 0 ==> sigma != 0.0
  {
    if |points| == 0 then 0.0
    else
      Gaussian(exp, x, Amplitude(points[0], ch), points[0].position * width, sigma, 0.0)
      + KernelSum(exp, x, width, sigma, points[1..], ch)
  }

  /** `int(_constrain(s * 255, 0, 255))`: the byte for one summed channel. */
  function ChannelByte(s: real): (v: int)
    ensures IsByte(v)
    ensures s <= 0.0 ==> v == 0
    ensures s >= 1.0 ==> v == 255
    ensures 0.0 <= s <= 1.0 ==> v as real <= s * 255.0 < v as real + 1.0
  {
    Trunc(Constrain(s * 255.0, 0.0, 255.0))
  }

  /** A larger channel sum never gives a smaller byte. */
  lemma ChannelByteMonotone(s: real, t: real)
    requires s <= t
    ensures ChannelByte(s) <= ChannelByte(t)
  {
    ConstrainMonotone(s * 255.0, t * 255.0, 0.0, 255.0);
    TruncMonotone(Constrain(s * 255.0, 0.0, 255.0), Constrain(t * 255.0, 0.0, 255.0));
  }

  /** `_gradient(x, width, cmap, spread)`. Python divides by `spread * len(cmap)`
      and by the squared deviation only when the palette is non-empty. */
  function Gradient(exp: real -> real, x: int, width: real, cmap: seq<ControlPoint>, spread: real): (c: Rgb)
    requires |cmap| > 0 ==> width != 0.0 && spread != 0.0
    ensures IsByteTriple(c)
    ensures |cmap| == 0 ==> c == Rgb(0, 0, 0)
  {
    var sigma := if |cmap| == 0 then 1.0 else width / (spread * |cmap| as real);
    Rgb(ChannelByte(KernelSum(exp, x as real, width, sigma, cmap, Red)),
        ChannelByte(KernelSum(exp, x as real, width, sigma, cmap, Green)),
        ChannelByte(KernelSum(exp, x as real, width, sigma, cmap, Blue)))
  }

  /** The `colormap` list `_image` fills before mapping pixels. */
  function ColorTable(exp: real -> real): (t: seq<Rgb>)
    ensures |t| == ColorDepth
    ensures forall i :: 0 <= i < |t| ==> IsByteTriple(t[i])
  {
    seq(ColorDepth, i => Gradient(exp, i, ColorDepth as real, Heatmap, 1.0))
  }

  /** The table index of a reading: mapped from [MinTemp, MaxTemp] to
      [0, ColorDepth - 1], clamped, then truncated by `int()`. */
  function ColorIndex(pixel: real): (k: int)
    ensures 0 <= k < ColorDepth
    ensures pixel <= MinTemp ==> k == 0
    ensures pixel >= MaxTemp ==> k == ColorDepth - 1
    ensures MinTemp <= pixel <= MaxTemp ==> k == ((pixel - 20.0) * 999.0 / 180.0).Floor
  {
    Trunc(Constrain(MapValue(pixel, MinTemp, MaxTemp, 0.0, (ColorDepth - 1) as real),
                    0.0, (ColorDepth - 1) as real))
  }

  /** Inside the calibration range the index is the floor of the linear map. */
  lemma ColorIndexInRange(pixel: real)
    requires MinTemp <= pixel <= MaxTemp
    ensures ColorIndex(pixel) as real <= (pixel - 20.0) * 999.0 / 180.0 < ColorIndex(pixel) as real + 1.0
  {
    var m := MapValue(pixel, MinTemp, MaxTemp, 0.0, (ColorDepth - 1) as real);
    MapValueMonotone(MinTemp, pixel, MinTemp, MaxTemp, 0.0, 999.0);
    MapValueMonotone(pixel, MaxTemp, MinTemp, MaxTemp, 0.0, 999.0);
    assert 0.0 <= m <= 999.0;
  }

  /** A warmer reading never gets a lower table index. */
  lemma ColorIndexMonotone(p: real, q: real)
    requires p <= q
    ensures ColorIndex(p) <= ColorIndex(q)
  {
    var mp := MapValue(p, MinTemp, MaxTemp, 0.0, (ColorDepth - 1) as real);
    var mq := MapValue(q, MinTemp, MaxTemp, 0.0, (ColorDepth - 1) as real);
    MapValueMonotone(p, q, MinTemp, MaxTemp, 0.0, (ColorDepth - 1) as real);
    ConstrainMonotone(mp, mq, 0.0, (ColorDepth - 1) as real);
    TruncMonotone(Constrain(mp, 0.0, (ColorDepth - 1) as real), Constrain(mq, 0.0, (ColorDepth - 1) as real));
  }

  /** The `pixels` list: each reading replaced by its colour-table entry. */
  function Pixels(frame: seq<real>, table: seq<Rgb>): (px: seq<Rgb>)
    requires |table| == ColorDepth
    ensures |px| == |frame|
    ensures forall i :: 0 <= i < |px| ==> px[i] in table
    ensures forall i :: 0 <= i < |px| && frame[i] <= MinTemp ==> px[i] == table[0]
    ensures forall i :: 0 <= i < |px| && frame[i] >= MaxTemp ==> px[i] == table[ColorDepth - 1]
    ensures forall i :: 0 <= i < |px| && MinTemp <= frame[i] <= MaxTemp ==>
              px[i] == table[((frame[i] - 20.0) * 999.0 / 180.0).Floor]
  {
    seq(|frame|, i requires 0 <= i < |frame| => table[ColorIndex(frame[i])])
  }

  /** Every pixel drawn from the built table is a byte triple. */
  lemma PixelsAreBytes(exp: real -> real, frame: seq<real>)
    ensures forall i :: 0 <= i < |frame| ==> IsByteTriple(Pixels(frame, ColorTable(exp))[i])
  {
  }
}
