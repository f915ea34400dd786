/**
  Pure helpers for landmark detection results: normalised-to-pixel
  conversion, the tolerant [0, 1] validity test and drawing-spec lookup.
 */
module MediapipeUtils {
  import opened Wrappers
  import opened Geometry

  /** `np.isclose` default absolute tolerance, 1e-8. */
  const Atol: real := 0.00000001
  /** `np.isclose` default relative tolerance, 1e-5. */
  const Rtol: real := 0.00001

  function Abs(a: real): real { if a < 0.0 then -a else a }

  function Min(a: int, b: int): int { if a <= b then a else b }

  function Max(a: int, b: int): int { if a >= b then a else b }

  /** `np.clip(v, lo, hi)`: the upper bound wins when the bounds cross. */
  function Clip(v: int, lo: int, hi: int): int { Min(Max(v, lo), hi) }

  /**
    `np.floor(c * size).astype(int)` on unbounded integers: the source's cast
    of a floor beyond the 64-bit range gives a platform-dependent value,
    whereas here the floor is kept as it is.
   */
  function ScaleDown(c: real, size: int): (v: int)
    ensures v as real <= c * size as real < v as real + 1.0
  {
    (c * size as real).Floor
  }

  /** Where a normalised coordinate lands relative to a positive size. */
  lemma ScaleDownRange(c: real, size: int)
    ensures size > 0 && c < 0.0 ==> ScaleDown(c, size) < 0
    ensures size > 0 && c >= 1.0 ==> ScaleDown(c, size) >= size
    ensures size > 0 && 0.0 <= c < 1.0 ==> 0 <= ScaleDown(c, size) < size
  {
    var s := size as real;
    if size <= 0 {
    } else if c < 0.0 {
      assert c * s < 0.0;
    } else if c >= 1.0 {
      assert c * s >= 1.0 * s;
    } else {
      assert 0.0 <= c * s < 1.0 * s;
    }
  }

  /**
    One coordinate of `normalized_to_pixel_coordinates`: rounded down, and
    with `clip` clamped into [0, size - 1].
   */
  function ToPixelCoordinate(c: real, size: int, clip: bool): (v: int)
    // without clipping: the floor of the scaled coordinate, whatever its sign or size
    ensures !clip ==> v as real <= c * size as real < v as real + 1.0
    // with clipping and a positive size: inside [0, size - 1], rounded down inside
    // the image, pinned to the nearer edge outside it
    ensures clip && size > 0 ==>
      && 0 <= v < size
      && (0.0 <= c < 1.0 ==> v as real <= c * size as real < v as real + 1.0)
      && (c < 0.0 ==> v == 0)
      && (c >= 1.0 ==> v == size - 1)
  {
    var raw := ScaleDown(c, size);
    ScaleDownRange(c, size);
    if clip then Clip(raw, 0, size - 1) else raw
  }

  /**
    One normalised point in pixel coordinates for an image of size
    `imageSize`, whose FIRST component is taken as the width.
   */
  function ToPixel(p: Point, imageSize: (int, int), clipToImage: bool): (px: Pixel)
    ensures px.x == ToPixelCoordinate(p.x, imageSize.0, clipToImage)
    ensures px.y == ToPixelCoordinate(p.y, imageSize.1, clipToImage)
  {
    var (width, height) := imageSize;
    Pixel(ToPixelCoordinate(p.x, width, clipToImage), ToPixelCoordinate(p.y, height, clipToImage))
  }

  /** Whether every pixel lies in [0, width - 1] x [0, height - 1]. */
  predicate InsideImage(pixels: seq<Pixel>, imageSize: (int, int))
  {
    forall i :: 0 <= i < |pixels| ==>
      0 <= pixels[i].x < imageSize.0 && 0 <= pixels[i].y < imageSize.1
  }

  /**
    `normalized_to_pixel_coordinates`: one pixel per input point, in input
    order; clipped output of a positive-size image stays inside the image.
   */
  function NormalizedToPixelCoordinates(
    points: seq<Point>, imageSize: (int, int), clipToImage: bool := true): (r: seq<Pixel>)
    ensures |r| == |points|
    ensures forall i :: 0 <= i < |points| ==> r[i] == ToPixel(points[i], imageSize, clipToImage)
    ensures clipToImage && imageSize.0 > 0 && imageSize.1 > 0 ==> InsideImage(r, imageSize)
  {
    seq(|points|, i requires 0 <= i < |points| => ToPixel(points[i], imageSize, clipToImage))
  }

  /** `np.isclose(a, b)` with its default tolerances (NaN aside). */
  predicate IsClose(a: real, b: real)
  {
    Abs(a - b) <= Atol + Rtol * Abs(b)
  }

  /**
    One coordinate passes when it is above 0 or close to 0, and below 1 or
    close to 1: the closed interval [0, 1] widened by the tolerances, which
    are asymmetric because the relative one scales with the reference value.
   */
  function IsValidCoordinate(c: real): (ok: bool)
    ensures ok <==> -Atol <= c <= 1.0 + Atol + Rtol
  {
    (c > 0.0 || IsClose(c, 0.0)) && (c < 1.0 || IsClose(c, 1.0))
  }

  /** Exactly 0 and exactly 1 pass; -0.1 and 1.1 are well outside the tolerance. */
  lemma IsValidCoordinateBoundaries()
    ensures IsValidCoordinate(0.0) && IsValidCoordinate(1.0)
    ensures !IsValidCoordinate(-0.1) && !IsValidCoordinate(1.1)
  {
  }

  /** Rounding is downwards: 0.999 on a width of 10 is pixel 9, clipped or not. */
  lemma ToPixelRoundsDown()
    ensures ToPixelCoordinate(0.999, 10, true) == 9
    ensures ToPixelCoordinate(0.999, 10, false) == 9
  {
  }

  predicate IsValidNormalizedPoint(p: Point)
  {
    IsValidCoordinate(p.x) && IsValidCoordinate(p.y)
  }

  /**
    `are_valid_normalized_points`: one flag per point, set exactly when both
    coordinates lie in the tolerant closed unit interval.
   */
  function AreValidNormalizedPoints(points: seq<Point>): (r: seq<bool>)
    ensures |r| == |points|
    ensures forall i :: 0 <= i < |points| ==>
      (r[i] <==> -Atol <= points[i].x <= 1.0 + Atol + Rtol
                 && -Atol <= points[i].y <= 1.0 + Atol + Rtol)
  {
    seq(|points|, i requires 0 <= i < |points| => IsValidNormalizedPoint(points[i]))
  }

  /** A drawing spec argument: one spec for everything, or a spec per key. */
  datatype SpecArg<K, S> = OneSpec(spec: S) | SpecMap(specs: map<K, S>)

  /**
    `get_spec_from_map`: the spec itself whatever the key, or the mapping's
    entry for the key; a missing key is a `KeyError` carrying that key. The
    key type is generic here, as in the source, so the failure carries the key
    itself rather than `Exceptions.KeyError`, whose key is a joint name.
   */
  function GetSpecFromMap<K, S>(drawingSpec: SpecArg<K, S>, key: K): (r: Result<S, K>)
    ensures drawingSpec.OneSpec? ==> r == Success(drawingSpec.spec)
    ensures drawingSpec.SpecMap? && key in drawingSpec.specs ==>
      r == Success(drawingSpec.specs[key])
    ensures drawingSpec.SpecMap? && key !in drawingSpec.specs ==> r == Failure(key)
  {
    match drawingSpec
    case OneSpec(s) => Success(s)
    case SpecMap(m) => if key in m then Success(m[key]) else Failure(key)
  }
}
