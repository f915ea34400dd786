/**
  The per-frame landmark list: normalised points and visibilities in
  detector order, and, for one image, their pixel positions and whether
  each landmark can be drawn.
 */
module LandmarkLists {
  import opened Wrappers
  import opened Exceptions
  import opened Geometry
  import opened MediapipeUtils

  /** One entry of a normalised landmark list; its `z` and `presence` are never read. */
  datatype NormalizedLandmark = NormalizedLandmark(x: real, y: real, visibility: real)

  /** `LandmarkListNp`: two parallel arrays in landmark order. */
  datatype LandmarkListNp = LandmarkListNp(landmarksNorm: seq<Point>, visibility: seq<real>)
  {
    /** `len()`: the number of normalised points. */
    function Len(): nat { |landmarksNorm| }
  }

  /** `LandmarkListImg`: a `LandmarkListNp` plus what is needed to draw it on one image. */
  datatype LandmarkListImg = LandmarkListImg(
    base: LandmarkListNp,
    imgShape: (int, int),
    visibilityThreshold: real,
    landmarksImg: seq<Pixel>,
    drawable: seq<bool>)
  {
    function Len(): nat { base.Len() }
  }

  /** The default minimum visibility of a drawable landmark. */
  const DefaultVisibilityThreshold: real := 0.5

  /**
    `LandmarkListNp.__init__`: the (x, y) and the visibility of every input
    landmark, in input order.
   */
  function NewLandmarkListNp(landmarks: seq<NormalizedLandmark>): (l: LandmarkListNp)
    ensures l.Len() == |l.visibility| == |landmarks|
    ensures forall i :: 0 <= i < |landmarks| ==>
      && l.landmarksNorm[i] == Point(landmarks[i].x, landmarks[i].y)
      && l.visibility[i] == landmarks[i].visibility
  {
    LandmarkListNp(
      seq(|landmarks|, i requires 0 <= i < |landmarks| => Point(landmarks[i].x, landmarks[i].y)),
      seq(|landmarks|, i requires 0 <= i < |landmarks| => landmarks[i].visibility))
  }

  /** The landmarks a `LandmarkListNp` was built from, read back from its two arrays. */
  function Landmarks(l: LandmarkListNp): seq<NormalizedLandmark>
    requires |l.visibility| == l.Len()
  {
    seq(l.Len(), i requires 0 <= i < l.Len() =>
      NormalizedLandmark(l.landmarksNorm[i].x, l.landmarksNorm[i].y, l.visibility[i]))
  }

  /** Unpacking loses nothing but what is never read: the arrays give the landmarks back. */
  lemma LandmarkListNpRoundTrip(landmarks: seq<NormalizedLandmark>)
    ensures Landmarks(NewLandmarkListNp(landmarks)) == landmarks
  {
  }

  /**
    `LandmarkListImg.__init__`. An empty landmark list raises `IndexError`:
    its normalised points form a one-dimensional empty array, whose column
    `[:, 0]` does not exist. Otherwise the configuration is kept as given,
    every landmark gets a clipped pixel position, and a landmark is drawable
    exactly when its visibility is strictly above the threshold and both
    normalised coordinates lie in the tolerant unit interval.
   */
  function NewLandmarkListImg(
    landmarks: seq<NormalizedLandmark>,
    imgShape: (int, int),
    visibilityThreshold: real := DefaultVisibilityThreshold): (r: Result<LandmarkListImg, Error>)
    ensures r.Failure? <==> |landmarks| == 0
    ensures r.Failure? ==> r.error == IndexError
    ensures r.Success? ==>
      var l := r.value;
      && l.base == NewLandmarkListNp(landmarks)
      && l.imgShape == imgShape && l.visibilityThreshold == visibilityThreshold
      && l.Len() == |l.landmarksImg| == |l.drawable| == |landmarks|
      && l.landmarksImg == NormalizedToPixelCoordinates(l.base.landmarksNorm, imgShape, true)
      && (imgShape.0 > 0 && imgShape.1 > 0 ==> InsideImage(l.landmarksImg, imgShape))
      && forall i :: 0 <= i < |landmarks| ==>
           (l.drawable[i] <==>
             && landmarks[i].visibility > visibilityThreshold
             && -Atol <= landmarks[i].x <= 1.0 + Atol + Rtol
             && -Atol <= landmarks[i].y <= 1.0 + Atol + Rtol)
  {
    var base := NewLandmarkListNp(landmarks);
    if |landmarks| == 0 then
      Failure(IndexError)
    else
      var landmarksImg := NormalizedToPixelCoordinates(base.landmarksNorm, imgShape);
      var valid := AreValidNormalizedPoints(base.landmarksNorm);
      var drawable := seq(|landmarks|, i requires 0 <= i < |landmarks| =>
        base.visibility[i] > visibilityThreshold && valid[i]);
      Success(LandmarkListImg(base, imgShape, visibilityThreshold, landmarksImg, drawable))
  }

  /** `len()` of a landmark list is the number of landmarks it was built from. */
  lemma LenCountsLandmarks(landmarks: seq<NormalizedLandmark>, imgShape: (int, int), threshold: real)
    ensures NewLandmarkListNp(landmarks).Len() == |landmarks|
    ensures |landmarks| > 0 ==> NewLandmarkListImg(landmarks, imgShape, threshold).value.Len() == |landmarks|
  {
  }

  /**
    Visibility equal to the threshold is not enough to be drawable; any
    visibility above it is, for a point inside the unit square.
   */
  lemma DrawableThresholdIsStrict(x: real, y: real, v: real, imgShape: (int, int), threshold: real)
    requires 0.0 <= x <= 1.0 && 0.0 <= y <= 1.0
    ensures !NewLandmarkListImg([NormalizedLandmark(x, y, threshold)], imgShape, threshold).value.drawable[0]
    ensures v > threshold ==>
      NewLandmarkListImg([NormalizedLandmark(x, y, v)], imgShape, threshold).value.drawable[0]
  {
  }

  /**
    A landmark with either coordinate beyond the tolerance is never
    drawable, even fully visible, yet both of its pixel coordinates are
    still clamped into the image.
   */
  lemma OutsideIsClampedButNotDrawable(
    landmarks: seq<NormalizedLandmark>, imgShape: (int, int), threshold: real, i: int)
    requires 0 <= i < |landmarks|
    requires || landmarks[i].x > 1.0 + Atol + Rtol || landmarks[i].x < -Atol
             || landmarks[i].y > 1.0 + Atol + Rtol || landmarks[i].y < -Atol
    requires imgShape.0 > 0 && imgShape.1 > 0
    ensures NewLandmarkListImg(landmarks, imgShape, threshold).Success?
    ensures !NewLandmarkListImg(landmarks, imgShape, threshold).value.drawable[i]
    ensures 0 <= NewLandmarkListImg(landmarks, imgShape, threshold).value.landmarksImg[i].x < imgShape.0
    ensures 0 <= NewLandmarkListImg(landmarks, imgShape, threshold).value.landmarksImg[i].y < imgShape.1
  {
  }

  /** An empty landmark list cannot be put on an image. */
  lemma EmptyListRaises(imgShape: (int, int), threshold: real)
    ensures NewLandmarkListImg([], imgShape, threshold) == Failure(IndexError)
  {
  }

  /** The documented scenario: (0.5, 0.5) on a 100 x 100 image is pixel (50, 50). */
  lemma CentreOfHundredSquare()
    ensures NewLandmarkListImg([NormalizedLandmark(0.5, 0.5, 0.9)], (100, 100)).value.landmarksImg
         == [Pixel(50, 50)]
    ensures NewLandmarkListImg([NormalizedLandmark(0.5, 0.5, 0.9)], (100, 100)).value.drawable == [true]
  {
  }
}
