/** Points, pixels and the (abstract) projective warp of a point batch. */
module Geometry {

  /** A 2D point with real coordinates: a normalised landmark or a track row. */
  datatype Point = Point(x: real, y: real)

  /** A 2D point with integer pixel coordinates. */
  datatype Pixel = Pixel(x: int, y: int)

  /** The 3x3 homography matrix `M`; the model never looks inside it. */
  datatype HomographyMatrix = HomographyMatrix(rows: seq<seq<real>>)

  /**
    How one point is mapped by a homography. The point warp used by the
    trajectory code is not defined in the modelled files, so it is a
    parameter of everything that warps.
   */
  type Warp = (HomographyMatrix, Point) -> Point

  /**
    `perspective_transform(points, M)`: every point is mapped independently
    and in order; an empty batch gives an empty batch.
   */
  function PerspectiveTransform(points: seq<Point>, M: HomographyMatrix, warp: Warp): (r: seq<Point>)
    ensures |r| == |points|
    ensures forall i :: 0 <= i < |points| ==> r[i] == warp(M, points[i])
  {
    seq(|points|, i requires 0 <= i < |points| => warp(M, points[i]))
  }

  /** Warping a batch is warping its two halves: the map is pointwise. */
  lemma PerspectiveTransformAppend(a: seq<Point>, b: seq<Point>, M: HomographyMatrix, warp: Warp)
    ensures PerspectiveTransform(a + b, M, warp)
         == PerspectiveTransform(a, M, warp) + PerspectiveTransform(b, M, warp)
  {
  }

  /** A warp that fixes every point leaves every batch as it was. */
  lemma PerspectiveTransformIdentity(points: seq<Point>, M: HomographyMatrix, warp: Warp)
    requires forall p :: warp(M, p) == p
    ensures PerspectiveTransform(points, M, warp) == points
  {
  }
}
