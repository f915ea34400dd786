/**
  The gate in front of the homography fit: Lowe's ratio test over the
  two-nearest-neighbour matches, then a minimum number of surviving
  matches. Keypoint detection, matching and the robust fit itself are
  collaborators passed in.
 */
module Homography {
  import opened Wrappers
  import opened Geometry
  import opened Exceptions

  /** One descriptor match: keypoint indices in both images and the descriptor distance. */
  datatype DMatch = DMatch(queryIdx: nat, trainIdx: nat, distance: real)

  /** The nearest (`m`) and second-nearest (`n`) match of one query keypoint. */
  datatype KnnPair = KnnPair(m: DMatch, n: DMatch)

  /** The keypoint positions of both images and their two-nearest-neighbour matches. */
  datatype FeatureMatches = FeatureMatches(kp1: seq<Point>, kp2: seq<Point>, matches: seq<KnnPair>)

  /** The robust fit of a homography to paired source and destination points. */
  type Fit = (seq<Point>, seq<Point>) -> HomographyMatrix

  const RatioThreshold: real := 0.7

  /** More than this many good matches are needed to attempt a fit. */
  const MinMatchCount: nat := 10

  const NotEnoughMatches: string := "Not enough matches found."

  /** Lowe's ratio test: the nearest match is clearly better than the second one. */
  predicate PassesRatioTest(p: KnnPair)
  {
    p.m.distance < RatioThreshold * p.n.distance
  }

  /**
    The good matches: the nearest match of every pair that passes the
    ratio test, in the order of the pairs.
   */
  function GoodMatches(matches: seq<KnnPair>): (good: seq<DMatch>)
    ensures |good| <= |matches|
    ensures forall g :: g in good ==>
      exists i :: 0 <= i < |matches| && PassesRatioTest(matches[i]) && matches[i].m == g
    ensures forall i :: 0 <= i < |matches| && PassesRatioTest(matches[i]) ==> matches[i].m in good
  {
    if |matches| == 0 then []
    else
      var last := matches[|matches| - 1];
      GoodMatches(matches[..|matches| - 1]) + (if PassesRatioTest(last) then [last.m] else [])
  }

  /** Filtering distributes over concatenation, so the relative order of good matches is kept. */
  lemma {:induction false} GoodMatchesAppend(a: seq<KnnPair>, b: seq<KnnPair>)
    ensures GoodMatches(a + b) == GoodMatches(a) + GoodMatches(b)
    decreases |b|
  {
    if |b| == 0 {
      assert a + b == a;
    } else {
      var b' := b[..|b| - 1];
      assert (a + b)[..|a + b| - 1] == a + b';
      GoodMatchesAppend(a, b');
    }
  }

  /** The filter keeps a single pair exactly when it passes; equal to 0.7 times is rejected. */
  lemma GoodMatchesSingle(p: KnnPair)
    ensures GoodMatches([p]) == if p.m.distance < 0.7 * p.n.distance then [p.m] else []
    ensures p.m.distance == 0.7 * p.n.distance ==> GoodMatches([p]) == []
  {
    assert [p][..0] == [];
  }

  /** The ratio-test loop of `compute_homography`, over the matches in order. */
  method FilterGoodMatches(matches: seq<KnnPair>) returns (good: seq<DMatch>)
    ensures good == GoodMatches(matches)
  {
    good := [];
    var i := 0;
    while i < |matches|
      invariant 0 <= i <= |matches|
      invariant good == GoodMatches(matches[..i])
    {
      assert matches[..i + 1][..i] == matches[..i];
      if matches[i].m.distance < RatioThreshold * matches[i].n.distance {
        good := good + [matches[i].m];
      }
      i := i + 1;
    }
    assert matches[..i] == matches;
  }

  /** Whether every good match indexes a keypoint of both images. */
  predicate IndicesInRange(good: seq<DMatch>, kp1: seq<Point>, kp2: seq<Point>)
  {
    forall j :: 0 <= j < |good| ==> good[j].queryIdx < |kp1| && good[j].trainIdx < |kp2|
  }

  /** The keypoints the good matches point to: query side when `first`, train side otherwise. */
  function MatchedPoints(good: seq<DMatch>, kp: seq<Point>, first: bool): (pts: seq<Point>)
    requires forall j :: 0 <= j < |good| ==>
      (if first then good[j].queryIdx else good[j].trainIdx) < |kp|
    ensures |pts| == |good|
    ensures forall j :: 0 <= j < |good| ==>
      pts[j] == kp[if first then good[j].queryIdx else good[j].trainIdx]
  {
    seq(|good|, j requires 0 <= j < |good| =>
      kp[if first then good[j].queryIdx else good[j].trainIdx])
  }

  /**
    `compute_homography`, with the feature matching already done: a fit is
    attempted only with more than `MinMatchCount` good matches, on the
    query-side and train-side keypoints of the good matches paired index
    by index; otherwise `ValueError("Not enough matches found.")`. A good
    match whose query or train index lies outside its keypoint tuple raises
    `IndexError`, as the tuple subscription does.
   */
  function ComputeHomography(features: FeatureMatches, fit: Fit): (r: Result<HomographyMatrix, Error>)
    ensures r == Failure(ValueError(NotEnoughMatches)) <==> |GoodMatches(features.matches)| <= MinMatchCount
    ensures r.Success? <==>
      |GoodMatches(features.matches)| > MinMatchCount
      && IndicesInRange(GoodMatches(features.matches), features.kp1, features.kp2)
    ensures
      (|GoodMatches(features.matches)| > MinMatchCount
       && !IndicesInRange(GoodMatches(features.matches), features.kp1, features.kp2)) ==>
      r == Failure(IndexError)
    ensures r.Success? ==>
      var good := GoodMatches(features.matches);
      exists src: seq<Point>, dst: seq<Point> ::
        && |src| == |dst| == |good|
        && (forall j :: 0 <= j < |good| ==>
              src[j] == features.kp1[good[j].queryIdx] && dst[j] == features.kp2[good[j].trainIdx])
        && r.value == fit(src, dst)
  {
    var good := GoodMatches(features.matches);
    if |good| > MinMatchCount then
      if IndicesInRange(good, features.kp1, features.kp2) then
        var src := MatchedPoints(good, features.kp1, true);
        var dst := MatchedPoints(good, features.kp2, false);
        Success(fit(src, dst))
      else
        Failure(IndexError)
    else
      Failure(ValueError(NotEnoughMatches))
  }

  /** Exactly ten good matches are not enough. */
  lemma TenGoodMatchesAreRejected(features: FeatureMatches, fit: Fit)
    requires |GoodMatches(features.matches)| == 10
    ensures ComputeHomography(features, fit) == Failure(ValueError("Not enough matches found."))
  {
  }
}
