/**
  The history of one joint across frames: each new frame first re-expresses
  the whole past track in the new frame's coordinates, then appends the
  joint's position in the new frame.
 */
module JointHists {
  import opened Wrappers
  import opened Geometry
  import opened Exceptions
  import opened LandmarkLists

  /** A joint name, one of the supported joint names. */
  type JointName = string

  /**
    How a landmark list yields one joint's position and visibility; it may
    fail, for instance for a name it does not know.
   */
  type JointLookup = (LandmarkListImg, JointName) -> Option<(Point, real)>

  /** The two collaborators a history step needs: the point warp and the joint lookup. */
  datatype Collaborators = Collaborators(warp: Warp, lookup: JointLookup)

  /** `JointHist`: the joint it follows, its track (one row per frame) and the visibilities. */
  datatype JointHist = JointHist(whichJoint: JointName, track: seq<Point>, visibility: seq<real>)
  {
    /** `len()`: the number of frames in the track. */
    function Len(): nat { |track| }

    /** The track and the visibilities have one entry per frame each. */
    predicate Parallel() { |track| == |visibility| }
  }

  /** `JointHist.__init__`: an empty history for `whichJoint`. */
  function NewJointHist(whichJoint: JointName): (h: JointHist)
    ensures h.whichJoint == whichJoint
    ensures h.Len() == 0 && |h.visibility| == 0
  {
    JointHist(whichJoint, [], [])
  }

  /**
    `JointHist.add_frame`: the old track is warped by `M` pointwise and in
    order, then the joint's looked-up position (unwarped) and visibility
    are appended. A failing lookup raises after the warp: the track stays
    warped and nothing is appended.
   */
  function AddFrame(h: JointHist, landlist: LandmarkListImg, M: HomographyMatrix, cb: Collaborators)
    : (r: Outcome<JointHist>)
    ensures r.state.whichJoint == h.whichJoint
    ensures r.Returned? <==> cb.lookup(landlist, h.whichJoint).Some?
    ensures r.Raised? ==> r.error == JointLookupError(h.whichJoint)
    ensures |r.state.track| == |h.track| + (if r.Returned? then 1 else 0)
    ensures forall i :: 0 <= i < |h.track| ==> r.state.track[i] == cb.warp(M, h.track[i])
    ensures r.Returned? ==>
      && r.state.track[|h.track|] == cb.lookup(landlist, h.whichJoint).value.0
      && r.state.visibility == h.visibility + [cb.lookup(landlist, h.whichJoint).value.1]
    ensures r.Raised? ==> r.state.visibility == h.visibility
    ensures h.Parallel() ==> r.state.Parallel()
  {
    var warped := PerspectiveTransform(h.track, M, cb.warp);
    match cb.lookup(landlist, h.whichJoint)
    case None => Raised(h.(track := warped), JointLookupError(h.whichJoint))
    case Some((lm, viz)) => Returned(JointHist(h.whichJoint, warped + [lm], h.visibility + [viz]))
  }

  /** One processed frame: its landmark list and the homography into it from the previous frame. */
  datatype FrameStep = FrameStep(landlist: LandmarkListImg, M: HomographyMatrix)

  /** Successive `add_frame` calls, stopping at the first one that raises. */
  function AddFrames(h: JointHist, steps: seq<FrameStep>, cb: Collaborators): (r: Outcome<JointHist>)
    ensures r.state.whichJoint == h.whichJoint
    ensures h.Parallel() ==> r.state.Parallel()
    decreases |steps|
  {
    if |steps| == 0 then Returned(h)
    else
      match AddFrame(h, steps[0].landlist, steps[0].M, cb)
      case Raised(h', e) => Raised(h', e)
      case Returned(h') => AddFrames(h', steps[1..], cb)
  }

  /**
    `len()` of a history counts the frames it has accepted: none at first,
    one per `add_frame` that returned, and exactly as many as frames offered
    when none of them raised.
   */
  lemma {:induction false} LenCountsAcceptedFrames(h: JointHist, steps: seq<FrameStep>, cb: Collaborators)
    ensures NewJointHist(h.whichJoint).Len() == 0
    ensures h.Len() <= AddFrames(h, steps, cb).state.Len() <= h.Len() + |steps|
    ensures AddFrames(h, steps, cb).Returned? <==> AddFrames(h, steps, cb).state.Len() == h.Len() + |steps|
    decreases |steps|
  {
    if |steps| > 0 {
      var r := AddFrame(h, steps[0].landlist, steps[0].M, cb);
      if r.Returned? {
        LenCountsAcceptedFrames(r.state, steps[1..], cb);
      }
    }
  }

  /** A point carried through the homographies of `steps`, oldest first. */
  function WarpThrough(p: Point, steps: seq<FrameStep>, warp: Warp): Point
    decreases |steps|
  {
    if |steps| == 0 then p else WarpThrough(warp(steps[0].M, p), steps[1..], warp)
  }

  /** Whether the lookup of `joint` succeeds on the landmark list of every step. */
  predicate LookupsSucceed(steps: seq<FrameStep>, joint: JointName, cb: Collaborators)
  {
    forall k :: 0 <= k < |steps| ==> cb.lookup(steps[k].landlist, joint).Some?
  }

  /**
    Cumulative re-warping: after frames whose lookups all succeed, the
    history has one more entry per frame; an entry already present has been
    carried through every homography, and the entry added at frame `k`
    through the homographies of the frames after `k` only. Visibilities
    are appended and never changed.
   */
  lemma {:induction false} AddFramesRewarpsHistory(h: JointHist, steps: seq<FrameStep>, cb: Collaborators)
    requires LookupsSucceed(steps, h.whichJoint, cb)
    ensures AddFrames(h, steps, cb).Returned?
    ensures |AddFrames(h, steps, cb).state.track| == |h.track| + |steps|
    ensures |AddFrames(h, steps, cb).state.visibility| == |h.visibility| + |steps|
    ensures forall i :: 0 <= i < |h.track| ==>
      AddFrames(h, steps, cb).state.track[i] == WarpThrough(h.track[i], steps, cb.warp)
    ensures forall k :: 0 <= k < |steps| ==>
      AddFrames(h, steps, cb).state.track[|h.track| + k]
        == WarpThrough(cb.lookup(steps[k].landlist, h.whichJoint).value.0, steps[k + 1..], cb.warp)
    ensures forall i :: 0 <= i < |h.visibility| ==>
      AddFrames(h, steps, cb).state.visibility[i] == h.visibility[i]
    ensures forall k :: 0 <= k < |steps| ==>
      AddFrames(h, steps, cb).state.visibility[|h.visibility| + k]
        == cb.lookup(steps[k].landlist, h.whichJoint).value.1
    decreases |steps|
  {
    if |steps| > 0 {
      var h' := AddFrame(h, steps[0].landlist, steps[0].M, cb).state;
      var rest := steps[1..];
      assert LookupsSucceed(rest, h'.whichJoint, cb) by {
        forall k | 0 <= k < |rest| ensures cb.lookup(rest[k].landlist, h'.whichJoint).Some? {
          assert rest[k] == steps[k + 1];
        }
      }
      AddFramesRewarpsHistory(h', rest, cb);
      var r := AddFrames(h, steps, cb).state;
      assert r == AddFrames(h', rest, cb).state;
      forall i | 0 <= i < |h.track|
        ensures r.track[i] == WarpThrough(h.track[i], steps, cb.warp)
      {
        assert h'.track[i] == cb.warp(steps[0].M, h.track[i]);
      }
      forall k | 0 <= k < |steps|
        ensures r.track[|h.track| + k]
          == WarpThrough(cb.lookup(steps[k].landlist, h.whichJoint).value.0, steps[k + 1..], cb.warp)
        ensures r.visibility[|h.visibility| + k] == cb.lookup(steps[k].landlist, h.whichJoint).value.1
      {
        if k > 0 {
          assert rest[k - 1] == steps[k];
          assert rest[k..] == steps[k + 1..];
        }
      }
    }
  }
}
