/**
  The tracker: a fixed map from joint name to history, advanced once per
  processed frame pair by the homography between the two frames and the
  landmarks detected in the newer one.
 */
module JointTrackers {
  import opened Wrappers
  import opened Geometry
  import opened Exceptions
  import opened LandmarkLists
  import opened Homography
  import opened JointHists

  /** An instance attribute that is either not assigned yet or holds a value. */
  datatype Attr<+T> = Unset | Set(value: T)

  /**
    Everything the tracker calls that is not part of this model: feature
    detection and matching of a frame pair, the robust homography fit, the
    pose detector, the history collaborators, and the module-level tuple of
    all joint names that `add_frame` walks.
   */
  datatype Env<-Img> = Env(
    features: (Img, Img) -> FeatureMatches,
    fit: Fit,
    detect: Img -> Option<LandmarkListImg>,
    hist: Collaborators,
    allJointNames: seq<JointName>)

  /**
    `JointTracker`: the joint names it was built with, one history per name,
    and the last homography (`self.M`) and detection (`self.landlist`).
   */
  datatype JointTracker = JointTracker(
    jointNames: seq<JointName>,
    jointHists: map<JointName, JointHist>,
    M: Attr<HomographyMatrix>,
    landlist: Attr<Option<LandmarkListImg>>)

  /**
    `JointTracker.__init__`: one empty history per given name, following
    that name; `M` and `landlist` are not assigned yet.
   */
  function NewJointTracker(jointNames: seq<JointName>): (t: JointTracker)
    ensures t.jointNames == jointNames
    ensures forall n :: n in t.jointHists <==> n in jointNames
    ensures forall n :: n in t.jointHists ==>
      t.jointHists[n].whichJoint == n && t.jointHists[n].Len() == 0 && |t.jointHists[n].visibility| == 0
    ensures t.M.Unset? && t.landlist.Unset?
  {
    JointTracker(jointNames, map n | n in jointNames :: NewJointHist(n), Unset, Unset)
  }

  /**
    The loop of `JointTracker.add_frame`: the histories of `names`, one after
    the other, each advanced by `JointHist.add_frame`. A name without a
    history raises `KeyError` and a failing lookup raises too; histories
    advanced before that stay advanced. The key set never changes.
   */
  function AddFrameAll(
    hists: map<JointName, JointHist>, names: seq<JointName>,
    landlist: LandmarkListImg, M: HomographyMatrix, cb: Collaborators)
    : (r: Outcome<map<JointName, JointHist>>)
    ensures r.state.Keys == hists.Keys
    ensures forall n :: n in hists && n !in names ==> r.state[n] == hists[n]
    ensures forall n :: n in hists ==> r.state[n].whichJoint == hists[n].whichJoint
    ensures (forall n :: n in hists ==> hists[n].Parallel()) ==>
      forall n :: n in r.state ==> r.state[n].Parallel()
    ensures r.Returned? ==> forall n :: n in names ==> n in hists
    ensures r.Raised? ==>
      (exists n :: n in names && n !in hists && r.error == KeyError(n))
      || (exists n :: n in names && n in hists && r.error == JointLookupError(hists[n].whichJoint))
    decreases |names|
  {
    if |names| == 0 then Returned(hists)
    else if names[0] !in hists then Raised(hists, KeyError(names[0]))
    else
      match AddFrame(hists[names[0]], landlist, M, cb)
      case Raised(h', e) => Raised(hists[names[0] := h'], e)
      case Returned(h') => AddFrameAll(hists[names[0] := h'], names[1..], landlist, M, cb)
  }

  /** Whether a sequence of joint names has no repetition. */
  predicate Distinct(names: seq<JointName>)
  {
    forall i, j :: 0 <= i < j < |names| ==> names[i] != names[j]
  }

  /**
    When every name has a history and every lookup succeeds, every named
    history advances by exactly one `add_frame` with the same landmark list
    and homography; the others are untouched.
   */
  lemma {:induction false} AddFrameAllAdvancesEach(
    hists: map<JointName, JointHist>, names: seq<JointName>,
    landlist: LandmarkListImg, M: HomographyMatrix, cb: Collaborators)
    requires Distinct(names)
    requires forall n :: n in names ==> n in hists && cb.lookup(landlist, hists[n].whichJoint).Some?
    ensures AddFrameAll(hists, names, landlist, M, cb).Returned?
    ensures forall n :: n in names ==>
      AddFrameAll(hists, names, landlist, M, cb).state[n] == AddFrame(hists[n], landlist, M, cb).state
    decreases |names|
  {
    if |names| > 0 {
      var n0 := names[0];
      var hists' := hists[n0 := AddFrame(hists[n0], landlist, M, cb).state];
      var rest := names[1..];
      assert Distinct(rest) by {
        forall i, j | 0 <= i < j < |rest| ensures rest[i] != rest[j] {
          assert rest[i] == names[i + 1] && rest[j] == names[j + 1];
        }
      }
      forall n | n in rest ensures n != n0 && n in hists' && hists'[n] == hists[n] {
        var k :| 0 <= k < |rest| && rest[k] == n;
        assert names[k + 1] == n;
      }
      AddFrameAllAdvancesEach(hists', rest, landlist, M, cb);
      forall n | n in names
        ensures AddFrameAll(hists, names, landlist, M, cb).state[n] == AddFrame(hists[n], landlist, M, cb).state
      {
        if n != n0 {
          assert n in rest;
        }
      }
    }
  }

  /**
    A name without a history stops the loop with `KeyError` for that name:
    the histories of the names before it, all present and all looked up
    successfully, have advanced by one `add_frame` each, and every other
    history, including those of the names after it, is untouched.
   */
  lemma {:induction false} AddFrameAllStopsAtMissingName(
    hists: map<JointName, JointHist>, pre: seq<JointName>, k: JointName, post: seq<JointName>,
    landlist: LandmarkListImg, M: HomographyMatrix, cb: Collaborators)
    requires Distinct(pre)
    requires forall n :: n in pre ==> n in hists && cb.lookup(landlist, hists[n].whichJoint).Some?
    requires k !in hists
    ensures AddFrameAll(hists, pre + [k] + post, landlist, M, cb).Raised?
    ensures AddFrameAll(hists, pre + [k] + post, landlist, M, cb).error == KeyError(k)
    ensures forall n :: n in pre ==>
      AddFrameAll(hists, pre + [k] + post, landlist, M, cb).state[n] == AddFrame(hists[n], landlist, M, cb).state
    ensures forall n :: n in hists && n !in pre ==>
      AddFrameAll(hists, pre + [k] + post, landlist, M, cb).state[n] == hists[n]
    decreases |pre|
  {
    if |pre| == 0 {
      assert pre + [k] + post == [k] + post;
    } else {
      var n0 := pre[0];
      var hists' := hists[n0 := AddFrame(hists[n0], landlist, M, cb).state];
      var rest := pre[1..];
      assert (pre + [k] + post)[1..] == rest + [k] + post;
      assert Distinct(rest) by {
        forall i, j | 0 <= i < j < |rest| ensures rest[i] != rest[j] {
          assert rest[i] == pre[i + 1] && rest[j] == pre[j + 1];
        }
      }
      forall n | n in rest ensures n != n0 && n in hists' && hists'[n] == hists[n] {
        var i :| 0 <= i < |rest| && rest[i] == n;
        assert pre[i + 1] == n;
      }
      AddFrameAllStopsAtMissingName(hists', rest, k, post, landlist, M, cb);
      var r := AddFrameAll(hists, pre + [k] + post, landlist, M, cb);
      assert r == AddFrameAll(hists', rest + [k] + post, landlist, M, cb);
      forall n | n in pre ensures r.state[n] == AddFrame(hists[n], landlist, M, cb).state {
        if n != n0 {
          assert n in rest;
        }
      }
    }
  }

  /**
    A lookup that fails partway stops the loop with the lookup error: the
    histories of the names before it have advanced by one `add_frame` each,
    the failing history is warped with nothing appended, and every other
    history, including those of the names after it, is untouched.
   */
  lemma {:induction false} AddFrameAllStopsAtFailedLookup(
    hists: map<JointName, JointHist>, pre: seq<JointName>, k: JointName, post: seq<JointName>,
    landlist: LandmarkListImg, M: HomographyMatrix, cb: Collaborators)
    requires Distinct(pre)
    requires forall n :: n in pre ==> n in hists && cb.lookup(landlist, hists[n].whichJoint).Some?
    requires k in hists && k !in pre && cb.lookup(landlist, hists[k].whichJoint).None?
    ensures AddFrameAll(hists, pre + [k] + post, landlist, M, cb).Raised?
    ensures AddFrameAll(hists, pre + [k] + post, landlist, M, cb).error == JointLookupError(hists[k].whichJoint)
    ensures forall n :: n in pre ==>
      AddFrameAll(hists, pre + [k] + post, landlist, M, cb).state[n] == AddFrame(hists[n], landlist, M, cb).state
    ensures AddFrameAll(hists, pre + [k] + post, landlist, M, cb).state[k].track
         == PerspectiveTransform(hists[k].track, M, cb.warp)
    ensures AddFrameAll(hists, pre + [k] + post, landlist, M, cb).state[k].visibility == hists[k].visibility
    ensures forall n :: n in hists && n !in pre && n != k ==>
      AddFrameAll(hists, pre + [k] + post, landlist, M, cb).state[n] == hists[n]
    decreases |pre|
  {
    if |pre| == 0 {
      assert pre + [k] + post == [k] + post;
    } else {
      var n0 := pre[0];
      var hists' := hists[n0 := AddFrame(hists[n0], landlist, M, cb).state];
      var rest := pre[1..];
      assert (pre + [k] + post)[1..] == rest + [k] + post;
      assert Distinct(rest) by {
        forall i, j | 0 <= i < j < |rest| ensures rest[i] != rest[j] {
          assert rest[i] == pre[i + 1] && rest[j] == pre[j + 1];
        }
      }
      forall n | n in rest ensures n != n0 && n in hists' && hists'[n] == hists[n] {
        var i :| 0 <= i < |rest| && rest[i] == n;
        assert pre[i + 1] == n;
      }
      assert k != n0 && hists'[k] == hists[k];
      AddFrameAllStopsAtFailedLookup(hists', rest, k, post, landlist, M, cb);
      var r := AddFrameAll(hists, pre + [k] + post, landlist, M, cb);
      assert r == AddFrameAll(hists', rest + [k] + post, landlist, M, cb);
      forall n | n in pre ensures r.state[n] == AddFrame(hists[n], landlist, M, cb).state {
        if n != n0 {
          assert n in rest;
        }
      }
    }
  }

  /**
    `JointTracker.process_frame_pair`: the homography from `frame1` to
    `frame2` is computed first and its failure propagates with nothing
    changed; otherwise `M` and the detection on `frame2` are recorded, and a
    found landmark list advances the histories of all joint names.
   */
  function ProcessFramePair<Img>(t: JointTracker, frame1: Img, frame2: Img, env: Env<Img>)
    : (r: Outcome<JointTracker>)
    ensures r.state.jointNames == t.jointNames
    ensures r.state.jointHists.Keys == t.jointHists.Keys
    ensures ComputeHomography(env.features(frame1, frame2), env.fit).Failure? ==>
      r == Raised(t, ComputeHomography(env.features(frame1, frame2), env.fit).error)
    ensures ComputeHomography(env.features(frame1, frame2), env.fit).Success? ==>
      && r.state.M == Set(ComputeHomography(env.features(frame1, frame2), env.fit).value)
      && r.state.landlist == Set(env.detect(frame2))
    ensures ComputeHomography(env.features(frame1, frame2), env.fit).Success? && env.detect(frame2).None? ==>
      r.Returned? && r.state.jointHists == t.jointHists
    ensures ComputeHomography(env.features(frame1, frame2), env.fit).Success? && env.detect(frame2).Some? ==>
      var out := AddFrameAll(t.jointHists, env.allJointNames, env.detect(frame2).value,
                             ComputeHomography(env.features(frame1, frame2), env.fit).value, env.hist);
      && r.Returned? == out.Returned?
      && r.state.jointHists == out.state
      && (r.Raised? ==> r.error == out.error)
  {
    match ComputeHomography(env.features(frame1, frame2), env.fit)
    case Failure(e) => Raised(t, e)
    case Success(M) =>
      var landlist := env.detect(frame2);
      var t' := t.(M := Set(M), landlist := Set(landlist));
      match landlist
      case None => Returned(t')
      case Some(ll) =>
        match AddFrameAll(t'.jointHists, env.allJointNames, ll, M, env.hist)
        case Returned(hists) => Returned(t'.(jointHists := hists))
        case Raised(hists, e) => Raised(t'.(jointHists := hists), e)
  }

  /** Whether `t.jointHists[n]` is a history for `n` with parallel arrays of length `len`. */
  predicate HistsAligned(hists: map<JointName, JointHist>, len: nat)
  {
    forall n :: n in hists ==>
      hists[n].whichJoint == n && hists[n].Parallel() && hists[n].Len() == len
  }

  /**
    The tracker invariant under the default joint names: one history per
    name of `names`, every history following its own name, all of the same
    length `len`.
   */
  ghost predicate Aligned(t: JointTracker, names: seq<JointName>, len: nat)
  {
    (forall n :: n in t.jointHists <==> n in names) && HistsAligned(t.jointHists, len)
  }

  /** Whether the joint lookup succeeds for every name of `names` on every landmark list. */
  ghost predicate LookupNeverFails(cb: Collaborators, names: seq<JointName>)
  {
    forall landlist, n :: n in names ==> cb.lookup(landlist, n).Some?
  }

  /** Whether a frame pair makes the tracker advance its histories. */
  predicate Advances<Img>(frame1: Img, frame2: Img, env: Env<Img>)
  {
    ComputeHomography(env.features(frame1, frame2), env.fit).Success? && env.detect(frame2).Some?
  }

  /** A tracker built with the default names is aligned at length zero. */
  lemma NewJointTrackerAligned(names: seq<JointName>)
    ensures Aligned(NewJointTracker(names), names, 0)
  {
  }

  /**
    One call keeps the tracker aligned, all histories advancing together by
    one when the homography succeeds and a person is found, and none
    otherwise (a raising homography included), provided the joint names
    are distinct and their lookups cannot fail.
   */
  lemma {:induction false} ProcessFramePairKeepsAligned<Img>(
    t: JointTracker, len: nat, frame1: Img, frame2: Img, env: Env<Img>)
    requires Distinct(env.allJointNames)
    requires LookupNeverFails(env.hist, env.allJointNames)
    requires Aligned(t, env.allJointNames, len)
    ensures ProcessFramePair(t, frame1, frame2, env).Returned? <==>
      ComputeHomography(env.features(frame1, frame2), env.fit).Success?
    ensures Aligned(ProcessFramePair(t, frame1, frame2, env).state, env.allJointNames,
                    if Advances(frame1, frame2, env) then len + 1 else len)
  {
    if Advances(frame1, frame2, env) {
      var M := ComputeHomography(env.features(frame1, frame2), env.fit).value;
      var ll := env.detect(frame2).value;
      AddFrameAllAdvancesEach(t.jointHists, env.allJointNames, ll, M, env.hist);
    }
  }

  /**
    A caller that catches every exception and goes on with the next pair:
    the tracker after processing `pairs` in order.
   */
  function ProcessPairs<Img>(t: JointTracker, pairs: seq<(Img, Img)>, env: Env<Img>): JointTracker
    decreases |pairs|
  {
    if |pairs| == 0 then t
    else ProcessPairs(ProcessFramePair(t, pairs[0].0, pairs[0].1, env).state, pairs[1..], env)
  }

  /** How many of `pairs` make the tracker advance. */
  function CountAdvancing<Img>(pairs: seq<(Img, Img)>, env: Env<Img>): nat
    decreases |pairs|
  {
    if |pairs| == 0 then 0
    else (if Advances(pairs[0].0, pairs[0].1, env) then 1 else 0) + CountAdvancing(pairs[1..], env)
  }

  /**
    Equal advancement: after any sequence of calls, every history has the
    same length, namely the number of pairs with a homography and a
    detection.
   */
  lemma {:induction false} ProcessPairsAligned<Img>(t: JointTracker, len: nat, pairs: seq<(Img, Img)>, env: Env<Img>)
    requires Distinct(env.allJointNames)
    requires LookupNeverFails(env.hist, env.allJointNames)
    requires Aligned(t, env.allJointNames, len)
    ensures Aligned(ProcessPairs(t, pairs, env), env.allJointNames, len + CountAdvancing(pairs, env))
    decreases |pairs|
  {
    if |pairs| > 0 {
      var (f1, f2) := pairs[0];
      ProcessFramePairKeepsAligned(t, len, f1, f2, env);
      var len' := if Advances(f1, f2, env) then len + 1 else len;
      ProcessPairsAligned(ProcessFramePair(t, f1, f2, env).state, len', pairs[1..], env);
    }
  }

  /**
    A tracker built with fewer names than the module-level tuple: the call
    advances the history of the first name, then raises `KeyError` for the
    second name without undoing the first advance.
   */
  lemma MissingNameRaisesAfterAdvancing<Img>(frame1: Img, frame2: Img, env: Env<Img>)
    requires env.allJointNames == ["left_hand", "right_hand"]
    requires LookupNeverFails(env.hist, env.allJointNames)
    requires Advances(frame1, frame2, env)
    ensures
      var r := ProcessFramePair(NewJointTracker(["left_hand"]), frame1, frame2, env);
      && r.Raised? && r.error == KeyError("right_hand")
      && r.state.jointHists["left_hand"].Len() == 1
  {
    var t := NewJointTracker(["left_hand"]);
    assert "right_hand" !in t.jointHists;
  }

  /**
    `process_frame_pair` with the loop of `add_frame` walking the tracker's
    own joint names instead of the module-level tuple.
   */
  function ProcessFramePairOwnNames<Img>(t: JointTracker, frame1: Img, frame2: Img, env: Env<Img>)
    : (r: Outcome<JointTracker>)
    ensures r.state.jointNames == t.jointNames
    ensures r.state.jointHists.Keys == t.jointHists.Keys
    ensures ComputeHomography(env.features(frame1, frame2), env.fit).Failure? ==> r.state == t
    ensures (forall n :: n in t.jointNames ==> n in t.jointHists) && r.Raised? ==> !r.error.KeyError?
  {
    match ComputeHomography(env.features(frame1, frame2), env.fit)
    case Failure(e) => Raised(t, e)
    case Success(M) =>
      var landlist := env.detect(frame2);
      var t' := t.(M := Set(M), landlist := Set(landlist));
      match landlist
      case None => Returned(t')
      case Some(ll) =>
        match AddFrameAll(t'.jointHists, t.jointNames, ll, M, env.hist)
        case Returned(hists) => Returned(t'.(jointHists := hists))
        case Raised(hists, e) => Raised(t'.(jointHists := hists), e)
  }

  /** The tracker invariant for a tracker's own names. */
  ghost predicate AlignedOwn(t: JointTracker, len: nat)
  {
    (forall n :: n in t.jointHists <==> n in t.jointNames) && HistsAligned(t.jointHists, len)
  }

  /**
    With its own names walked, a tracker built with ANY distinct names keeps
    all of its histories advancing together, and only a failed homography
    raises.
   */
  lemma {:induction false} ProcessFramePairOwnNamesKeepsAligned<Img>(
    t: JointTracker, len: nat, frame1: Img, frame2: Img, env: Env<Img>)
    requires Distinct(t.jointNames)
    requires LookupNeverFails(env.hist, t.jointNames)
    requires AlignedOwn(t, len)
    ensures ProcessFramePairOwnNames(t, frame1, frame2, env).Returned? <==>
      ComputeHomography(env.features(frame1, frame2), env.fit).Success?
    ensures AlignedOwn(ProcessFramePairOwnNames(t, frame1, frame2, env).state,
                       if Advances(frame1, frame2, env) then len + 1 else len)
  {
    if Advances(frame1, frame2, env) {
      var M := ComputeHomography(env.features(frame1, frame2), env.fit).value;
      var ll := env.detect(frame2).value;
      AddFrameAllAdvancesEach(t.jointHists, t.jointNames, ll, M, env.hist);
    }
  }

  /** Under the default names the corrected call and the call as written agree. */
  lemma OwnNamesAgreeUnderDefault<Img>(t: JointTracker, frame1: Img, frame2: Img, env: Env<Img>)
    requires t.jointNames == env.allJointNames
    ensures ProcessFramePairOwnNames(t, frame1, frame2, env) == ProcessFramePair(t, frame1, frame2, env)
  {
  }
}
