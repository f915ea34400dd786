# climbing-wire: joint trajectory accumulation, modelled in Dafny

This project models how climbing-wire builds joint trajectories for a climber
from video. Frames are read from a capture. Each pair of consecutive frames
gets a homography, which is computed only when enough SIFT/FLANN matches
survive Lowe's ratio test. The pose detector runs on the newer frame. If it
finds a person, the history of each name in the module-level `JOINT_NAMES`,
in order, is re-expressed in the new frame's coordinates and then gets the
joint's new position. A history whose name is not in `JOINT_NAMES` is never
advanced, and the walk can stop partway, as the two behaviours below and
"## Findings" describe. The per-frame landmark
list turns normalised landmarks into clipped pixel positions and marks each
landmark as drawable or not.

Modules, one per source file:

- `Wrappers` (`wrappers.dfy`) and `Exceptions` (`exceptions.dfy`) hold
  `Option`, `Result`, the Python exceptions involved, and `Outcome`. An
  `Outcome` is the state an object is left in by a call, together with the
  exception the call raised, if any. Python keeps attribute assignments made
  before a `raise`.
- `Geometry` (`geometry.dfy`) holds points, pixels, the homography matrix and
  the pointwise warp of a point batch.
- `MediapipeUtils` (`mediapipe_utils.dfy`) models `utils/mediapipe.py`.
- `LandmarkLists` (`landmark_list.dfy`) models `landmark/landmark_list.py`.
- `Homography` (`homography.dfy`) models the match gate of
  `homography/homography.py`.
- `JointHists` (`joint_hist.dfy`) models `joint_tracker/joint_hist.py`.
- `JointTrackers` (`joint_tracker.dfy`) models
  `joint_tracker/joint_tracker.py`.
- `VideoLoad` (`video_load.dfy`) models the frame sequencing of
  `video/load.py`.

Some names the code uses are not defined in the modelled files. Each one
becomes a parameter, as a function-valued field of a collaborator datatype:

- `perspective_transform` becomes `Geometry.Warp`. The batch map built on it
  is pointwise, in order and length-preserving.
- `get_landmark_for_joint` becomes `JointHists.JointLookup`, which may fail.
- `PoseImg` becomes `Env.detect`, which returns `Option<LandmarkListImg>`.
- The module-level `JOINT_NAMES` becomes `Env.allJointNames`.
- SIFT detection plus FLANN matching become `Env.features`.
- RANSAC `findHomography` becomes `Homography.Fit`.

Images are an opaque type parameter. A video capture is a script of read
results (`seq<Option<F>>`). Reading stops at the first failed read or at the
end of the script. Timestamps are opaque.

Two behaviours of the code shape the model:

- `JointTracker.add_frame` advances the histories one at a time
  (`joint_tracker/joint_tracker.py:60-61`). A `KeyError`, or a failing joint
  lookup, therefore leaves earlier histories advanced and later ones not. A
  failing lookup also leaves its own track already warped
  (`joint_tracker/joint_hist.py:36-42`).
- `LandmarkListImg.__init__` on an empty landmark list raises `IndexError`:
  the normalised points form a one-dimensional empty array, which has no
  column to take (`utils/mediapipe.py:25`).

## Model

| member | source | states |
|---|---|---|
| Geometry.PerspectiveTransform | src/climbing_wire/utils/cv.py:35-52 | the warped batch has one point per input point, each the warp of the input point at the same index; empty in, empty out |
| MediapipeUtils.ScaleDown | src/climbing_wire/utils/mediapipe.py:25-26 | the scaled coordinate is rounded down: the result is the integer v with v <= c * size < v + 1 |
| MediapipeUtils.ToPixelCoordinate | src/climbing_wire/utils/mediapipe.py:25-29 | unclipped, the result is the floor of c * size, even when that is negative or at least size; clipped with a positive size, it lies in [0, size - 1], is the floor for c in [0, 1), is 0 for c < 0 and is size - 1 for c >= 1 |
| MediapipeUtils.ToPixel | src/climbing_wire/utils/mediapipe.py:24-29 | the first component of the image size scales x (the width) and the second scales y |
| MediapipeUtils.NormalizedToPixelCoordinates | src/climbing_wire/utils/mediapipe.py:13-30 | one pixel per input point, in input order; with clipping and a positive width and height, every pixel lies inside [0, width - 1] x [0, height - 1] |
| MediapipeUtils.ToPixelRoundsDown | src/climbing_wire/utils/mediapipe.py:25-29 | 0.999 on width 10 gives pixel 9, clipped or not |
| MediapipeUtils.IsValidCoordinate | src/climbing_wire/utils/mediapipe.py:45-47 | the test "(c > 0 or isclose(c, 0)) and (c < 1 or isclose(c, 1))", with numpy's default tolerances, holds exactly on the closed interval [-1e-8, 1 + 1e-8 + 1e-5] |
| MediapipeUtils.IsValidCoordinateBoundaries | src/climbing_wire/utils/mediapipe.py:45-47 | exactly 0 and exactly 1 are valid; -0.1 and 1.1 are not |
| MediapipeUtils.AreValidNormalizedPoints | src/climbing_wire/utils/mediapipe.py:33-48 | one flag per point, set exactly when both coordinates lie in the tolerant interval |
| MediapipeUtils.GetSpecFromMap | src/climbing_wire/utils/mediapipe.py:51-58 | a single spec comes back unchanged for every key; a mapping gives its entry for the key, or a KeyError naming the key when the key is missing |
| LandmarkLists.NewLandmarkListNp | src/climbing_wire/landmark/landmark_list.py:20-40 | points and visibilities are parallel, in input order, and the length equals the number of input landmarks |
| LandmarkLists.LandmarkListNpRoundTrip | src/climbing_wire/landmark/landmark_list.py:30-36 | zipping the two arrays back gives the input landmarks |
| LandmarkLists.NewLandmarkListImg | src/climbing_wire/landmark/landmark_list.py:46-75 | an empty landmark list raises IndexError and a non-empty one never raises; the image shape and threshold are stored as given; all four arrays have the input length; the pixels are the clipped conversion and lie inside a positive-size image; drawable holds exactly when visibility > threshold and both coordinates are in the tolerant unit interval |
| LandmarkLists.DrawableThresholdIsStrict | src/climbing_wire/landmark/landmark_list.py:74-75 | visibility equal to the threshold is never drawable; any visibility above it is drawable for a point in the unit square |
| LandmarkLists.OutsideIsClampedButNotDrawable | src/climbing_wire/landmark/landmark_list.py:68-75 | a landmark with x or y beyond the tolerance is not drawable whatever its visibility, yet both of its pixel coordinates are clamped into the image |
| LandmarkLists.EmptyListRaises | src/climbing_wire/utils/mediapipe.py:25 | building the image landmark list from no landmarks raises IndexError |
| LandmarkLists.LenCountsLandmarks | src/climbing_wire/landmark/landmark_list.py:38-40 | the length of a landmark list, plain or on an image, is the number of landmarks it was built from |
| LandmarkLists.CentreOfHundredSquare | src/climbing_wire/landmark/landmark_list.py:64-75 | (0.5, 0.5) at visibility 0.9 on a 100 x 100 image with the default threshold 0.5 is pixel (50, 50) and drawable |
| Homography.GoodMatches | src/climbing_wire/homography/homography.py:40-44 | never more good matches than pairs; every good match is the nearest match of a pair that passes m.distance < 0.7 * n.distance, and every passing pair's nearest match is kept |
| Homography.GoodMatchesAppend | src/climbing_wire/homography/homography.py:41-44 | filtering two runs of pairs in a row gives the two filtered runs in a row, so good matches keep the order of their pairs |
| Homography.GoodMatchesSingle | src/climbing_wire/homography/homography.py:43-44 | one pair is kept exactly when m.distance < 0.7 * n.distance; equality is rejected |
| Homography.FilterGoodMatches | src/climbing_wire/homography/homography.py:41-44 | the ratio-test loop computes exactly the good matches |
| Homography.MatchedPoints | src/climbing_wire/homography/homography.py:50-53 | one point per good match, each the keypoint at the match's query (or train) index |
| Homography.ComputeHomography | src/climbing_wire/homography/homography.py:17-60 | ValueError("Not enough matches found.") exactly when there are at most 10 good matches; a homography exactly when there are more than 10 good matches with valid indices; IndexError when there are more than 10 good matches and one of them has a keypoint index out of range; it is then the fit of source and destination points paired index by index through queryIdx and trainIdx |
| Homography.TenGoodMatchesAreRejected | src/climbing_wire/homography/homography.py:47-58 | exactly 10 good matches raise the ValueError |
| JointHists.NewJointHist | src/climbing_wire/joint_tracker/joint_hist.py:16-25 | a new history follows the given joint and has empty track and visibility |
| JointHists.AddFrame | src/climbing_wire/joint_tracker/joint_hist.py:27-42 | the joint never changes; the old track is warped pointwise and in order; on a successful lookup, exactly one unwarped position and its visibility are appended and earlier visibilities are kept; on a failed lookup, the track stays warped, nothing is appended and the error is raised; equal track and visibility lengths are preserved either way |
| JointHists.LenCountsAcceptedFrames | src/climbing_wire/joint_tracker/joint_hist.py:36-46 | the length of a history is 0 when new and grows by one per add_frame that returns, never by more; it grows by the number of frames offered exactly when none of them raised |
| JointHists.AddFramesRewarpsHistory | src/climbing_wire/joint_tracker/joint_hist.py:36-42 | after k successful frames the history is k longer; an old entry has been carried through every homography, and the entry added at frame j only through those of later frames; visibilities are only appended |
| JointTrackers.NewJointTracker | src/climbing_wire/joint_tracker/joint_tracker.py:25-36 | exactly one empty history per given name, each following its own name |
| JointTrackers.AddFrameAll | src/climbing_wire/joint_tracker/joint_tracker.py:54-61 | the key set never changes and histories not walked are untouched; a raise is a KeyError for a walked name without a history, or a failed lookup of a walked history |
| JointTrackers.AddFrameAllAdvancesEach | src/climbing_wire/joint_tracker/joint_tracker.py:60-61 | with distinct names that all have histories and lookups that succeed, every walked history advances by exactly one add_frame with the same landmark list and homography |
| JointTrackers.AddFrameAllStopsAtMissingName | src/climbing_wire/joint_tracker/joint_tracker.py:60-61 | when the first name without a history comes after distinct names whose lookups succeed, the loop raises KeyError for that name, the earlier histories have advanced by one add_frame each and every other history is untouched |
| JointTrackers.AddFrameAllStopsAtFailedLookup | src/climbing_wire/joint_tracker/joint_tracker.py:60-61 | when a present name's lookup fails after distinct names whose lookups succeed, the loop raises that lookup error; the earlier histories have advanced by one add_frame each, the failing one is warped with nothing appended, and every other history is untouched |
| JointTrackers.ProcessFramePair | src/climbing_wire/joint_tracker/joint_tracker.py:41-52 | a failed homography raises with the tracker unchanged and no detection recorded; otherwise M and the detection on frame2 are recorded; no detection leaves every history unchanged; a detection advances the histories of the module-level joint names and raises exactly the exception that loop raises |
| JointTrackers.NewJointTrackerAligned | src/climbing_wire/joint_tracker/joint_tracker.py:27-36 | with the default names, the new tracker has one history per name, all of length 0 |
| JointTrackers.ProcessFramePairKeepsAligned | src/climbing_wire/joint_tracker/joint_tracker.py:41-61 | with default distinct names and lookups that never fail, a call raises only on a failed homography; all histories advance together by one exactly when there is a homography and a detection, and otherwise stay as they were |
| JointTrackers.ProcessPairsAligned | src/climbing_wire/joint_tracker/joint_tracker.py:41-61 | after any sequence of calls, all histories have equal length: the number of pairs with a homography and a detection |
| JointTrackers.MissingNameRaisesAfterAdvancing | src/climbing_wire/joint_tracker/joint_tracker.py:31-61 | a tracker built with only "left_hand", where the module-level names also include "right_hand", given a frame pair with a homography and a detection and lookups that never fail for the module-level names, raises KeyError("right_hand") after advancing "left_hand" |
| JointTrackers.ProcessFramePairOwnNames | src/climbing_wire/joint_tracker/joint_tracker.py:41-61 | walking the tracker's own names never raises KeyError, keeps the key set, and leaves the tracker unchanged on a failed homography |
| JointTrackers.ProcessFramePairOwnNamesKeepsAligned | src/climbing_wire/joint_tracker/joint_tracker.py:31-61 | walking its own names, with joint lookups that never fail for those names, a tracker built with any distinct names keeps all its histories at one common length, advancing by one per homography with a detection |
| JointTrackers.OwnNamesAgreeUnderDefault | src/climbing_wire/joint_tracker/joint_tracker.py:27 | with the default names, the corrected call and the call as written agree |
| VideoLoad.ReadUntilFailure | src/climbing_wire/video/load.py:132-137 | the frames are the reads before the first failed read, in order; the next read, if any, failed |
| VideoLoad.IterateVideoFrames | src/climbing_wire/video/load.py:39-96 | yields every frame read before the first failed read, in order; with a positive interval, the count-th read (the failing one too) is preceded by a seek to count * interval; otherwise there are no seeks |
| VideoLoad.ModIsDivisibility | src/climbing_wire/video/load.py:144 | count % n == 0 is divisibility of count by abs(n) for any nonzero n, negative ones included; Python's floored % and the model's Euclidean % differ in the remainder for negative n but agree on whether it is 0 |
| VideoLoad.IterateVideoFramesWithTimestamp | src/climbing_wire/video/load.py:104-148 | for nonzero n, k frames read give ceil(k / abs(n)) yields, the j-th being read j * abs(n), in read order; n = 0 raises ZeroDivisionError at the first successful read and yields nothing |
| VideoLoad.Pairwise | src/climbing_wire/video/load.py:25 | k frames give max(k - 1, 0) pairs, the i-th being frames i and i + 1 |
| VideoLoad.PairwiseRoundTrip | src/climbing_wire/video/load.py:25 | with at least two frames, the first frame followed by every pair's second frame gives the frames back |
| VideoLoad.PairwiseVideoFrames | src/climbing_wire/video/load.py:15-25 | pairs consecutive frames of the read loop run with the same msec_interval (default 0): max(k - 1, 0) pairs, pair i being reads i and i + 1, and the seeks are those of that read loop |

## Findings

| source | as written | input that shows it | evidently intended | confidence | as-written member | corrected member |
|---|---|---|---|---|---|---|
| src/climbing_wire/joint_tracker/joint_tracker.py:60-61 | `add_frame` walks the module-level `JOINT_NAMES`, although the histories are keyed by the constructor's `joint_names` | `JointTracker(joint_names=("left_hand",))` where `JOINT_NAMES == ("left_hand", "right_hand")`, then a frame pair with a homography and a detection: KeyError("right_hand") after "left_hand" has advanced | walk the tracker's own `joint_names`, so that a tracker built with any distinct names advances all its histories together whenever its joint lookups succeed | medium, not executed | JointTrackers.MissingNameRaisesAfterAdvancing | JointTrackers.ProcessFramePairOwnNamesKeepsAligned |

The corrected call (`JointTrackers.ProcessFramePairOwnNames`) agrees with the
call as written whenever the tracker uses the default names
(`JointTrackers.OwnNamesAgreeUnderDefault`). The rest of the model, including
`JointTrackers.ProcessPairs`, keeps the code's behaviour.

## Left out

- Feature detection and matching (SIFT, FLANN) and the RANSAC fit are
  collaborators (`Env.features`, `Homography.Fit`), and both are total here:
  their failure modes are OpenCV's, outside the modelled files. So FLANN
  raising on a frame without descriptors is not modelled, nor is
  `cv.findHomography` returning `None`, which `process_frame_pair` would
  store as `M` and hand to the warp (`joint_tracker/joint_tracker.py:47`,
  line 52). A kNN result with fewer than two neighbours, which would make the
  `for m, n` unpacking fail, is not modelled either: each entry is a pair.
- The point warp is not defined in the modelled files. It is a parameter, so
  perspective division, zero denominators and float rounding are not
  modelled.
- Pose inference (`PoseImg`, MediaPipe) and the joint lookup are parameters.
  `Env.detect` makes the detection a function of the frame alone, whereas the
  detector keeps tracking state from one call to the next; that state is not
  modelled. MediaPipe Pose yields 33 landmarks per detection, so the empty
  landmark list (`LandmarkLists.EmptyListRaises`) does not arise from it.
  The lookup's own exception class is unknown, so the model uses
  `JointLookupError`.
- Floating point is modelled as real arithmetic. NaN and infinities are not
  modelled, and float32/float64 rounding of `0.7 * n.distance` is ignored.
- MediapipeUtils.ScaleDown: `astype(int)` of a float beyond the 64-bit range
  gives a platform-dependent value (INT64_MIN on x86-64, a saturated value on
  ARM). The model uses unbounded integers, so such inputs keep their floor.
- `img_shape`'s axis order is kept as the code uses it (first component =
  width). The drawing code's comparison with `image.shape[:2]` is not part of
  this model.
- VideoCapture details are not modelled: handle release, FPS and frame-count
  queries, the `pos_msec` to microseconds truncation, and how a seek changes
  what the next read returns. The seeks are recorded as targets only, and
  the capture script says what the reads return.
- `first_video_frame` is left out. It returns the first pixel row of the
  first frame and depends on ndarray indexing.
- The `Frame` dataclass, rendering and plotting (`landmark/drawing.py`,
  `cv_imshow`, `show_frame`, `show_warp`) and the filesystem helpers
  (`imread_fol`, `get_package_fol`) are left out: they are glue, UI or I/O.
- Logging (loguru warnings) is left out.
- JointTrackers.ProcessFramePairKeepsAligned,
  JointTrackers.ProcessPairsAligned and
  JointTrackers.ProcessFramePairOwnNamesKeepsAligned assume distinct joint
  names and lookups that never fail for them. With repeated names, or a
  lookup that fails partway, the histories do drift apart, in the corrected
  call too (see `JointTrackers.AddFrameAllStopsAtFailedLookup`).
