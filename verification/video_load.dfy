/**
  Frame sequencing: reading a capture until its first failed read, keeping
  every n-th frame, the seek targets of interval reading, and pairing
  consecutive frames. The capture is a script of read results.
 */
module VideoLoad {
  import opened Wrappers
  import opened Exceptions

  /**
    The frames a capture yields: the reads before its first failed one, in
    order. Reading past the end of the script fails.
   */
  function ReadUntilFailure<F>(capture: seq<Option<F>>): (frames: seq<F>)
    ensures |frames| <= |capture|
    ensures forall i :: 0 <= i < |frames| ==> capture[i] == Some(frames[i])
    ensures |frames| < |capture| ==> capture[|frames|].None?
    decreases |capture|
  {
    if |capture| == 0 || capture[0].None? then []
    else [capture[0].value] + ReadUntilFailure(capture[1..])
  }

  /**
    `iterate_video_frames`: reads until the first failed read, yielding each
    frame read. With a positive `msecInterval` every read, the failing one
    included, is preceded by a seek to `count * msecInterval`, `count` being
    the number of frames read so far; otherwise nothing is sought.
   */
  method IterateVideoFrames<F>(capture: seq<Option<F>>, msecInterval: int := 0)
    returns (frames: seq<F>, seeks: seq<int>)
    ensures frames == ReadUntilFailure(capture)
    ensures msecInterval > 0 ==>
      |seeks| == |frames| + 1 && forall c :: 0 <= c < |seeks| ==> seeks[c] == c * msecInterval
    ensures msecInterval <= 0 ==> seeks == []
  {
    frames := [];
    seeks := [];
    var count := 0;
    var success := true;
    while success
      invariant 0 <= count <= |capture|
      invariant |frames| == count
      invariant forall i :: 0 <= i < count ==> capture[i] == Some(frames[i])
      invariant msecInterval > 0 ==>
        |seeks| == count && forall c :: 0 <= c < |seeks| ==> seeks[c] == c * msecInterval
      invariant msecInterval <= 0 ==> seeks == []
      decreases |capture| - count
    {
      if msecInterval > 0 {
        seeks := seeks + [count * msecInterval];
      }
      success := count < |capture| && capture[count].Some?;
      if !success {
        break;
      }
      frames := frames + [capture[count].value];
      count := count + 1;
    }
    ReadUntilFailureIsPrefix(capture, frames);
  }

  /** Any run of successful reads ended by a failure (or by the end) is what the capture yields. */
  lemma ReadUntilFailureIsPrefix<F>(capture: seq<Option<F>>, frames: seq<F>)
    requires |frames| <= |capture|
    requires forall i :: 0 <= i < |frames| ==> capture[i] == Some(frames[i])
    requires |frames| < |capture| ==> capture[|frames|].None?
    ensures ReadUntilFailure(capture) == frames
  {
  }

  /** The magnitude of an integer, as a `nat` (the real-valued `Abs` of the pixel helpers is another type). */
  function Magnitude(n: int): nat { if n < 0 then -n else n }

  lemma MulAtLeast(d: nat, b: nat)
    requires d >= 1
    ensures d * b >= b
  {
  }

  /** Quotient and remainder are unique for the remainder range [0, |a|). */
  lemma DivModUnique(x: int, a: int, q: int, r: int)
    requires a != 0 && 0 <= r < Magnitude(a) && x == q * a + r
    ensures x / a == q && x % a == r
  {
    var q0, r0 := x / a, x % a;
    assert x == q0 * a + r0;
    assert (q - q0) * a == r0 - r;
    if q > q0 {
      MulAtLeast(q - q0, Magnitude(a));
    } else if q < q0 {
      MulAtLeast(q0 - q, Magnitude(a));
    }
  }

  /**
    Divisibility does not depend on the sign of the divisor. Python's `%`
    floors and Dafny's is Euclidean, so the two differ on remainders for a
    negative divisor, but both give 0 exactly when the divisor divides `c`;
    hence Python's `count % n == 0` is modelled by `c % n == 0` here, and is
    the same test as `c % |n| == 0`.
   */
  lemma ModIsDivisibility(c: int, n: int)
    requires n != 0
    ensures c % n == 0 <==> c % Magnitude(n) == 0
  {
    if c % n == 0 {
      DivModUnique(c, Magnitude(n), if n < 0 then -(c / n) else c / n, 0);
    }
    if c % Magnitude(n) == 0 {
      DivModUnique(c, n, if n < 0 then -(c / Magnitude(n)) else c / Magnitude(n), 0);
    }
  }

  /** How the number of multiples of `a` below `c` grows by one step of `c`. */
  lemma CeilDivStep(c: nat, a: int)
    requires a >= 1
    ensures (c + a) / a == (c + a - 1) / a + (if c % a == 0 then 1 else 0)
    ensures c % a == 0 ==> (c + a - 1) / a * a == c
  {
    var q, r := c / a, c % a;
    if r == 0 {
      DivModUnique(c + a - 1, a, q, a - 1);
      DivModUnique(c + a, a, q + 1, 0);
    } else {
      DivModUnique(c + a - 1, a, q + 1, r - 1);
      DivModUnique(c + a, a, q + 1, r);
    }
  }

  /**
    `iterate_video_frames_with_timestamp`: of the frames read before the
    first failed read, the one read as number `c` (from 0) is yielded with
    its timestamp exactly when `c % keepEveryNthFrame == 0`, in read order;
    so `k` frames read give `ceil(k / |n|)` yields, the `j`-th being read
    `j * |n|`. A zero `keepEveryNthFrame` raises `ZeroDivisionError` at the
    first successful read.
   */
  method IterateVideoFramesWithTimestamp<F, T>(capture: seq<Option<(F, T)>>, keepEveryNthFrame: int := 1)
    returns (r: Result<seq<(F, T)>, Error>)
    ensures keepEveryNthFrame == 0 ==>
      r == if |ReadUntilFailure(capture)| == 0 then Success([]) else Failure(ZeroDivisionError)
    ensures keepEveryNthFrame != 0 ==>
      var read := ReadUntilFailure(capture);
      var a := Magnitude(keepEveryNthFrame);
      && r.Success?
      && |r.value| == (|read| + a - 1) / a
      && forall j :: 0 <= j < |r.value| ==> j * a < |read| && r.value[j] == read[j * a]
  {
    var yielded := [];
    ghost var read := [];
    ghost var a := Magnitude(keepEveryNthFrame);
    var count := 0;
    var success := true;
    while success
      invariant 0 <= count <= |capture|
      invariant |read| == count
      invariant forall i :: 0 <= i < count ==> capture[i] == Some(read[i])
      invariant keepEveryNthFrame == 0 ==> count == 0 && yielded == []
      invariant keepEveryNthFrame != 0 ==>
        && |yielded| == (count + a - 1) / a
        && forall j :: 0 <= j < |yielded| ==> j * a < count && yielded[j] == read[j * a]
      decreases |capture| - count
    {
      success := count < |capture| && capture[count].Some?;
      if !success {
        break;
      }
      var frame := capture[count].value;
      if keepEveryNthFrame == 0 {
        return Failure(ZeroDivisionError);
      }
      ModIsDivisibility(count, keepEveryNthFrame);
      CeilDivStep(count, a);
      if count % keepEveryNthFrame == 0 {
        yielded := yielded + [frame];
      }
      read := read + [frame];
      count := count + 1;
    }
    ReadUntilFailureIsPrefix(capture, read);
    r := Success(yielded);
  }

  /** Python's `itertools.pairwise`: every element with its successor, in order. */
  function Pairwise<F>(xs: seq<F>): (ps: seq<(F, F)>)
    ensures |ps| == if |xs| == 0 then 0 else |xs| - 1
    ensures forall i :: 0 <= i < |ps| ==> ps[i] == (xs[i], xs[i + 1])
    decreases |xs|
  {
    if |xs| < 2 then [] else [(xs[0], xs[1])] + Pairwise(xs[1..])
  }

  /** The frames a sequence of pairs chains through: the first one, then every second element. */
  function Unpair<F>(ps: seq<(F, F)>): (xs: seq<F>)
    requires |ps| > 0
  {
    [ps[0].0] + seq(|ps|, i requires 0 <= i < |ps| => ps[i].1)
  }

  /** Pairing loses nothing once there are two frames: the pairs give the frames back. */
  lemma PairwiseRoundTrip<F>(xs: seq<F>)
    requires |xs| >= 2
    ensures Unpair(Pairwise(xs)) == xs
  {
  }

  /**
    `pairwise_video_frames`: consecutive frames of `iterate_video_frames`,
    read with the same `msecInterval`, as pairs, so `k` frames read give
    `max(k - 1, 0)` pairs; the seeks issued are those of the underlying read.
   */
  method PairwiseVideoFrames<F>(capture: seq<Option<F>>, msecInterval: int := 0)
    returns (ps: seq<(F, F)>, seeks: seq<int>)
    ensures |ps| == if |ReadUntilFailure(capture)| == 0 then 0 else |ReadUntilFailure(capture)| - 1
    ensures forall i :: 0 <= i < |ps| ==> capture[i] == Some(ps[i].0)
    ensures forall i :: 0 <= i < |ps| ==> capture[i + 1] == Some(ps[i].1)
    ensures msecInterval > 0 ==>
      |seeks| == |ReadUntilFailure(capture)| + 1 && forall c :: 0 <= c < |seeks| ==> seeks[c] == c * msecInterval
    ensures msecInterval <= 0 ==> seeks == []
  {
    var frames;
    frames, seeks := IterateVideoFrames(capture, msecInterval);
    PairsAreConsecutiveReads(capture);
    ps := Pairwise(frames);
  }

  /** Pair `i` of the frames read is made of reads `i` and `i + 1`. */
  lemma PairsAreConsecutiveReads<F>(capture: seq<Option<F>>)
    ensures forall i :: 0 <= i < |Pairwise(ReadUntilFailure(capture))| ==>
      && capture[i] == Some(Pairwise(ReadUntilFailure(capture))[i].0)
      && capture[i + 1] == Some(Pairwise(ReadUntilFailure(capture))[i].1)
  {
  }
}
