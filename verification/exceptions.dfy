/**
  The Python exceptions the modelled code raises or lets through, and the
  shape of a call that may raise after it has already changed some state.
 */
module Exceptions {

  datatype Error =
      /** `ValueError(message)`, raised by the homography match-count gate. */
    | ValueError(message: string)
      /** `KeyError(key)`, a dict subscription with a missing joint name. */
    | KeyError(key: string)
      /**
        `IndexError`: a keypoint index outside the keypoint tuple, or the
        column `[:, 0]` of the one-dimensional empty array an empty landmark
        list gives.
       */
    | IndexError
      /** `ZeroDivisionError`, the frame counter taken modulo zero. */
    | ZeroDivisionError
      /** The joint lookup of a landmark list failed for this joint. */
    | JointLookupError(joint: string)

  /**
    The state an object is left in by a call, and the exception the call
    raised, if any. Python attributes assigned before a `raise` stay assigned,
    so a raising call still has a resulting state.
   */
  datatype Outcome<+S> = Returned(state: S) | Raised(state: S, error: Error)
}
