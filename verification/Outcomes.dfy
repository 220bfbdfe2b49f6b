/** Results of operations that may throw. */
module Outcomes {

  /** The reasons for which the modelled code throws, one per message. */
  datatype Error =
    | TooManyPoints
    | PacketTruncated
    | HeaderUnsupported
    | LengthMismatch
    | PointCountInvalid
    | ChecksumFailed
    | FlagsInvalid
    | SessionHeaderTruncated
    | SessionHeaderInvalid
    | SessionNotOpen
    | SessionAlreadyOpen
    | SessionInfoIncomplete
    | StreamFailed
    | NotAllowedInState
    | FramesInUse
    | PublishedPacketInvalid
    | ImageTooSmall
    | FpsNotPositive
    | GridInvalid
    | PoolTooSmall
    | DimensionsDiffer
    | RadiiInvalid
    | WindowOutsideImage
    | RefinementInvalid
    | CapacityNotPositive
    | StepNotPositive
    | StatusInvalid
    | DirectoryExists

  /** Either the value an operation returns or the exception it throws. */
  datatype Outcome<+T> = Done(value: T) | Threw(error: Error)

  /** How a call that takes several steps ended. */
  datatype CallOutcome = Returned | Thrown

  datatype Option<+T> = None | Some(value: T)
}
