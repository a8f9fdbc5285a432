/**
 The refusal sentinels of the Relay unit and of the core it runs in.

 A Go error that wraps several sentinels answers errors.Is for each of them, so
 an error is the set of sentinels it wraps.
 */
module RelayErrors {
  datatype Sentinel =
    | ErrUnauthorized
    | ErrTransient
    | ErrProvider
    | ErrUnanswered
    | ErrForbidden
    | ErrInvalid
    | ErrNotFound
    | ErrSendOutcomeUnknown
    | ErrOther

  type Error = set<Sentinel>
}
