/**
 The sidecar's result vocabulary: what an operation on one record can come back with, how an HTTP
 status is turned into such a result, and how a result is spelled on the answer line.
 */
module Outcomes {

  /** `crate::Result<()>` of the sidecar, with the error texts left out. */
  datatype Outcome =
    | Ok            // the service has it
    | Rejected      // nobody will ever accept it
    | Spooled       // later, not no
    | SpoolFull     // the spool is at its bound
    | Unreachable   // the read path only
    | Crypto        // sealing failed
    | Io            // filesystem or socket failure

  /** The vocabulary of the answer line. */
  datatype Status = AcceptedStatus | SpooledStatus | SpoolFullStatus | RejectedStatus | ErrorStatus

  function StatusOf(outcome: Outcome): Status {
    match outcome
    case Ok => AcceptedStatus
    case Spooled => SpooledStatus
    case SpoolFull => SpoolFullStatus
    case Rejected => RejectedStatus
    case _ => ErrorStatus
  }

  /** What one attempt at a record can run into. */
  datatype Attempt =
    | Corrupt                 // the spool entry does not unframe
    | NoCredential            // no signing key for the agent
    | NoEndpoint              // the base URL names no host
    | NoConnection            // connect or handshake failed
    | NoRequest               // the request could not be built
    | NoResponse              // the send failed
    | TimedOut                // the attempt ran out of time
    | Answered(status: nat)   // the service, or something in front of it, answered

  function Classify(status: nat): Outcome {
    if 200 <= status < 300 then Ok
    else if status == 429 || 500 <= status < 600 then Spooled
    else Rejected
  }

  /** The verdict an attempt comes to. */
  function VerdictOf(attempt: Attempt): Outcome {
    match attempt
    case Corrupt => Rejected
    case NoCredential => Rejected
    case NoEndpoint => Rejected
    case NoConnection => Spooled
    case NoRequest => Rejected
    case NoResponse => Spooled
    case TimedOut => Spooled
    case Answered(status) => Classify(status)
  }

  /** The results after which the drain removes an entry. */
  predicate IsFinal(outcome: Outcome) {
    outcome == Ok || outcome == Rejected
  }

  /** The service, or something in front of it, said no for good. */
  predicate IsRefusal(attempt: Attempt) {
    attempt.Answered? && VerdictOf(attempt) == Rejected
  }
}
