/** The exit codes of the command line tools. */
module Exits {

  datatype Exit =
    | ExitOk | Failed | Usage | Config | Degraded | Unconfirmed | Incomplete
    | ExitSpooled | ExitRejected | ExitUnreachable

  function Code(exit: Exit): int {
    match exit
    case ExitOk => 0
    case Failed => 1
    case Usage => 2
    case Config => 3
    case Degraded => 4
    case Unconfirmed => 5
    case Incomplete => 6
    case ExitSpooled => 7
    case ExitRejected => 8
    case ExitUnreachable => 9
  }

  predicate IsSuccess(exit: Exit) {
    exit == ExitOk || exit == ExitSpooled
  }
}
