/** The status vocabulary shared by server and runner, and the transition rule of the
    server's `SetStatus`. A status is a string on the wire, so besides the seven named
    statuses there are all the others; the zero value of a fresh runner-side job is `Other("")`. */
module TaskStatus {

  datatype Status =
    | Waiting
    | Starting
    | Running
    | Stopping
    | Stopped
    | Success
    | Error
    | Other(text: string)

  const BLANK := Other("")

  predicate IsFinished(s: Status) {
    s == Stopped || s == Success || s == Error
  }

  /** The status a task has after `SetStatus(next)` was called in status `prev`. The cases for
      success and error of the original switch are empty, so they do not absorb. */
  function NextStatus(prev: Status, next: Status): Status {
    if next == prev then prev
    else match prev
      case Running => if next == Waiting then prev else next
      case Stopping => if next == Waiting || next == Running then prev else next
      case Stopped => prev
      case _ => next
  }
}
