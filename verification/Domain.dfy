/** The job lifecycle table of domain.py: states, terminal states and legal transitions. */
module Domain {

  datatype JobStatus =
    | Queued
    | Planning
    | BrowserInitializing
    | Discovering
    | Extracting
    | Validating
    | ReadyForExport
    | Exporting
    | Completed
    | Failed
    | Cancelled

  predicate Terminal(s: JobStatus) { s == Completed || s == Failed || s == Cancelled }

  predicate Active(s: JobStatus) { !Terminal(s) && s != Queued }

  /** ALLOWED_TRANSITIONS. */
  predicate Allowed(from: JobStatus, to: JobStatus) {
    match from
    case Queued => to == Planning || to == Cancelled
    case Planning => to == BrowserInitializing || to == Failed || to == Cancelled
    case BrowserInitializing => to == Discovering || to == Failed || to == Cancelled
    case Discovering => to == Extracting || to == Failed || to == Cancelled
    case Extracting => to == Validating || to == Failed || to == Cancelled
    case Validating =>
      to == ReadyForExport || to == Exporting || to == Completed || to == Failed || to == Cancelled
    case ReadyForExport => to == Exporting || to == Cancelled
    case Exporting => to == Completed || to == Failed || to == Cancelled
    case Completed => false
    case Failed => false
    case Cancelled => false
  }

  /** The percentage a job shows while it is in a live stage, and when it completed. */
  function StagePercent(s: JobStatus): int {
    match s
    case Queued => 0
    case Planning => 10
    case BrowserInitializing => 20
    case Discovering => 30
    case Extracting => 40
    case Validating => 60
    case ReadyForExport => 80
    case Exporting => 80
    case Completed => 100
    case Failed => 0
    case Cancelled => 0
  }
}
