/**
 * The per-track status events a download emits through its status callback:
 * one variant per `TrackStatus`, carrying what the callback's `args`
 * dictionary carries for that status.
 */
module Status {

  datatype MessageSeverity = DEBUG | WARNING | ERROR

  /** The final state of one track. `DRY` exists but no code path produces it. */
  datatype DoneStatus = CACHED | SUCCESS | ERROR | DRY

  datatype StatusEvent =
    | Start                                           // TrackStatus.START, {}
    | Searching                                       // TrackStatus.SEARCHING, {}
    | Downloading(progress: real)                     // TrackStatus.DOWNLOADING, {'progress': p}
    | Converting                                      // TrackStatus.CONVERTING, {}
    | MetaData                                        // TrackStatus.META_DATA, {}
    | Done(state: DoneStatus)                         // TrackStatus.DONE, {'state': s}
    | Message(msg: string, severity: MessageSeverity) // TrackStatus.MESSAGE, {'msg': m, 'serv': s}
}
