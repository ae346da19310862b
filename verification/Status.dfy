/** Outcome codes shared by every component (include/tr/status.h). */
module Status {

  datatype Status =
    | Ok
    | Again
    | Invalid
    | NoMem
    | BadLength
    | State
    | Sys
    | Closed
    | Stale

  datatype Option<+T> = None | Some(value: T)
}
