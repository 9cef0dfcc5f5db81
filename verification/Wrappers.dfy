/** Outcomes shared by every store and service. */
module Wrappers {
  datatype Option<+T> = None | Some(value: T)

  /** The error returns of the stores and services, without their messages. */
  datatype Error =
    | NotFound
    | Conflict
    | InvalidArgument
    | Unauthenticated
    | PermissionDenied
    | Duplicate

  datatype Result<+T> = Ok(value: T) | Err(error: Error)
}
