/** The result codes shared by every component, and a value-or-status result. */
module Statuses {

  datatype Status =
    | Ok | Nomem | Invalid | NotFound | Io | Hw | Eof | Again | Format | Negotiate | Permission
    | Canceled | Unsupported | Internal | Model | License | Integrity

  datatype Result<+T> = Success(value: T) | Failure(status: Status)
}
