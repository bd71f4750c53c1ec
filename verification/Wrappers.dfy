/** Failure-carrying datatypes that stand for the source's `None` and for its exceptions. */
module Wrappers {

  datatype Option<+T> = None | Some(value: T)

  /** The exceptions of src/o2gateway/operations/errors.py that the modelled code raises or passes on. */
  datatype CloudError =
    | NotFound
    | AlreadyExists
    | MediaNotValidated
    | SessionMissing
    | SessionExpired
    | ProviderFailure
    | RangeNotSatisfiable

  datatype Result<+T> = Ok(value: T) | Err(error: CloudError)
}
