// Option and Result, and the errors the provider distinguishes.
module Wrappers {

  datatype Option<+T> = None | Some(value: T)

  // Go reports failures as error values; callers of this provider only ever test
  // for "not found" (operatorpkg's NodeClaimNotFoundError), so the other
  // constructors merely say which call site gave up.
  datatype Error =
    | NodeClaimNotFound
    | NodeClassUnavailable
    | NoMatchingInstanceTypes
    | NoInstanceTypesProvided
    | PoolRejected
    | NodeNotProvisioned
    | ApiFailed
    | DeleteFailed
    | EmptyProviderID
    | ForeignProviderID
    | EmptyDropletID

  datatype Result<+T> = Ok(value: T) | Err(error: Error)
}
