/** Optional values and the HTTP-style outcome every route handler produces. */
module Wrappers {

  datatype Option<+T> = None | Some(value: T)

  /** `Ok` carries the handler's result; `Err` carries the status code and the
      detail text of the `HTTPException` the handler raises. */
  datatype Result<+T> = Ok(value: T) | Err(status: int, detail: string)
}
