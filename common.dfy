/** Result shapes shared by every endpoint of the backend. */
module Common {

  datatype Option<T> = None | Some(value: T)

  /** Why a request is answered without a result.
      Unprocessable: a query parameter breaks its declared bound (HTTP 422).
      DateOutOfRange: building a calendar date failed because the year left the
      range a timestamp can hold; the endpoint does not catch this (HTTP 500).
      NotFound: no row has the requested id ("Nicht gefunden"). */
  datatype Error = Unprocessable | DateOutOfRange | NotFound

  datatype Result<T> = Ok(value: T) | Err(error: Error)
}
