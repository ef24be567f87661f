/** The two wrappers every module shares: an optional value (a
    JavaScript property that may be `undefined`) and a result that is either a
    value or the error a promise rejected with. */
module Wrappers {

  datatype Option<+T> = None | Some(value: T)

  datatype Result<+R, +E> = Success(value: R) | Failure(error: E)
}
