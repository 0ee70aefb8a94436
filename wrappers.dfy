/** Optional values and pass/fail outcomes shared by the whole model. */
module Wrappers {

  /** An optional value: an absent storage key, a `?:` field left undefined, a `find` that found nothing. */
  datatype Option<+T> = None | Some(value: T)

  /** The outcome of an operation that either completes or throws `error` to its caller. */
  datatype Outcome<+E> = Pass | Fail(error: E)
}
