/** Optional values: the model's stand-in for a Java reference that may be null. */
module Wrappers {

  datatype Option<+T> = None | Some(value: T)
}

/**
 * The problems the services throw (org.zalando.problem), and a result type that
 * carries either a value or the problem thrown instead of returning it.
 */
module Problems {

  /** The three HTTP statuses the citizen service fails with. */
  datatype Status = BadRequest | NotFound | Conflict

  /** A thrown problem: its status and its detail message. */
  datatype Problem = Problem(status: Status, detail: string)

  datatype Result<+T> = Ok(value: T) | Err(problem: Problem)
}
