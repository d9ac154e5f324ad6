/** The result-or-error envelope every node query returns, as a tagged value
    instead of a dictionary with an `error` and a `result` field. */
module Lookups {

  /** An optional value; stands for a JSON field that may be `null`. */
  datatype Option<+T> = None | Some(value: T)

  /** Whatever the node reports when a query fails. The handlers never look inside it. */
  datatype NodeError = NodeError(code: int, message: string)

  /** `Ok(result)` when the envelope's `error` is `None`, `Err(error)` otherwise. */
  datatype Lookup<+T> = Ok(result: T) | Err(error: NodeError)
}
