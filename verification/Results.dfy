/** Optional values, and results that carry either a value or the error that prevented it. */
module Results {

  datatype Option<+T> = None | Some(value: T)

  datatype Error =
    | NotFound
    | Invalid(field: string, message: string)
    | Conflict

  datatype Result<+T> = Ok(value: T) | Err(error: Error)
}
