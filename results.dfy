/** Optional values and error-carrying results, used wherever the Python
    code either has `None` or raises an exception. */
module Results {

  datatype Option<+T> = None | Some(value: T)

  datatype Result<+T, +E> = Ok(value: T) | Err(error: E)
}
