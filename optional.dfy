/** Option and Result, the explicit forms of Python's `None` and of raised exceptions. */
module Optional {

  datatype Option<+T> = None | Some(value: T)

  datatype Result<+T, +E> = Ok(value: T) | Err(error: E)
}
