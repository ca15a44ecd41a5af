/** The outcome of an operation that raises an exception in the scripts,
    and a value that may be missing (pandas' NaN). */
module Results {

  datatype Result<T, E> = Ok(value: T) | Err(error: E)

  datatype Option<T> = None | Some(value: T)
}
