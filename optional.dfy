/** The two failure-carrying wrappers the model uses: Python's `None`-or-value
    results, and the exception a step of the page can raise. */
module Optional {

  datatype Option<+T> = None | Some(value: T)

  datatype Result<+T, +E> = Ok(value: T) | Err(error: E)
}
