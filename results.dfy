/** Outcome types shared by the modules: a Python `None`-able value and an
    operation that either returns a value or raises. */
module Results {

  datatype Option<+T> = None | Some(value: T)

  datatype Result<+T, +E> = Ok(value: T) | Err(error: E)
}
