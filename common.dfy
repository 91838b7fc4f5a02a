/** Shared result types: the Python exceptions the modelled code raises or
    catches become explicit `Err` values instead of control flow. */
module Common {

  datatype Option<+T> = None | Some(value: T)

  /** The kinds of Python exception that the modelled code can meet. */
  datatype ExcKind = TypeError | KeyError | ValueError | AttributeError | IndexError

  /** A raised exception: its class and what `str(e)` renders. */
  datatype Exc = Exc(kind: ExcKind, message: string)

  datatype Result<+T> = Ok(value: T) | Err(error: Exc)
}
