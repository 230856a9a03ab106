/** The Python exceptions the modelled code can raise, and a result type
 *  that carries either a value or the exception raised instead. */
module PyErrors {

  datatype PyError = KeyError | RuntimeError | ZeroDivisionError

  datatype Result<T> = Ok(value: T) | Raise(error: PyError)
}
