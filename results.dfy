/** Option and Result: the model's stand-ins for Java's null-free optional
    values and for the exceptions the modelled methods throw. */
module Results {

  datatype Option<+T> = None | Some(value: T)

  datatype Result<+T, +E> = Success(value: T) | Failure(error: E)
}
