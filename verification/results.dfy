/** The success-or-error value every fallible operation of the model returns.
    It stands for a Python call that either returns normally or raises. */
module Results {

  datatype Result<+T, +E> = Success(value: T) | Failure(error: E)

}
