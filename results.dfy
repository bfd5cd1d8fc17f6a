/** Result values for the operations that can fail. */
module Results {

  datatype Result<+R, +E> = Success(value: R) | Failure(error: E)
}
