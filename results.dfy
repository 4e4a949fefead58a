/** Error values for the exceptions the modelled code can raise, and the
    Option and Result wrappers that carry them. */
module Results {

  /** An exception of the calculator, as a value. */
  datatype Error =
    | EmptyMaxArgument  // Python's `max()` over an empty generator: a ring with fewer than two vertices
    | ShapeMismatch     // the viewshed raster cannot be combined element-wise with the distance raster

  /** A value that may be absent, as Python's `None`. */
  datatype Option<T> = None | Some(value: T)

  /** The outcome of an operation that either returns a value or raises. */
  datatype Result<T> = Success(value: T) | Failure(error: Error)
}
