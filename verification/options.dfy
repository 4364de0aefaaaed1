/** Values that may be missing, and computations that may fail.

    `Option` stands for a pandas cell that may hold NaN: `None` is the
    not-a-number marker of a column whose value is undefined at that row,
    `Some(v)` a well-defined number.  `Result` stands for a computation that
    either yields a value or raises.
 */
module Options {

  datatype Option<+T> = None | Some(value: T)

  datatype Result<+T, +E> = Success(value: T) | Failure(error: E)
}
