/** Types that every part of the model uses. */
module Base {

  datatype Option<+T> = None | Some(value: T)

  /** Nanoseconds on a clock that callers pass in. */
  type Time = int
}
