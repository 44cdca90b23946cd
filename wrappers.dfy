/** Failure-compatible result type used for every operation that throws in the source. */
module Wrappers {

  /** `None` stands for "an exception was thrown"; the source throws a bare `Exception`
      everywhere, so the model keeps a single failure outcome. */
  datatype Option<+T> = None | Some(value: T)
}
