/** Failure-carrying values used across the model in place of Java's null and exceptions. */
module Wrappers {

  /** `None` stands for Java's `null` (or for a reply that never arrived). */
  datatype Option<+T> = None | Some(value: T)

  /** `Failure` stands for a thrown `IllegalArgumentException`. */
  datatype Result<+T, +E> = Success(value: T) | Failure(error: E)
}
