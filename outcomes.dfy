/** Option, Result and Outcome: the value-or-error shapes every module of the
    model returns in place of Java's null references and thrown exceptions. */
module Outcomes {

  /** A possibly-null reference: `None` stands for Java's `null`. */
  datatype Option<+T> = None | Some(value: T)

  /** The value a Java method returns, or the exception it throws. */
  datatype Result<+R, +E> = Success(value: R) | Failure(error: E)

  /** The normal completion of a `void` Java method, or the exception it throws. */
  datatype Outcome<+E> = Pass | Fail(error: E)
}
