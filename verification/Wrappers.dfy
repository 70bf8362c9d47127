/** Types shared by the modules of this project. */
module Wrappers {

  datatype Option<+T> = None | Some(value: T)

  datatype Result<+R, +E> = Success(value: R) | Failure(error: E)

  /** A run: what happened so far, latest event outermost. */
  datatype Trace<E> = Start | Then(before: Trace<E>, event: E)

  /** t' is t, possibly with more events after it. */
  ghost predicate Continues<E(!new)>(t: Trace<E>, t': Trace<E>) {
    t' == t || (t'.Then? && Continues(t, t'.before))
  }
}
