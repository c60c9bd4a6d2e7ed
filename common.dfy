/** Failure-compatible wrappers shared by every module of the model. */
module Common {

  /** A value that may be absent: Python's `None` versus a value. */
  datatype Option<T> = None | Some(value: T)

  /** The outcome of an operation that can raise: a value, or the exception it raises. */
  datatype Result<T, E> = Ok(value: T) | Err(error: E)

  /** A non-empty sequence is its head followed by its tail. */
  lemma HeadTail<T>(s: seq<T>)
    requires |s| > 0
    ensures s == [s[0]] + s[1..]
  {
  }

  /** Dropping the last element of a sequence with a head in front keeps the head in front. */
  lemma ConsDropLast<T>(x: T, q: seq<T>)
    requires |q| > 0
    ensures ([x] + q)[..|q|] == [x] + q[..|q| - 1]
  {
  }
}
