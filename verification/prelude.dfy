/** Shared vocabulary: optional values, success-or-failure results, bytes,
    and the two prefix/substring tests the service applies to strings. */
module Prelude {

  /** An optional value, Python's `None` or a present value. */
  datatype Option<T> = None | Some(value: T)

  /** A computation that either produced a value or raised an error. */
  datatype Result<T, E> = Success(value: T) | Failure(error: E)

  /** One octet of an HTTP body. */
  type byte = b: int | 0 <= b < 256

  /** `sub` occurs somewhere inside `s` (Python's `sub in s` on strings). */
  predicate IsInfix<T(==)>(sub: seq<T>, s: seq<T>)
    decreases |s|
  {
    sub <= s || (|s| > 0 && IsInfix(sub, s[1..]))
  }

  /** A prefix of `s` also occurs inside `s`. */
  lemma PrefixIsInfix<T>(sub: seq<T>, s: seq<T>)
    requires sub <= s
    ensures IsInfix(sub, s)
  {
  }
}
