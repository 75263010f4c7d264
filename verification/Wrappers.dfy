/** Results and optional values, standing for the source's error returns and nil pointers. */
module Wrappers {
  datatype Option<+T> = None | Some(value: T)

  datatype Result<+T, +E> = Success(value: T) | Failure(error: E)

  /** What is left of a list, and what is left of it after its next element. */
  lemma SuffixNext<T>(full: seq<T>, todo: seq<T>)
    requires todo != [] && |todo| <= |full| && todo == full[|full| - |todo|..]
    ensures todo[0] == full[|full| - |todo|] && todo[1..] == full[|full| - |todo[1..]|..]
  {
  }
}
