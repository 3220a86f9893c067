/** Result types, and the one sequence predicate, shared by every module of the model. */
module Wrappers {

  /** A value that may be absent: Go's nil pointer, or a missing map entry. */
  datatype Option<+T> = None | Some(value: T)

  /** The `(value, error)` pair a Go function returns: exactly one side is meaningful. */
  datatype Result<+T, +E> = Success(value: T) | Failure(error: E)

  /** No element occurs twice. */
  ghost predicate Distinct<T>(s: seq<T>) {
    forall i, j :: 0 <= i < j < |s| ==> s[i] != s[j]
  }

  /** Appending distinct elements not already present keeps a sequence distinct. */
  lemma DistinctAppend<T>(a: seq<T>, b: seq<T>)
    requires Distinct(a) && Distinct(b)
    requires forall x :: x in b ==> x !in a
    ensures Distinct(a + b)
  {
    forall i, j | 0 <= i < j < |a + b|
      ensures (a + b)[i] != (a + b)[j]
    {
      if j < |a| {
        assert (a + b)[i] == a[i] && (a + b)[j] == a[j];
      } else if i < |a| {
        assert (a + b)[i] == a[i] && (a + b)[j] == b[j - |a|] && b[j - |a|] in b;
      } else {
        assert (a + b)[i] == b[i - |a|] && (a + b)[j] == b[j - |a|];
      }
    }
  }
}
