/** Small value wrappers shared by every component: an optional value, a result
    that is either a value or an error, order-preserving subsequences, and two
    facts about appending to sequences used by the proofs about traces. */
module Wrappers {

  datatype Option<+T> = None | Some(value: T) {
    function GetOr(default: T): T {
      match this
      case Some(v) => v
      case None => default
    }
  }

  datatype Result<+R, +E> = Success(value: R) | Failure(error: E)

  /** `a` can be obtained from `b` by deleting elements, keeping the order of the rest. */
  predicate IsSubsequence<T(==)>(a: seq<T>, b: seq<T>)
    decreases |b|
  {
    a == [] || (b != [] && ((a[0] == b[0] && IsSubsequence(a[1..], b[1..])) || IsSubsequence(a, b[1..])))
  }

  lemma AppendAssoc<T>(a: seq<T>, b: seq<T>, c: seq<T>)
    ensures (a + b) + c == a + (b + c)
  {
  }

  /** Appending the next element of `events` extends the prefix by one. */
  lemma AppendStep<T>(start: seq<T>, events: seq<T>, k: nat)
    requires k < |events|
    ensures start + events[..k] + [events[k]] == start + events[..k + 1]
  {
    assert events[..k + 1] == events[..k] + [events[k]];
  }
}
