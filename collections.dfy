/** Sequence helpers shared by the Word Mine session and the completion ledger. */
module Collections {

  /** No element occurs twice: a JavaScript `Set`, or a list kept free of repeats. */
  predicate NoDuplicates<T(==)>(s: seq<T>) {
    forall i, j :: 0 <= i < j < |s| ==> s[i] != s[j]
  }
}
