module Options {
  datatype Option<+T> = None | Some(value: T)

  /** No element is listed twice. */
  predicate NoDup<T(==)>(s: seq<T>) {
    forall i, j :: 0 <= i < j < |s| ==> s[i] != s[j]
  }
}
