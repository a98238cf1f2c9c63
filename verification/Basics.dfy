/** What several parts share. */
module Basics {
  datatype Option<+T> = None | Some(value: T)

  predicate NoRepeats<T(==)>(xs: seq<T>) {
    forall i, j :: 0 <= i < j < |xs| ==> xs[i] != xs[j]
  }
}
