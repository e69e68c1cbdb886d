/** What several parts of the model share. */
module Basics {
  /** A null pointer, where indices stand for pointers. */
  const NULL := -1

  /** The number of values of a 32-bit register. */
  const WORD := 0x1_0000_0000

  predicate Distinct<T(==)>(c: seq<T>) {
    forall i, j :: 0 <= i < j < |c| ==> c[i] != c[j]
  }
}
