/** Small types and facts shared by the other modules. */
module Wrappers {
  datatype Option<+T> = None | Some(value: T)

  /** The three answers of a comparison, as Rust's `std::cmp::Ordering`. */
  datatype Ordering = Less | Equal | Greater

  function Min(a: nat, b: nat): nat {
    if a < b then a else b
  }

  lemma SubsetSize<T>(a: set<T>, b: set<T>)
    requires a <= b
    ensures |a| <= |b|
  {
    assert b == a + (b - a);
  }
}
