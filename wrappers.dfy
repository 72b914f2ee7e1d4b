/** Option values for Python's None-or-value returns, and a fact about sets. */
module Wrappers {

  datatype Option<+T> = None | Some(value: T)

  /** A non-empty set has an element to pick; `w` is one. */
  lemma SetHasElement<T>(s: set<T>) returns (w: T)
    requires s != {}
    ensures w in s
  {
    if forall x :: x !in s {
      assert false;
    }
    w :| w in s;
  }
}
