/** Small things every module needs. */
module Wrappers {
  datatype Option<+T> = None | Some(value: T)

  lemma Inhabited(s: set<int>)
    ensures s == {} || exists x :: x in s
  {
    assert (forall x :: x !in s) ==> s == {};
  }
}
