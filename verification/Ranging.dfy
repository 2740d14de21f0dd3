/** range over a map: every key is met once, in an order nobody promises. */
module Ranging {

  /** Some key that is still to be met. */
  method Next<K>(todo: set<K>) returns (k: K)
    requires todo != {}
    ensures k in todo
  {
    assert |todo| > 0;
    k :| k in todo;
  }
}
