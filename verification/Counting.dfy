/** Counting by sets. */
module Counting {
  /** A set that takes in at most one new element grows by as much. */
  lemma {:induction false} SetGrows(all: set<nat>, before: set<nat>, n: nat, joins: bool)
    requires n !in before && forall i: nat :: i in all <==> i in before || (i == n && joins)
    ensures |all| == |before| + if joins then 1 else 0
  {
    assert all == if joins then before + {n} else before;
  }
}
