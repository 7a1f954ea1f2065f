/** Counting with finite sets. */
module FiniteSets {

  /** Sets that agree but for one element. */
  lemma SizesDiffer(a: set<nat>, b: set<nat>, n: nat)
    requires forall i :: i != n ==> (i in a <==> i in b)
    ensures |b| - (if n in b then 1 else 0) == |a| - (if n in a then 1 else 0)
  {
    var common := a - {n};
    assert common == b - {n};
    assert n in a ==> a == common + {n};
    assert n !in a ==> a == common;
    assert n in b ==> b == common + {n};
    assert n !in b ==> b == common;
  }

  lemma {:induction false} SubsetSize(a: set<nat>, b: set<nat>)
    requires a <= b
    ensures |a| <= |b|
  {
    if a != {} {
      var x :| x in a;
      SubsetSize(a - {x}, b - {x});
    }
  }
}
