/** Order-independent sums over the keys of an integer-keyed map. */
module Sums {

  /** A set of keys is empty or has a key to pick. */
  lemma EmptyOrMember(ks: set<int>)
    ensures ks == {} || exists p :: p in ks
  {
    if forall p :: p !in ks {
      assert ks == {};
    }
  }

  /** Sum of the values `c` gives the keys `ks`, in no particular order. */
  ghost function Sum(c: map<int, nat>, ks: set<int>): nat
    requires ks <= c.Keys
    decreases ks
  {
    if ks == {} then 0
    else
      EmptyOrMember(ks);
      var p :| p in ks;
      c[p] + Sum(c, ks - {p})
  }

  /** Any key can be taken out of the sum first: the order of the keys does not matter. */
  lemma {:induction false} SumPick(c: map<int, nat>, ks: set<int>, q: int)
    requires ks <= c.Keys && q in ks
    ensures Sum(c, ks) == c[q] + Sum(c, ks - {q})
    decreases ks
  {
    var p :| p in ks && Sum(c, ks) == c[p] + Sum(c, ks - {p});
    if p != q {
      SumPick(c, ks - {p}, q);
      SumPick(c, ks - {q}, p);
      assert ks - {p} - {q} == ks - {q} - {p};
    }
  }

  /** The sum only depends on the values of the keys it ranges over. */
  lemma {:induction false} SumAgree(c1: map<int, nat>, c2: map<int, nat>, ks: set<int>)
    requires ks <= c1.Keys && ks <= c2.Keys
    requires forall p :: p in ks ==> c1[p] == c2[p]
    ensures Sum(c1, ks) == Sum(c2, ks)
    decreases ks
  {
    if ks != {} {
      EmptyOrMember(ks);
      var q :| q in ks;
      SumPick(c1, ks, q);
      SumPick(c2, ks, q);
      SumAgree(c1, c2, ks - {q});
    }
  }

  /** A sum of zeros is zero. */
  lemma {:induction false} SumZero(c: map<int, nat>, ks: set<int>)
    requires ks <= c.Keys
    requires forall p :: p in ks ==> c[p] == 0
    ensures Sum(c, ks) == 0
    decreases ks
  {
    if ks != {} {
      EmptyOrMember(ks);
      var q :| q in ks;
      SumPick(c, ks, q);
      SumZero(c, ks - {q});
    }
  }
}
