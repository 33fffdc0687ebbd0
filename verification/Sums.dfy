// Sums of weights over finite sets of keys.
module Sums {

  function Weight<K>(w: map<K, nat>, k: K): nat {
    if k in w then w[k] else 0
  }

  // Keys without a weight count nothing, like rows a SQL `IN` does not find.
  ghost function Total<K>(s: set<K>, w: map<K, nat>): nat {
    if s == {} then 0
    else
      var k :| k in s;
      Weight(w, k) + Total(s - {k}, w)
  }

  lemma {:induction false} TotalWithout<K>(s: set<K>, w: map<K, nat>, k: K)
    requires k in s
    ensures Total(s, w) == Weight(w, k) + Total(s - {k}, w)
    decreases s
  {
    var j :| j in s && Total(s, w) == Weight(w, j) + Total(s - {j}, w);
    if j != k {
      TotalWithout(s - {j}, w, k);
      TotalWithout(s - {k}, w, j);
      assert (s - {j}) - {k} == (s - {k}) - {j};
    }
  }

  lemma {:induction false} TotalOfOne<K>(k: K, w: map<K, nat>)
    ensures Total({k}, w) == (if k in w then w[k] else 0) && Total({}, w) == 0
  {
    TotalWithout({k}, w, k);
    assert {k} - {k} == {};
  }

  lemma {:induction false} TotalOfUnknown<K>(s: set<K>, w: map<K, nat>)
    requires s !! w.Keys
    ensures Total(s, w) == 0
    decreases s
  {
    if k :| k in s {
      TotalWithout(s, w, k);
      assert k !in w.Keys;
      TotalOfUnknown(s - {k}, w);
    }
  }

  // Over disjoint sets the totals add up.
  lemma {:induction false} TotalUnion<K>(a: set<K>, b: set<K>, w: map<K, nat>)
    requires a !! b
    ensures Total(a + b, w) == Total(a, w) + Total(b, w)
    decreases b
  {
    if k :| k in b {
      TotalWithout(b, w, k);
      TotalWithout(a + b, w, k);
      assert (a + b) - {k} == a + (b - {k});
      TotalUnion(a, b - {k}, w);
    } else {
      assert a + b == a;
    }
  }

  lemma {:induction false} TotalSubset<K>(a: set<K>, b: set<K>, w: map<K, nat>)
    requires a <= b
    ensures Total(a, w) <= Total(b, w)
  {
    TotalUnion(a, b - a, w);
    assert a + (b - a) == b;
  }

  lemma {:induction false} TotalSameWeights<K>(s: set<K>, w: map<K, nat>, w': map<K, nat>)
    requires forall k :: k in s ==> Weight(w, k) == Weight(w', k)
    ensures Total(s, w) == Total(s, w')
    decreases s
  {
    if k :| k in s {
      TotalWithout(s, w, k);
      TotalWithout(s, w', k);
      TotalSameWeights(s - {k}, w, w');
    }
  }
}
