/** How many distinct indices below a bound there can be. */
module Pigeonhole {

  lemma {:induction false} UpTo(n: nat) returns (s: set<nat>)
    ensures |s| == n && forall x: nat :: x in s <==> x < n
  {
    if n == 0 {
      s := {};
    } else {
      var t := UpTo(n - 1);
      assert n - 1 !in t;
      s := t + {n - 1};
    }
  }

  function Elements(q: seq<nat>): set<nat> { set x | x in q }

  lemma {:induction false} DistinctSet(q: seq<nat>)
    requires forall x :: multiset(q)[x] <= 1
    ensures |Elements(q)| == |q|
    decreases |q|
  {
    if q != [] {
      var init, last := q[..|q| - 1], q[|q| - 1];
      assert q == init + [last];
      assert multiset(q)[last] == multiset(init)[last] + 1;
      forall x ensures multiset(init)[x] <= 1 { assert multiset(init)[x] <= multiset(q)[x]; }
      DistinctSet(init);
      assert last !in Elements(init);
      assert Elements(q) == Elements(init) + {last};
    }
  }

  lemma Subset(a: set<nat>, b: set<nat>)
    requires a <= b
    ensures |a| <= |b|
  {
    assert b == a + (b - a);
  }

  /** Distinct indices below n that leave out one of them are fewer than n. */
  lemma RoomLeft(q: seq<nat>, n: nat, i: nat)
    requires (forall x :: multiset(q)[x] <= 1) && (forall x :: x in q ==> x < n) && i < n && i !in q
    ensures |q| < n
  {
    DistinctSet(q);
    var all := UpTo(n);
    assert |all - {i}| == n - 1;
    Subset(Elements(q), all - {i});
  }
}
