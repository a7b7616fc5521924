/** Integer facts about products, division and cyclic counters that the other modules use. */
module Arith {

  /** The successor on a cycle of n positions, which the program writes (i + 1) % n. */
  function Succ(i: nat, n: nat): (s: nat)
    requires i < n
    ensures s < n
  {
    if i + 1 == n then 0 else i + 1
  }

  lemma SuccIsMod(i: nat, n: nat)
    requires i < n
    ensures (i + 1) % n == Succ(i, n)
  {
  }

  lemma {:induction false} MulMonotone(p: int, q: int, b: nat)
    ensures p <= q ==> p * b <= q * b
    ensures p < q ==> p * b + b <= q * b
    decreases q - p
  {
    if p < q {
      MulMonotone(p + 1, q, b);
      assert (p + 1) * b == p * b + b;
    }
  }

  lemma DivUnique(x: int, b: nat, q: int)
    requires b > 0 && q * b <= x < q * b + b
    ensures x / b == q && x % b == x - q * b
  {
    var p := x / b;
    assert x == p * b + x % b;
    MulMonotone(p, q, b);
    MulMonotone(q, p, b);
  }

  lemma DivStep(x: int, b: nat)
    requires b > 0
    ensures (x + b) / b == x / b + 1 && (x + b) % b == x % b
  {
    var q := x / b;
    assert x == q * b + x % b;
    assert (q + 1) * b == q * b + b;
    DivUnique(x + b, b, q + 1);
  }

  lemma {:induction false} MultipleMod(q: nat, b: nat)
    requires b > 0
    ensures (q * b) % b == 0
  {
    DivUnique(q * b, b, q);
  }

  /** One more step on a cycle: how quotient and residue of a counter move. */
  lemma CycleStep(m: nat, n: nat)
    requires n > 0
    ensures (m + 1) % n == Succ(m % n, n)
    ensures (m + 1) / n == m / n + if m % n + 1 == n then 1 else 0
  {
    var q := m / n;
    assert m == q * n + m % n;
    if m % n + 1 == n {
      assert (q + 1) * n == q * n + n;
      DivUnique(m + 1, n, q + 1);
    } else {
      DivUnique(m + 1, n, q);
    }
  }
}
