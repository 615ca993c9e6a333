/** The few non-linear facts the counting proofs need. */
module Arithmetic {

  lemma MulMonotone(c: nat, a: int, b: int)
    requires a <= b
    ensures c * a <= c * b
  {
  }

  lemma MulAddOne(c: int, a: int)
    ensures c * (a + 1) == c * a + c
  {
  }

  lemma DivLower(cap: nat, k: int, n: nat)
    requires cap >= 1 && cap * k <= n
    ensures k <= n / cap
  {
    var q := n / cap;
    MulAddOne(cap, q);
    if k > q {
      MulMonotone(cap, q + 1, k);
    }
  }

  lemma DivMonotone(cap: nat, a: nat, b: nat)
    requires cap >= 1 && a <= b
    ensures a / cap <= b / cap
  {
    DivLower(cap, a / cap, b);
  }

  lemma DivExact(cap: nat, q: nat, r: nat)
    requires cap >= 1 && r < cap
    ensures (cap * q + r) / cap == q
  {
    var n := cap * q + r;
    var d := n / cap;
    DivLower(cap, q, n);
    MulAddOne(cap, q);
    if d > q {
      MulMonotone(cap, q + 1, d);
    }
  }
}
