/** What the models share about numbers. */
module Arithmetic {
  /** RTP sequence numbers are 16 bits wide. */
  const SEQ_MOD: nat := 65536

  function Min(a: int, b: int): int { if a < b then a else b }
  function Max(a: int, b: int): int { if a < b then b else a }

  lemma MulMonotone(n: nat, a: nat, b: nat)
    requires a <= b
    ensures n * a <= n * b
  {
  }

  lemma MulStep(n: nat, a: nat, b: nat)
    requires a < b
    ensures n * a + n <= n * b
  {
    MulMonotone(n, a + 1, b);
    assert n * (a + 1) == n * a + n;
  }

  lemma DivIs(x: nat, n: nat, q: nat, m: nat)
    requires n > 0 && m < n && x == n * q + m
    ensures x / n == q && x % n == m
  {
    var a, b := x / n, x % n;
    assert x == n * a + b;
    if a < q {
      MulStep(n, a, q);
      assert false;
    } else if a > q {
      MulStep(n, q, a);
      assert false;
    }
  }

  lemma DivMonotone(a: nat, b: nat, n: nat)
    requires n > 0 && a <= b
    ensures a / n <= b / n
  {
    if a / n > b / n { MulStep(n, b / n, a / n); }
  }
}
