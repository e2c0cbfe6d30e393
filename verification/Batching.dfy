/** Cutting `n` items into batches of at most `b`: how many there are and where they begin. The
    program counts batches by ceiling division in one place and by stepping a range in others; both
    are the count here. */
module Batching {

  /** The number of batches, counted one batch at a time. */
  function Batches(n: nat, b: nat): nat
    requires b >= 1
  {
    if n == 0 then 0 else if n <= b then 1 else 1 + Batches(n - b, b)
  }

  /** Where batch `k` begins; `n` from the end of the last batch on. */
  function Cut(n: nat, b: nat, k: nat): (c: nat)
    ensures c <= n
  {
    if k == 0 then 0 else if Cut(n, b, k - 1) + b <= n then Cut(n, b, k - 1) + b else n
  }

  /** The count is the quotient rounded up. */
  lemma {:induction false} BatchesIsCeiling(n: nat, b: nat)
    requires b >= 1
    ensures Batches(n, b) == (n + b - 1) / b
  {
    if n == 0 {
      QuotientIs(b - 1, b, 0, b - 1);
    } else if n <= b {
      QuotientIs(n + b - 1, b, 1, n - 1);
    } else {
      BatchesIsCeiling(n - b, b);
      var q, r := (n - 1) / b, (n - 1) % b;
      assert n + b - 1 == (q + 1) * b + r;
      QuotientIs(n + b - 1, b, q + 1, r);
    }
  }

  lemma QuotientIs(x: nat, b: nat, q: nat, r: nat)
    requires b >= 1 && r < b && x == q * b + r
    ensures x / b == q
  {
    var d := x / b;
    if d > q { MulMonotone(q + 1, d, b); } else if d < q { MulMonotone(d + 1, q, b); }
  }

  lemma MulMonotone(x: nat, y: nat, b: nat)
    requires x <= y
    ensures x * b <= y * b
  {
  }

  /** Batch `k` begins at `k * b` and is not empty, for every `k` below the count. */
  lemma {:induction false} CutIsProduct(n: nat, b: nat, k: nat)
    requires b >= 1 && k < Batches(n, b)
    ensures Cut(n, b, k) == k * b < n
  {
    if k > 0 {
      CutIsProduct(n, b, k - 1);
      assert k * b == (k - 1) * b + b;
      BeforeEnd(n, b, k);
    }
  }

  lemma {:induction false} BeforeEnd(n: nat, b: nat, k: nat)
    requires b >= 1 && k < Batches(n, b)
    ensures k * b < n
  {
    if k > 0 {
      BeforeEnd(n - b, b, k - 1);
      assert k * b == (k - 1) * b + b;
    }
  }

  /** The batches end at the end. */
  lemma {:induction false} CutAtEnd(n: nat, b: nat)
    requires b >= 1
    ensures Cut(n, b, Batches(n, b)) == n
  {
    var k := Batches(n, b);
    if k > 0 {
      CutIsProduct(n, b, k - 1);
      LastBatch(n, b);
      assert k * b == (k - 1) * b + b;
    }
  }

  lemma {:induction false} LastBatch(n: nat, b: nat)
    requires b >= 1
    ensures n <= Batches(n, b) * b
  {
    if n > b {
      LastBatch(n - b, b);
      assert Batches(n, b) * b == Batches(n - b, b) * b + b;
    }
  }

  /** Stepping by `b` from 0 visits the beginnings of the batches. */
  lemma {:induction false} StepCount(n: nat, b: nat, i: nat)
    requires b >= 1 && i < n
    ensures Batches(n - i, b) == 1 + Batches(if i + b <= n then n - (i + b) else 0, b)
  {
  }
}
