/** The deterministic basic sampler: a call counter that lets through calls
    1, N+1, 2N+1, ... and drops the rest. */
module Sampling {

  type Positive = n: nat | n >= 1 witness 1

  /** Whether the call that brought the counter to c is let through by a
      sampler of period n: c mod n == 1 (for n == 1, every call). */
  predicate Admits(n: Positive, c: nat)
  {
    c % n == 1 % n
  }

  class BasicSampler {
    const n: Positive
    var counter: nat

    constructor (n: Positive)
      ensures this.n == n && counter == 0
    {
      this.n := n;
      counter := 0;
    }

    /** One sampling decision: count the call, then let it through when the
        new count is admitted. */
    method Sample() returns (pass: bool)
      modifies this
      ensures counter == old(counter) + 1
      ensures pass == Admits(n, counter)
    {
      counter := counter + 1;
      pass := counter % n == 1 % n;
    }
  }

  /** The decisions of k consecutive calls on a sampler whose counter starts
      at c. */
  function Decisions(n: Positive, c: nat, k: nat): seq<bool>
    decreases k
  {
    if k == 0 then [] else [Admits(n, c + 1)] + Decisions(n, c + 1, k - 1)
  }

  /** Calls are counted from 1: the i-th call (0-based) of a fresh sampler
      passes exactly when i is a multiple of n, i.e. calls 1, n+1, 2n+1, ...
      pass. */
  lemma {:induction false} DecisionsFromStart(n: Positive, c: nat, k: nat)
    ensures |Decisions(n, c, k)| == k
    ensures forall i | 0 <= i < k :: Decisions(n, c, k)[i] == ((c + i) % n == 0)
    decreases k
  {
    if k > 0 {
      DecisionsFromStart(n, c + 1, k - 1);
      forall i | 0 <= i < k ensures Decisions(n, c, k)[i] == ((c + i) % n == 0) {
        AdmitsShift(n, c + i);
        if i > 0 {
          assert Decisions(n, c, k)[i] == Decisions(n, c + 1, k - 1)[i - 1];
        }
      }
    }
  }

  /** The count c + 1 is admitted exactly when c is a multiple of n. */
  lemma AdmitsShift(n: Positive, c: nat)
    ensures Admits(n, c + 1) == (c % n == 0)
  {
    if n > 1 {
      var q, r := c / n, c % n;
      DivModOf(c, n, q, r);
      if r + 1 < n {
        DivModUnique(c + 1, n, q, r + 1);
      } else {
        DivModUnique(c + 1, n, q + 1, 0);
      }
      DivModUnique(1, n, 0, 1);
    }
  }

  /** Euclidean division as Dafny defines it. */
  lemma DivModOf(a: nat, n: Positive, q: int, r: int)
    requires q == a / n && r == a % n
    ensures a == q * n + r && 0 <= r < n
  {
  }

  /** Quotient and remainder are determined by a == q * n + r, 0 <= r < n. */
  lemma DivModUnique(a: int, n: Positive, q: int, r: int)
    requires a == q * n + r && 0 <= r < n
    ensures a / n == q && a % n == r
  {
    var q', r' := a / n, a % n;
    assert a == q' * n + r' && 0 <= r' < n;
    assert (q - q') * n == r' - r;
    if q > q' {
      MulAtLeast(q - q', n);
    } else if q < q' {
      MulAtLeast(q' - q, n);
    }
  }

  lemma MulAtLeast(d: int, n: Positive)
    requires d >= 1
    ensures d * n >= n
  {
  }

  /** The number of calls let through. */
  function PassCount(ds: seq<bool>): nat
  {
    if ds == [] then 0 else (if ds[0] then 1 else 0) + PassCount(ds[1..])
  }

  /** Of the first k calls of a fresh sampler of period n, exactly
      ceil(k / n) are let through. */
  lemma {:induction false} PassCountFresh(n: Positive, k: nat)
    ensures PassCount(Decisions(n, 0, k)) == (k + n - 1) / n
    decreases k
  {
    if k > 0 {
      PassCountFresh(n, k - 1);
      DecisionsSnoc(n, 0, k - 1);
      PassCountSnoc(Decisions(n, 0, k - 1), Admits(n, k));
      AdmitsShift(n, k - 1);
      CeilStep(n, k - 1);
    }
  }

  lemma {:induction false} DecisionsSnoc(n: Positive, c: nat, k: nat)
    ensures Decisions(n, c, k + 1) == Decisions(n, c, k) + [Admits(n, c + k + 1)]
    decreases k
  {
    if k > 0 {
      DecisionsSnoc(n, c + 1, k - 1);
    }
  }

  lemma {:induction false} PassCountSnoc(ds: seq<bool>, d: bool)
    ensures PassCount(ds + [d]) == PassCount(ds) + (if d then 1 else 0)
    decreases |ds|
  {
    if ds != [] {
      assert (ds + [d])[1..] == ds[1..] + [d];
      PassCountSnoc(ds[1..], d);
    }
  }

  /** ceil((k + 1) / n) steps up from ceil(k / n) exactly when k is a multiple
      of n. */
  lemma CeilStep(n: Positive, k: nat)
    ensures (k + n) / n == (k + n - 1) / n + (if k % n == 0 then 1 else 0)
  {
    var q, r := k / n, k % n;
    DivModOf(k, n, q, r);
    DivModUnique(k + n, n, q + 1, r);
    if r == 0 {
      DivModUnique(k + n - 1, n, q, n - 1);
    } else {
      DivModUnique(k + n - 1, n, q + 1, r - 1);
    }
  }

  /** A sampler of period 2 over four calls lets through calls 1 and 3. */
  lemma PeriodTwoOverFour()
    ensures Decisions(2, 0, 4) == [true, false, true, false]
  {
  }
}
