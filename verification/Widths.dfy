/** The compile-time logarithms that size every counter and index of the library. Numbers are of
    64 bits in the source; no result here is larger than its argument but `NextPow2`. */
module Widths {

  function Pow2(k: nat): (r: nat)
    ensures k < r
  {
    if k == 0 then 1 else 2 * Pow2(k - 1)
  }

  lemma {:induction false} Pow2Monotone(j: nat, k: nat)
    requires j < k
    ensures 2 * Pow2(j) <= Pow2(k)
    decreases k
  {
    if j < k - 1 {
      Pow2Monotone(j, k - 1);
    }
  }

  /** floor(log2(n)) + p; 0 counts as 1. */
  function Log2Func(n: nat, p: nat): nat {
    if n < 2 then p else Log2Func(n / 2, p + 1)
  }

  function Log2(n: nat): nat {
    Log2Func(n, 0)
  }

  function CeilLog2(n: nat): nat {
    if n < 2 then 0 else Log2(n - 1) + 1
  }

  function Nbits(n: nat): nat {
    if n == 0 then 0 else Log2(n) + 1
  }

  function Addrbits1(n: nat): nat {
    if n < 2 then 1 else Log2(n - 1) + 1
  }

  lemma {:induction false} Log2FuncIs(n: nat, p: nat)
    requires 0 < n
    ensures p <= Log2Func(n, p)
    ensures Pow2(Log2Func(n, p) - p) <= n < 2 * Pow2(Log2Func(n, p) - p)
  {
    if 2 <= n {
      Log2FuncIs(n / 2, p + 1);
    }
  }

  /** The width of a counter is the least one that holds n. */
  lemma NbitsLeast(n: nat, w: nat)
    ensures n < Pow2(w) <==> Nbits(n) <= w
  {
    if n != 0 {
      Log2FuncIs(n, 0);
      var l := Log2(n);
      if l < w { Pow2Monotone(l, w); }
      if w < l { Pow2Monotone(w, l); }
    }
  }

  /** The width of an index is the least one, but at least one bit, that holds every index below n. */
  lemma Addrbits1Least(n: nat, w: nat)
    ensures 1 <= w && n <= Pow2(w) <==> Addrbits1(n) <= w
  {
    if 2 <= n {
      NbitsLeast(n - 1, w);
    }
  }

  /** So the counters and indices of a FIFO never truncate. */
  lemma FifoWidthsSuffice(length: nat, count: nat, index: nat)
    requires count <= length && index < length
    ensures count < Pow2(Nbits(length)) && index < Pow2(Addrbits1(length))
    ensures count < Pow2(Addrbits1(length) + 1)
  {
    NbitsLeast(length, Nbits(length));
    Addrbits1Least(length, Addrbits1(length));
  }

  predicate IsPow2Func(n: nat) {
    if n <= 2 then true else if n % 2 == 1 then false else IsPow2Func(n / 2)
  }

  function NextPow2(n: nat): nat {
    if IsPow2Func(n) && n != 0 then 2 * n else Pow2(CeilLog2(n))
  }

  lemma {:induction false} Pow2Halves(k: nat)
    ensures IsPow2Func(Pow2(k))
  {
    if 2 <= k {
      assert Pow2(k) / 2 == Pow2(k - 1);
      Pow2Halves(k - 1);
    }
  }

  /** The powers of two are recognised, and 0 besides. */
  lemma {:induction false} IsPow2Iff(n: nat)
    ensures IsPow2Func(n) <==> n == 0 || n == Pow2(Log2(n))
  {
    if 0 < n {
      Log2FuncIs(n, 0);
      if n == Pow2(Log2(n)) {
        Pow2Halves(Log2(n));
      } else {
        NotPow2(n, Log2(n));
      }
    }
  }

  lemma {:induction false} NotPow2(n: nat, k: nat)
    requires Pow2(k) < n < 2 * Pow2(k)
    ensures !IsPow2Func(n)
  {
    if n % 2 == 0 && k != 0 {
      NotPow2(n / 2, k - 1);
    }
  }

  /** The next power of two is the least one above n. Above 2^31 the source shifts out of a 32-bit
      one. */
  lemma NextPow2Least(n: nat, k: nat)
    requires n < 0x8000_0000
    ensures n < NextPow2(n) && NextPow2(n) == Pow2(Log2(NextPow2(n)))
    ensures n < Pow2(k) <==> NextPow2(n) <= Pow2(k)
  {
    var l := if n == 0 then 0 else Log2(n) + 1;
    NextIs(n);
    if n != 0 { Log2FuncIs(n, 0); }
    Log2FuncIs(Pow2(l), 0);
    SameLog2(l, Log2(Pow2(l)));
    NbitsLeast(n, k);
    if l < k { Pow2Monotone(l, k); }
    if k < l { Pow2Monotone(k, l); }
  }

  lemma SameLog2(j: nat, k: nat)
    requires Pow2(k) <= Pow2(j) < 2 * Pow2(k)
    ensures j == k
  {
    if j < k { Pow2Monotone(j, k); }
    if k < j { Pow2Monotone(k, j); }
  }

  lemma NextIs(n: nat)
    ensures NextPow2(n) == Pow2(if n == 0 then 0 else Log2(n) + 1)
  {
    IsPow2Iff(n);
    if 2 <= n && !IsPow2Func(n) {
      Log2FuncIs(n, 0);
      Log2FuncIs(n - 1, 0);
      var j, k := Log2(n), Log2(n - 1);
      if j < k { Pow2Monotone(j, k); }
      if k < j { Pow2Monotone(k, j); }
    }
  }
}
