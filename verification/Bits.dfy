/** The bit utilities of the library. A number of a fixed width is the sequence of its bits, lowest
    first. */
module Bits {
  import opened Division
  import opened Widths

  predicate Bit(n: nat, k: nat) {
    if k == 0 then n % 2 == 1 else Bit(n / 2, k - 1)
  }

  /** The lowest w bits of n. */
  function Binary(n: nat, w: nat): (bits: seq<bool>)
    ensures |bits| == w
    ensures forall k :: 0 <= k < w ==> bits[k] == Bit(n, k)
  {
    if w == 0 then [] else [n % 2 == 1] + Binary(n / 2, w - 1)
  }

  function Value(bits: seq<bool>): (n: nat)
    ensures n < Pow2(|bits|)
  {
    if bits == [] then 0 else (if bits[0] then 1 else 0) + 2 * Value(bits[1..])
  }

  lemma {:induction false} ValueOfBinary(n: nat, w: nat)
    requires n < Pow2(w)
    ensures Value(Binary(n, w)) == n
  {
    if w != 0 {
      ValueOfBinary(n / 2, w - 1);
    }
  }

  function Or(a: seq<bool>, b: seq<bool>): (r: seq<bool>)
    requires |a| == |b|
    ensures |r| == |a|
    ensures forall k :: 0 <= k < |r| ==> r[k] == (a[k] || b[k])
  {
    if a == [] then [] else [a[0] || b[0]] + Or(a[1..], b[1..])
  }

  /** The bitwise or of the positions of all set bits. */
  function OrOfPositions(bits: seq<bool>, w: nat): (r: seq<bool>)
    ensures |r| == w
  {
    if bits == [] then Binary(0, w)
    else
      var n := |bits| - 1;
      var rest := OrOfPositions(bits[..n], w);
      if bits[n] then Or(rest, Binary(n, w)) else rest
  }

  lemma {:induction false} ZeroBit(k: nat)
    ensures !Bit(0, k)
  {
    if k != 0 { ZeroBit(k - 1); }
  }

  lemma {:induction false} OrOfPositionsAt(bits: seq<bool>, w: nat, b: nat)
    requires b < w
    ensures OrOfPositions(bits, w)[b] <==> exists i :: 0 <= i < |bits| && bits[i] && Bit(i, b)
  {
    if bits == [] {
      ZeroBit(b);
    } else {
      var n := |bits| - 1;
      OrOfPositionsAt(bits[..n], w, b);
      if i :| 0 <= i < |bits| && bits[i] && Bit(i, b) && i < n {
        assert bits[..n][i];
      }
    }
  }

  /** One bit of the result: the mask of the positions that have this bit, and-ed with the input. */
  method MaskedOr(oneHot: seq<bool>, bin: nat) returns (any: bool)
    ensures any <==> exists i :: 0 <= i < |oneHot| && oneHot[i] && Bit(i, bin)
  {
    var tmp: seq<bool> := [];
    for bit := 0 to |oneHot|
      invariant |tmp| == bit && forall i :: 0 <= i < bit ==> tmp[i] == Bit(i, bin)
    {
      tmp := tmp + [Bit(bit, bin)];
    }
    any := false;
    for bit := 0 to |oneHot|
      invariant any <==> exists i :: 0 <= i < bit && oneHot[i] && tmp[i]
    {
      any := any || (tmp[bit] && oneHot[bit]);
    }
  }

  /** Built bit by bit, the result is the or of the positions of the set bits. */
  method OneHotToBin(oneHot: seq<bool>) returns (bin: seq<bool>)
    ensures bin == OrOfPositions(oneHot, Addrbits1(|oneHot|))
  {
    bin := [];
    for b := 0 to Addrbits1(|oneHot|)
      invariant |bin| == b
      invariant forall k :: 0 <= k < b ==> bin[k] == OrOfPositions(oneHot, Addrbits1(|oneHot|))[k]
    {
      OrOfPositionsAt(oneHot, Addrbits1(|oneHot|), b);
      var any := MaskedOr(oneHot, b);
      bin := bin + [any];
    }
  }

  /** A one shifted left by n, in len bits. */
  function BinToOneHot(n: nat, len: nat): (r: seq<bool>)
    ensures |r| == len
    ensures forall i :: 0 <= i < len ==> r[i] == (i == n)
  {
    seq(len, i => i == n)
  }

  lemma {:induction false} OrOfOne(n: nat, len: nat, w: nat)
    ensures OrOfPositions(BinToOneHot(n, len), w) == Binary(if n < len then n else 0, w)
    decreases len
  {
    if len != 0 {
      var bits := BinToOneHot(n, len);
      assert bits[..len - 1] == BinToOneHot(n, len - 1);
      OrOfOne(n, len - 1, w);
      if n == len - 1 {
        forall k | 0 <= k < w ensures Or(Binary(0, w), Binary(n, w))[k] == Binary(n, w)[k] {
          ZeroBit(k);
        }
        assert Or(Binary(0, w), Binary(n, w)) == Binary(n, w);
      }
    }
  }

  /** Converting to one-hot and back gives the value again, for every width. */
  lemma OneHotRoundTrip(n: nat, binLen: nat)
    requires 0 < binLen && n < Pow2(binLen)
    ensures Addrbits1(Pow2(binLen)) == binLen
    ensures OrOfPositions(BinToOneHot(n, Pow2(binLen)), binLen) == Binary(n, binLen)
    ensures Value(OrOfPositions(BinToOneHot(n, Pow2(binLen)), binLen)) == n
  {
    Addrbits1Least(Pow2(binLen), binLen);
    Addrbits1Least(Pow2(binLen), binLen - 1);
    OrOfOne(n, Pow2(binLen), binLen);
    ValueOfBinary(n, binLen);
  }

  /** The number of set bits. */
  function Count(bits: seq<bool>): (c: nat)
    ensures c <= |bits|
  {
    if bits == [] then 0 else Count(bits[..|bits| - 1]) + if bits[|bits| - 1] then 1 else 0
  }

  /** The counter has as many bits as an index of the mask, so it may wrap around. */
  method Popcount(mask: seq<bool>) returns (count: nat)
    ensures count == Count(mask) % Pow2(Addrbits1(|mask|))
  {
    Addrbits1Least(|mask|, Addrbits1(|mask|));
    count := CountModulo(mask, Pow2(Addrbits1(|mask|)));
  }

  method CountModulo(mask: seq<bool>, m: nat) returns (count: nat)
    requires 1 < m
    ensures count == Count(mask) % m
  {
    count := 0;
    for i := 0 to |mask|
      invariant count == Count(mask[..i]) % m
    {
      CountPrefix(mask, i);
      Increment(Count(mask[..i]), m);
      if mask[i] {
        count := if count + 1 == m then 0 else count + 1;
      }
    }
    assert mask[..|mask|] == mask;
  }

  lemma CountPrefix(mask: seq<bool>, i: nat)
    requires i < |mask|
    ensures Count(mask[..i + 1]) == Count(mask[..i]) + if mask[i] then 1 else 0
  {
    assert mask[..i + 1][..i] == mask[..i];
  }

  lemma Increment(n: nat, m: nat)
    requires 1 < m
    ensures (n + 1) % m == if n % m + 1 == m then 0 else n % m + 1
  {
    var q, r := n / m, n % m;
    assert n == q * m + r;
    if r + 1 == m {
      assert (q + 1) * m == q * m + m;
      QuotientIs(n + 1, m, q + 1, 0);
    } else {
      QuotientIs(n + 1, m, q, r + 1);
    }
  }

  function Ones(len: nat): (mask: seq<bool>)
    ensures |mask| == len && Count(mask) == len
  {
    if len == 0 then [] else var m := Ones(len - 1) + [true]; assert m[..len - 1] == Ones(len - 1); m
  }

  /** The index width of a mask also holds its length, unless that is a power of two above one. */
  lemma LengthFitsIff(len: nat)
    requires 0 < len
    ensures var full := Pow2(Addrbits1(len));
            if len == 1 || !IsPow2Func(len) then len < full else len == full
  {
    var w := Addrbits1(len);
    Addrbits1Least(len, w);
    if len != 1 {
      IsPow2Iff(len);
      if IsPow2Func(len) {
        Addrbits1Least(len, Log2(len));
        if w < Log2(len) { Pow2Monotone(w, Log2(len)); }
      } else {
        NotEqualPow2(len, w);
      }
    }
  }

  predicate CountsRight(mask: seq<bool>) {
    Count(mask) % Pow2(Addrbits1(|mask|)) == Count(mask)
  }

  /** It counts every mask right exactly for the widths that are no power of two, and for width 1. */
  lemma PopcountExactIff(len: nat)
    requires 0 < len
    ensures (forall mask: seq<bool> :: |mask| == len ==> CountsRight(mask)) <==> len == 1 || !IsPow2Func(len)
  {
    LengthFitsIff(len);
    if len == 1 || !IsPow2Func(len) {
      forall mask: seq<bool> | |mask| == len ensures CountsRight(mask) {
        SmallMods(len);
      }
    } else {
      assert !CountsRight(Ones(len));
    }
  }

  lemma NotEqualPow2(n: nat, w: nat)
    requires !IsPow2Func(n)
    ensures n != Pow2(w)
  {
    Pow2Halves(w);
  }

  lemma SmallMods(len: nat)
    ensures forall c: nat, m: nat :: c <= len < m ==> c % m == c
  {
  }

  /** The saturated sum of an aw-bit and a bw-bit number: one more bit tells whether to saturate. */
  function SumSaturated(a: nat, b: nat, aw: nat): nat {
    var res := a + b;
    if Bit(res, aw) then Pow2(aw) - 1 else res % Pow2(aw)
  }

  lemma {:induction false} TopBit(n: nat, w: nat)
    requires n < 2 * Pow2(w)
    ensures Bit(n, w) <==> Pow2(w) <= n
  {
    if w != 0 {
      TopBit(n / 2, w - 1);
    }
  }

  /** It is the smaller of the sum and the largest number of aw bits. */
  lemma SumSaturates(a: nat, b: nat, aw: nat, bw: nat)
    requires bw <= aw && a < Pow2(aw) && b < Pow2(bw)
    ensures SumSaturated(a, b, aw) == if a + b < Pow2(aw) then a + b else Pow2(aw) - 1
  {
    if bw < aw { Pow2Monotone(bw, aw); }
    TopBit(a + b, aw);
    SmallMods(a + b);
  }
}
