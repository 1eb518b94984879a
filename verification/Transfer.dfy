/** What a burst transfer does to a memory. */
module Transfer {
  import opened Division

  /** Where each word comes from and goes to. */
  datatype Moves = Moves(src: seq<nat>, dst: seq<nat>)

  ghost predicate Fits(m: Moves, span: nat) {
    && |m.src| == |m.dst|
    && (forall k :: 0 <= k < |m.src| ==> m.src[k] < span)
    && (forall k :: 0 <= k < |m.dst| ==> m.dst[k] < span)
  }

  /** The words read by a burst. */
  function Read<T>(m: Moves, mem: seq<T>, offset: nat, steps: nat): (data: seq<T>)
    requires Fits(m, |mem|) && offset + steps <= |m.src|
    ensures |data| == steps
    ensures forall i :: 0 <= i < steps ==> data[i] == mem[m.src[offset + i]]
  {
    seq(steps, i requires 0 <= i < steps => mem[m.src[offset + i]])
  }

  /** The memory after the words of a burst have been written, one after the other. */
  function Write<T>(m: Moves, mem: seq<T>, offset: nat, data: seq<T>): (r: seq<T>)
    requires Fits(m, |mem|) && offset + |data| <= |m.dst|
    ensures |r| == |mem|
    decreases |data|
  {
    if data == [] then mem else
      var last := |data| - 1;
      Write(m, mem, offset, data[..last])[m.dst[offset + last] := data[last]]
  }

  function Min(a: nat, b: nat): nat {
    if a < b then a else b
  }

  /** The memory after the remaining words have been moved in bursts: each burst reads all its words
      before it writes the first one. */
  function Moved<T>(m: Moves, n: nat, mem: seq<T>, offset: nat, left: nat): (r: seq<T>)
    requires Fits(m, |mem|) && (0 < n || left == 0) && offset + left == |m.src|
    ensures |r| == |mem|
    decreases left
  {
    if left == 0 then mem else
      var steps := Min(n, left);
      Moved(m, n, Write(m, mem, offset, Read(m, mem, offset, steps)), offset + steps, left - steps)
  }

  /** The clock cycles the bursts take: one per word read, one per word written and one per burst. */
  function Waits(n: nat, left: nat): nat
    requires 0 < n || left == 0
    decreases left
  {
    if left == 0 then 0 else
      var steps := Min(n, left);
      2 * steps + 1 + Waits(n, left - steps)
  }

  /** What the remaining bursts will have done, and when they will be through, is settled. */
  ghost predicate Underway<T>(m: Moves, burst: nat, mem: seq<T>, offset: nat, left: nat, waits: nat, done: seq<T>, total: nat) {
    && Fits(m, |mem|) && (0 < burst || left == 0) && offset + left == |m.src|
    && Moved(m, burst, mem, offset, left) == done && waits + Waits(burst, left) == total
  }

  /** The words left after k passes of the burst loop. */
  function LeftAfter(burst: nat, left: nat, k: nat): nat {
    if k == 0 then left else
      var before := LeftAfter(burst, left, k - 1);
      before - Min(burst, before)
  }

  lemma {:induction false} LeftAfterIs(burst: nat, left: nat, k: nat)
    ensures LeftAfter(burst, left, k) == if left <= k * burst then 0 else left - k * burst
  {
    if k != 0 {
      LeftAfterIs(burst, left, k - 1);
      assert k * burst == (k - 1) * burst + burst;
    }
  }

  /** The burst loop ends if and only if a burst moves something or there is nothing to move. */
  lemma EndsIff(burst: nat, left: nat)
    ensures (exists k: nat :: LeftAfter(burst, left, k) == 0) <==> 0 < burst || left == 0
  {
    if 0 < burst {
      LeftAfterIs(burst, left, left);
      assert left <= left * burst by { if left != 0 { AtLeastOnce(burst, left); } }
      assert LeftAfter(burst, left, left) == 0;
    } else if left == 0 {
      assert LeftAfter(burst, left, 0) == 0;
    } else {
      forall k: nat ensures LeftAfter(burst, left, k) == left {
        LeftAfterIs(burst, left, k);
      }
    }
  }

  const WORD := 0x1_0000_0000_0000_0000

  /** The slot the last word of the read half of a burst goes to: steps - 1 in 64 unsigned bits. */
  function LastSlot(steps: nat): nat {
    (steps + WORD - 1) % WORD
  }

  /** That slot is in the buffer if and only if the burst is not empty; the last word of an empty one
      goes to the largest index there is. */
  lemma LastSlotInBufferIff(steps: nat, n: nat)
    requires steps <= n < WORD
    ensures LastSlot(steps) < n <==> 0 < steps
    ensures steps == 0 ==> LastSlot(steps) == WORD - 1
  {
  }

  /** So a transfer takes two cycles per word and one more per burst. */
  lemma {:induction false} WaitsExact(n: nat, left: nat)
    requires 0 < n
    ensures Waits(n, left) == 2 * left + (left + n - 1) / n
    decreases left
  {
    if left == 0 {
      QuotientIs(n - 1, n, 0, n - 1);
    } else if left <= n {
      QuotientIs(left + n - 1, n, 1, left - 1);
    } else {
      WaitsExact(n, left - n);
      OneMoreFits(left - 1, n);
    }
  }

  /** No two words are moved to the same address. */
  ghost predicate DistinctTargets(m: Moves) {
    forall i, j :: 0 <= i < j < |m.dst| ==> m.dst[i] != m.dst[j]
  }

  /** The burst that moves word i. */
  function BurstOf(i: nat, n: nat): nat
    requires 0 < n
  {
    if i < n then 0 else 1 + BurstOf(i - n, n)
  }

  /** A burst starts at this word. */
  predicate StartsBurst(offset: nat, n: nat)
    requires 0 < n
  {
    offset == 0 || (n <= offset && StartsBurst(offset - n, n))
  }

  /** No word is overwritten by an earlier burst before it is read. */
  ghost predicate NotClobbered(m: Moves, n: nat)
    requires 0 < n
  {
    forall i, j :: 0 <= i < |m.dst| && 0 <= j < |m.src| && BurstOf(i, n) < BurstOf(j, n) ==> m.dst[i] != m.src[j]
  }

  lemma {:induction false} EarlierBurst(i: nat, j: nat, n: nat, offset: nat)
    requires 0 < n && i < offset <= j && StartsBurst(offset, n)
    ensures BurstOf(i, n) < BurstOf(j, n)
    decreases offset
  {
    if n <= i {
      EarlierBurst(i - n, j - n, n, offset - n);
    }
  }

  /** A burst leaves alone what it does not write. */
  lemma {:induction false} WriteElsewhere<T>(m: Moves, mem: seq<T>, offset: nat, data: seq<T>, a: nat)
    requires Fits(m, |mem|) && offset + |data| <= |m.dst| && a < |mem|
    requires forall k :: offset <= k < offset + |data| ==> m.dst[k] != a
    ensures Write(m, mem, offset, data)[a] == mem[a]
    decreases |data|
  {
    if data != [] {
      WriteElsewhere(m, mem, offset, data[..|data| - 1], a);
    }
  }

  /** A word whose target no other word shares arrives there. */
  lemma {:induction false} WriteThere<T>(m: Moves, mem: seq<T>, offset: nat, data: seq<T>, k: nat)
    requires Fits(m, |mem|) && offset <= k < offset + |data| <= |m.dst|
    requires forall j :: 0 <= j < |m.dst| && j != k ==> m.dst[j] != m.dst[k]
    ensures Write(m, mem, offset, data)[m.dst[k]] == data[k - offset]
    decreases |data|
  {
    if k != offset + |data| - 1 {
      WriteThere(m, mem, offset, data[..|data| - 1], k);
    }
  }

  /** One word through one burst: it waits at its source until its burst reads it, and stays at its
      target from then on. */
  lemma WordThroughBurst<T>(m: Moves, n: nat, mem: seq<T>, offset: nat, steps: nat, k: nat, word: T)
    requires Fits(m, |mem|) && 0 < n && steps <= n && offset + steps <= |m.src| && k < |m.src|
    requires StartsBurst(offset, n) && (k < offset + steps || steps == n)
    requires forall j :: 0 <= j < |m.dst| && j != k ==> m.dst[j] != m.dst[k]
    requires forall i :: 0 <= i < |m.dst| && BurstOf(i, n) < BurstOf(k, n) ==> m.dst[i] != m.src[k]
    requires mem[if k < offset then m.dst[k] else m.src[k]] == word
    ensures Write(m, mem, offset, Read(m, mem, offset, steps))[if k < offset + steps then m.dst[k] else m.src[k]] == word
  {
    var data := Read(m, mem, offset, steps);
    if k < offset {
      WriteElsewhere(m, mem, offset, data, m.dst[k]);
    } else if k < offset + steps {
      WriteThere(m, mem, offset, data, k);
    } else {
      forall i | offset <= i < offset + steps ensures m.dst[i] != m.src[k] {
        EarlierBurst(i, k, n, offset + n);
      }
      WriteElsewhere(m, mem, offset, data, m.src[k]);
    }
  }

  /** One word through the remaining bursts. */
  lemma {:induction false} WordArrives<T>(m: Moves, n: nat, mem: seq<T>, offset: nat, left: nat, k: nat, word: T)
    requires Fits(m, |mem|) && 0 < n && offset + left == |m.src| && k < |m.src|
    requires left != 0 ==> StartsBurst(offset, n)
    requires forall j :: 0 <= j < |m.dst| && j != k ==> m.dst[j] != m.dst[k]
    requires forall i :: 0 <= i < |m.dst| && BurstOf(i, n) < BurstOf(k, n) ==> m.dst[i] != m.src[k]
    requires mem[if k < offset then m.dst[k] else m.src[k]] == word
    ensures Moved(m, n, mem, offset, left)[m.dst[k]] == word
    decreases left
  {
    if left != 0 {
      var steps := Min(n, left);
      WordThroughBurst(m, n, mem, offset, steps, k, word);
      WordArrives(m, n, Write(m, mem, offset, Read(m, mem, offset, steps)), offset + steps, left - steps, k, word);
    }
  }

  /** An address that is no target is left alone. */
  lemma {:induction false} OthersStay<T>(m: Moves, n: nat, mem: seq<T>, offset: nat, left: nat, a: nat)
    requires Fits(m, |mem|) && 0 < n && offset + left == |m.src| && a < |mem|
    requires forall k :: 0 <= k < |m.dst| ==> m.dst[k] != a
    ensures Moved(m, n, mem, offset, left)[a] == mem[a]
    decreases left
  {
    if left != 0 {
      var steps := Min(n, left);
      var data := Read(m, mem, offset, steps);
      WriteElsewhere(m, mem, offset, data, a);
      OthersStay(m, n, Write(m, mem, offset, data), offset + steps, left - steps, a);
    }
  }

  /** Every word is where it was to go, and nothing else has been touched. */
  ghost predicate AllMoved<T>(m: Moves, before: seq<T>, after: seq<T>)
    requires Fits(m, |before|) && |before| == |after|
  {
    && (forall k :: 0 <= k < |m.src| ==> after[m.dst[k]] == before[m.src[k]])
    && (forall a :: 0 <= a < |before| && a !in m.dst ==> after[a] == before[a])
  }

  /** A transfer moves every word and touches nothing else, for every size, burst length and address
      pattern, if no two words share a target and no burst overwrites a word a later one reads. */
  lemma TransferMoves<T>(m: Moves, n: nat, mem: seq<T>)
    requires Fits(m, |mem|) && 0 < n && DistinctTargets(m) && NotClobbered(m, n)
    ensures AllMoved(m, mem, Moved(m, n, mem, 0, |m.src|))
  {
    var after := Moved(m, n, mem, 0, |m.src|);
    forall k | 0 <= k < |m.src| ensures after[m.dst[k]] == mem[m.src[k]] {
      WordArrives(m, n, mem, 0, |m.src|, k, mem[m.src[k]]);
    }
    forall a | 0 <= a < |mem| && a !in m.dst ensures after[a] == mem[a] {
      OthersStay(m, n, mem, 0, |m.src|, a);
    }
  }

  /** If targets are apart from sources, each target ends up equal to its source, which is unchanged. */
  lemma DisjointTransferCopies<T>(m: Moves, n: nat, mem: seq<T>)
    requires Fits(m, |mem|) && 0 < n && DistinctTargets(m)
    requires forall i, j :: 0 <= i < |m.dst| && 0 <= j < |m.src| ==> m.dst[i] != m.src[j]
    ensures var after := Moved(m, n, mem, 0, |m.src|);
            forall k :: 0 <= k < |m.src| ==> after[m.dst[k]] == after[m.src[k]] == mem[m.src[k]]
  {
    TransferMoves(m, n, mem);
  }

  /** A transfer that fits in one burst may even overlap its own source. */
  lemma SingleBurstMayOverlap<T>(m: Moves, n: nat, mem: seq<T>)
    requires Fits(m, |mem|) && 0 < n && |m.src| <= n && DistinctTargets(m)
    ensures AllMoved(m, mem, Moved(m, n, mem, 0, |m.src|))
  {
    TransferMoves(m, n, mem);
  }
}
