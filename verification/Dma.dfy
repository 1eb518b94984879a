/** The burst engine, cycle by cycle, against a memory that answers one cycle later. */
module Dma {
  import opened Division
  import opened Transfer

  /** A stable configuration. Addresses and sizes wrap around at `span`, two to the address width. */
  datatype Config = Config(span: nat, src: nat, srcStride: nat, dst: nat, dstStride: nat, size: nat)

  ghost predicate Valid(cfg: Config) {
    0 < cfg.span && cfg.size < cfg.span
  }

  function Addr(cfg: Config, base: nat, stride: nat, k: nat): (a: nat)
    requires 0 < cfg.span
    ensures a < cfg.span
  {
    (base + k * stride) % cfg.span
  }

  /** The words the configuration asks to move. */
  function MovesOf(cfg: Config): (m: Moves)
    requires 0 < cfg.span
    ensures |m.src| == |m.dst| == cfg.size
    ensures forall k :: 0 <= k < cfg.size ==> m.src[k] == Addr(cfg, cfg.src, cfg.srcStride, k)
    ensures forall k :: 0 <= k < cfg.size ==> m.dst[k] == Addr(cfg, cfg.dst, cfg.dstStride, k)
  {
    Moves(seq(cfg.size, k requires 0 <= k < cfg.size => Addr(cfg, cfg.src, cfg.srcStride, k)),
          seq(cfg.size, k requires 0 <= k < cfg.size => Addr(cfg, cfg.dst, cfg.dstStride, k)))
  }

  /** The addresses of one side of a transfer: the first word is at the base, each one further is one
      stride behind, all modulo the address width. */
  ghost predicate Strided(span: nat, base: nat, stride: nat, addrs: seq<nat>)
    requires 0 < span
  {
    && (addrs != [] ==> addrs[0] == base % span)
    && forall k :: 0 <= k < |addrs| - 1 ==> addrs[k + 1] == (addrs[k] + stride) % span
  }

  lemma MovesAreStrided(cfg: Config)
    requires 0 < cfg.span
    ensures Strided(cfg.span, cfg.src, cfg.srcStride, MovesOf(cfg).src)
    ensures Strided(cfg.span, cfg.dst, cfg.dstStride, MovesOf(cfg).dst)
  {
    var m := MovesOf(cfg);
    forall k | 0 <= k < cfg.size - 1
      ensures m.src[k + 1] == (m.src[k] + cfg.srcStride) % cfg.span
      ensures m.dst[k + 1] == (m.dst[k] + cfg.dstStride) % cfg.span
    {
      NextAddr(cfg, cfg.src, cfg.srcStride, k);
      NextAddr(cfg, cfg.dst, cfg.dstStride, k);
    }
  }

  lemma NextAddr(cfg: Config, base: nat, stride: nat, k: nat)
    requires 0 < cfg.span
    ensures Addr(cfg, base, stride, k + 1) == (Addr(cfg, base, stride, k) + stride) % cfg.span
  {
    assert (k + 1) * stride == k * stride + stride;
    AddInside(base + k * stride, stride, cfg.span);
  }

  /** The value of the request signals: what one clock edge hands to the memory. */
  datatype Request<+T> = Request(on: bool, write: bool, addr: nat, data: T)

  /** The value of the response signals. */
  datatype Response<+T> = Response(on: bool, write: bool, data: T)

  class Engine<T> {
    const n: nat
    const cfg: Config
    const memory: array<T>
    const dataBuff: array<T>

    // Signals: the value read at a clock edge, and the value written since the last one
    var req: Request<T>
    var reqNext: Request<T>
    var rsp: Response<T>
    var rspNext: Response<T>

    /** Clock cycles spent in the burst loops. */
    var waits: nat

    ghost predicate Ok()
      reads memory, dataBuff
    {
      && Valid(cfg) && cfg.span <= memory.Length && dataBuff.Length == n && memory != dataBuff
    }

    /** The words per burst: the buffer length as an address. */
    function Burst(): nat
      requires 0 < cfg.span
    {
      n % cfg.span
    }

    constructor (n: nat, cfg: Config, memory: array<T>, blank: T)
      requires Valid(cfg) && cfg.span <= memory.Length
      ensures Ok() && this.n == n && this.cfg == cfg && this.memory == memory && fresh(dataBuff)
      ensures waits == 0
    {
      this.n, this.cfg, this.memory := n, cfg, memory;
      dataBuff := new T[n](_ => blank);
      req, reqNext := Request(false, false, 0, blank), Request(false, false, 0, blank);
      rsp, rspNext := Response(false, false, blank), Response(false, false, blank);
      waits := 0;
    }

    /** The memory process at a clock edge. */
    method MemoryEdge()
      requires req.on ==> req.addr < memory.Length
      modifies `rspNext, memory
      ensures memory[..] == if req.on && req.write then old(memory[..])[req.addr := req.data] else old(memory[..])
      ensures rspNext == Response(req.on, if req.on then req.write else old(rspNext.write),
                                  if req.on && !req.write then old(memory[req.addr]) else old(rspNext.data))
    {
      rspNext := rspNext.(on := false);
      if req.on {
        if req.write {
          memory[req.addr] := req.data;
        } else {
          rspNext := rspNext.(data := memory[req.addr]);
        }
        rspNext := rspNext.(on := true, write := req.write);
      }
    }

    /** One clock cycle: what both sides wrote becomes visible, then the memory runs at the edge at
        which the engine goes on. */
    method Wait()
      requires reqNext.on ==> reqNext.addr < memory.Length
      modifies `req, `rsp, `rspNext, `waits, memory
      ensures req == reqNext && rsp == old(rspNext) && waits == old(waits) + 1
      ensures memory[..] == if req.on && req.write then old(memory[..])[req.addr := req.data] else old(memory[..])
      ensures req.on ==> rspNext.on && rspNext.write == req.write
      ensures req.on && !req.write ==> rspNext.data == old(memory[..])[req.addr]
      ensures !req.on ==> !rspNext.on && rspNext.data == old(rspNext.data)
    {
      req, rsp := reqNext, rspNext;
      waits := waits + 1;
      MemoryEdge();
    }

    /** The read half of a burst: requests go out back to back, each answer is picked up one cycle
        after its request, the last one after the loop. */
    method ReadBurst(offset: nat, steps: nat)
      requires Ok() && 0 < steps <= n && offset + steps <= cfg.size && reqNext.on && !reqNext.write
      modifies `req, `reqNext, `rsp, `rspNext, `waits, memory, dataBuff
      ensures memory[..] == old(memory[..])
      ensures dataBuff[..steps] == Read(MovesOf(cfg), memory[..], offset, steps)
      ensures waits == old(waits) + steps + 1
    {
      ghost var mem, m := memory[..], MovesOf(cfg);
      for i := 0 to steps
        invariant memory[..] == mem && reqNext.on && !reqNext.write && waits == old(waits) + i
        invariant 0 < i ==> req.on && !req.write && rspNext.on && !rspNext.write && rspNext.data == mem[m.src[offset + i - 1]]
        invariant forall j :: 0 <= j < i - 1 ==> dataBuff[j] == mem[m.src[offset + j]]
      {
        reqNext := reqNext.(addr := Addr(cfg, cfg.src, cfg.srcStride, i + offset));
        Wait();
        if i > 0 {
          assert rsp.write == req.write && rsp.on;
          dataBuff[i - 1] := rsp.data;
        }
      }
      reqNext := reqNext.(on := false);
      Wait();
      dataBuff[steps - 1] := rsp.data;
    }

    /** The write half of a burst. */
    method WriteBurst(offset: nat, steps: nat)
      requires Ok() && steps <= n && offset + steps <= cfg.size && reqNext.on && reqNext.write
      modifies `req, `reqNext, `rsp, `rspNext, `waits, memory
      ensures memory[..] == Write(MovesOf(cfg), old(memory[..]), offset, dataBuff[..steps])
      ensures waits == old(waits) + steps && reqNext.on && reqNext.write
    {
      ghost var mem, m := memory[..], MovesOf(cfg);
      for i := 0 to steps
        invariant reqNext.on && reqNext.write && waits == old(waits) + i
        invariant memory[..] == Write(m, mem, offset, dataBuff[..i])
      {
        reqNext := reqNext.(addr := Addr(cfg, cfg.dst, cfg.dstStride, i + offset));
        reqNext := reqNext.(data := dataBuff[i]);
        Wait();
        assert dataBuff[..i + 1][..i] == dataBuff[..i];
      }
    }

    /** One burst: it reads all its words before it writes the first one. */
    method OneBurst(offset: nat, steps: nat)
      requires Ok() && 0 < steps <= n && offset + steps <= cfg.size && reqNext.on
      modifies `req, `reqNext, `rsp, `rspNext, `waits, memory, dataBuff
      ensures Fits(MovesOf(cfg), memory.Length)
      ensures memory[..] == Write(MovesOf(cfg), old(memory[..]), offset, Read(MovesOf(cfg), old(memory[..]), offset, steps))
      ensures waits == old(waits) + 2 * steps + 1 && reqNext.on
    {
      reqNext := reqNext.(write := false);
      ReadBurst(offset, steps);
      reqNext := reqNext.(on := true);
      reqNext := reqNext.(write := true);
      WriteBurst(offset, steps);
    }

    static lemma NextBurst(m: Moves, n: nat, mem: seq<T>, mem': seq<T>, offset: nat, left: nat, steps: nat)
      requires Fits(m, |mem|) && 0 < n && 0 < left && offset + left == |m.src| && steps == Min(n, left)
      requires mem' == Write(m, mem, offset, Read(m, mem, offset, steps))
      ensures Moved(m, n, mem, offset, left) == Moved(m, n, mem', offset + steps, left - steps)
      ensures Waits(n, left) == 2 * steps + 1 + Waits(n, left - steps)
    {
    }

    /** One burst leaves the remaining ones to be done from where it stops. */
    method BurstOfMany(offset: nat, steps: nat, ghost burst: nat, ghost left: nat,
                       ghost m: Moves, ghost done: seq<T>, ghost total: nat)
      requires Ok() && 0 < burst <= n && 0 < left && offset + left == cfg.size && steps == Min(burst, left) && reqNext.on
      requires m == MovesOf(cfg) && Underway(m, burst, memory[..], offset, left, waits, done, total)
      modifies `req, `reqNext, `rsp, `rspNext, `waits, memory, dataBuff
      ensures Underway(m, burst, memory[..], offset + steps, left - steps, waits, done, total) && reqNext.on
    {
      OneBurst(offset, steps);
      NextBurst(m, burst, old(memory[..]), memory[..], offset, left, steps);
    }

    /** The burst loop. */
    method AllBursts(burst: nat)
      requires Ok() && burst <= n && (0 < burst || cfg.size == 0) && reqNext.on
      modifies `req, `reqNext, `rsp, `rspNext, `waits, memory, dataBuff
      ensures Fits(MovesOf(cfg), memory.Length)
      ensures memory[..] == Moved(MovesOf(cfg), burst, old(memory[..]), 0, cfg.size)
      ensures waits == old(waits) + Waits(burst, cfg.size)
    {
      AllFit();
      BurstLoop(burst, MovesOf(cfg), Moved(MovesOf(cfg), burst, memory[..], 0, cfg.size), waits + Waits(burst, cfg.size));
    }

    method BurstLoop(burst: nat, ghost m: Moves, ghost done: seq<T>, ghost total: nat)
      requires Ok() && burst <= n && (0 < burst || cfg.size == 0) && reqNext.on
      requires m == MovesOf(cfg) && Underway(m, burst, memory[..], 0, cfg.size, waits, done, total)
      modifies `req, `reqNext, `rsp, `rspNext, `waits, memory, dataBuff
      ensures Underway(m, burst, memory[..], cfg.size, 0, waits, done, total)
    {
      var toMove: nat, offset: nat := cfg.size, 0;
      while toMove > 0
        invariant offset + toMove == cfg.size && reqNext.on && Underway(m, burst, memory[..], offset, toMove, waits, done, total)
      {
        var steps := if burst < toMove then burst else toMove;
        BurstOfMany(offset, steps, burst, toMove, m, done, total);
        toMove := toMove - steps;
        offset := offset + steps;
      }
    }

    lemma AllFit()
      requires Ok()
      ensures Fits(MovesOf(cfg), memory.Length)
    {
    }

    /** The words per burst are the buffer length where that is an address, and its remainder else. */
    lemma BurstIs()
      requires 0 < cfg.span
      ensures n < cfg.span ==> Burst() == n
      ensures Burst() < cfg.span && exists q: nat :: n == q * cfg.span + Burst()
    {
      assert n == (n / cfg.span) * cfg.span + n % cfg.span;
    }

    /** With a buffer whose length is zero as an address, every pass of the burst loop leaves all words
        to be moved, and the last word of its read half goes to a slot outside the buffer. */
    lemma EmptyBursts(k: nat)
      requires Ok() && Burst() == 0 && 0 < cfg.size && n < WORD
      ensures LeftAfter(Burst(), cfg.size, k) == cfg.size
      ensures n <= LastSlot(Min(Burst(), LeftAfter(Burst(), cfg.size, k)))
    {
      LeftAfterIs(0, cfg.size, k);
      LastSlotInBufferIff(0, n);
    }

    /** The transfer of main_proc, from the start to the interrupt. It gets there exactly under this
        condition. */
    method MainProc() returns (interruptSet: bool)
      requires Ok() && (0 < Burst() || cfg.size == 0)
      modifies this, memory, dataBuff
      ensures interruptSet && !reqNext.on && Fits(MovesOf(cfg), memory.Length)
      ensures memory[..] == Moved(MovesOf(cfg), Burst(), old(memory[..]), 0, cfg.size)
      ensures waits == old(waits) + Waits(Burst(), cfg.size)
    {
      reqNext := reqNext.(on := true);
      AllBursts(n % cfg.span);
      reqNext := reqNext.(on := false);
      interruptSet := true;
    }
  }

  /** The clock cycles of the bursts of a transfer: two per word and one per burst. */
  function Cycles(size: nat, burst: nat): (c: nat)
    requires 0 < burst || size == 0
    ensures c == Waits(burst, size)
  {
    if size == 0 then 0 else WaitsExact(burst, size); 2 * size + (size + burst - 1) / burst
  }

  lemma EveryWordArrives<T>(m: Moves, burst: nat, mem: seq<T>)
    requires Fits(m, |mem|) && (0 < burst || m.src == []) && DistinctTargets(m) && (0 < burst ==> NotClobbered(m, burst))
    ensures AllMoved(m, mem, Moved(m, burst, mem, 0, |m.src|))
  {
    if 0 < burst { TransferMoves(m, burst, mem); }
  }

  /** A transfer as its user sees it: every word arrives and nothing else changes, in exactly that
      many cycles. */
  method CopyMemory<T>(dma: Engine<T>)
    requires dma.Ok() && dma.waits == 0 && (0 < dma.Burst() || dma.cfg.size == 0)
    requires DistinctTargets(MovesOf(dma.cfg)) && (0 < dma.Burst() ==> NotClobbered(MovesOf(dma.cfg), dma.Burst()))
    modifies dma, dma.memory, dma.dataBuff
    ensures Fits(MovesOf(dma.cfg), dma.memory.Length)
    ensures AllMoved(MovesOf(dma.cfg), old(dma.memory[..]), dma.memory[..])
    ensures dma.waits == Cycles(dma.cfg.size, dma.Burst())
    ensures Strided(dma.cfg.span, dma.cfg.src, dma.cfg.srcStride, MovesOf(dma.cfg).src)
    ensures Strided(dma.cfg.span, dma.cfg.dst, dma.cfg.dstStride, MovesOf(dma.cfg).dst)
    ensures 0 < dma.n < dma.cfg.span ==> dma.waits == 2 * dma.cfg.size + (dma.cfg.size + dma.n - 1) / dma.n
  {
    MovesAreStrided(dma.cfg);
    dma.BurstIs();
    if 0 < dma.n < dma.cfg.span { WaitsExact(dma.n, dma.cfg.size); }
    ghost var m, burst, mem := MovesOf(dma.cfg), dma.Burst(), dma.memory[..];
    var done := dma.MainProc();
    EveryWordArrives(m, burst, mem);
  }
}
