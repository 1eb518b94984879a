/** The same FIFO as it is synthesised. Requests are combinational for both process kinds and
    carried out at the edge that ends the cycle, so the registers hold the true queue. */
module RtlFifo {
  import opened QueueChannel
  import Ring

  class Fifo<T> {
    const cfg: Config
    const length: nat
    const zero: T
    const buffer: array<T>

    /** What the ring stores, oldest first. */
    ghost var stored: seq<T>

    // Registers, written at a clock edge
    var popIndx: nat
    var pushIndx: nat
    var elementNumD: nat

    // Combinational requests of the two processes
    var putReq: bool
    var getReq: bool
    var dataIn: T

    // Outputs of asyncProc
    var readyPush: bool
    var outValid: bool
    var dataOut: T
    var elementNum: int

    ghost predicate Valid()
      reads this, buffer
    {
      && 0 < length == buffer.Length
      && popIndx < length
      && |stored| == elementNumD <= length
      && pushIndx == Ring.Wrap(popIndx + elementNumD, length)
      && stored == Ring.Contents(buffer[..], popIndx, elementNumD)
    }

    /** The outputs match the registers and requests they are computed from. */
    ghost predicate OutputsFollow()
      reads this
    {
      && outValid == ValidFlag(cfg, stored, putReq)
      && readyPush == ReadyFlag(cfg, length, stored, getReq)
      && (outValid ==> dataOut == if stored != [] then stored[0] else dataIn)
      && elementNum == elementNumD + (if putReq then 1 else 0) - (if getReq then 1 else 0)
    }

    constructor (cfg: Config, length: nat, zero: T)
      requires 0 < length
      ensures Valid() && fresh(buffer)
      ensures this.cfg == cfg && this.length == length && this.zero == zero
      ensures stored == []
    {
      this.cfg, this.length, this.zero := cfg, length, zero;
      buffer := new T[length](_ => zero);
      stored := [];
      popIndx, pushIndx, elementNumD := 0, 0, 0;
      putReq, getReq := false, false;
      dataIn, dataOut := zero, zero;
      readyPush, outValid, elementNum := false, false, 0;
    }

    method Reset()
      requires Valid()
      modifies this`popIndx, this`pushIndx, this`elementNumD, this`putReq, this`getReq, this`dataIn,
               this`stored, buffer
      ensures Valid() && stored == [] && buffer[0] == zero
    {
      popIndx, pushIndx, elementNumD, stored := 0, 0, 0, [];
      buffer[0] := zero;
      putReq, dataIn, getReq := false, zero, false;
    }

    method AsyncProc()
      requires Valid()
      modifies this`readyPush, this`outValid, this`dataOut, this`elementNum
      ensures OutputsFollow()
    {
      var valid := elementNumD != 0;
      var ready := elementNumD != length;
      var shown := buffer[popIndx];
      assert valid ==> shown == stored[0];
      outValid := if cfg.syncValid || cfg.threadPut then valid else putReq || valid;
      dataOut := if cfg.syncValid || cfg.threadPut || valid then shown else dataIn;
      readyPush := if cfg.syncReady || cfg.threadGet then ready else getReq || ready;
      elementNum := if getReq && !putReq then elementNumD - 1
                    else if !getReq && putReq then elementNumD + 1
                    else elementNumD;
    }

    /** The clock-edge process. A request is up only if the settled network grants it. */
    method SyncProc()
      requires Valid() && OutputsFollow()
      requires putReq ==> readyPush
      requires getReq ==> outValid
      modifies this`popIndx, this`pushIndx, this`elementNumD, this`stored, buffer
      ensures Valid()
      ensures stored == (old(stored) + (if putReq then [dataIn] else []))[(if getReq then 1 else 0)..]
    {
      MoveRing();
      elementNumD := elementNum;
    }

    /** The part of syncProc that moves the indices and writes the pushed element. */
    method MoveRing()
      requires 0 < length == buffer.Length && popIndx < length && |stored| <= length
      requires pushIndx == Ring.Wrap(popIndx + |stored|, length)
      requires stored == Ring.Contents(buffer[..], popIndx, |stored|)
      requires getReq ==> putReq || stored != []
      requires putReq ==> getReq || |stored| < length
      modifies this`popIndx, this`pushIndx, this`stored, buffer
      ensures popIndx < length
      ensures stored == (old(stored) + (if putReq then [dataIn] else []))[(if getReq then 1 else 0)..]
      ensures |stored| == |old(stored)| + (if putReq then 1 else 0) - (if getReq then 1 else 0) <= length
      ensures pushIndx == Ring.Wrap(popIndx + |stored|, length)
      ensures stored == Ring.Contents(buffer[..], popIndx, |stored|)
    {
      ghost var start, count, was := popIndx, |stored|, buffer[..];
      if getReq {
        popIndx := if popIndx == length - 1 then 0 else popIndx + 1;
      }
      if putReq {
        buffer[pushIndx] := dataIn;
        pushIndx := if pushIndx == length - 1 then 0 else pushIndx + 1;
      }
      Ring.Edge(was, start, count, putReq, dataIn, getReq, buffer[..], popIndx, pushIndx);
      stored := (stored + if putReq then [dataIn] else [])[(if getReq then 1 else 0)..];
    }

    method Put(data: T, mask: bool) returns (ok: bool)
      modifies this`putReq, this`dataIn
      ensures ok == putReq == (readyPush && mask) && dataIn == data
    {
      dataIn := data;
      putReq := readyPush && mask;
      ok := readyPush && mask;
    }

    method Get(enable: bool) returns (data: T, ok: bool)
      modifies this`getReq
      ensures ok == getReq == (outValid && enable) && data == dataOut
    {
      data := dataOut;
      getReq := outValid && enable;
      ok := outValid && enable;
    }

    /** The putting process, thread or method. The request is cleared before each evaluation: by
        the signal itself in a thread, by resetting it in a method. */
    method PutProc(call: PutCall<T>)
      modifies this`putReq, this`dataIn
      ensures putReq == (readyPush && call.TryPut? && call.mask)
      ensures call.TryPut? ==> dataIn == call.data
    {
      putReq := false;
      match call {
        case NoPut =>
        case ClearPut => putReq, dataIn := false, zero;
        case TryPut(data, mask) => var ok := Put(data, mask);
      }
    }

    method GetProc(call: GetCall)
      modifies this`getReq
      ensures getReq == (outValid && call.TryGet? && call.enable)
    {
      getReq := false;
      match call {
        case NoGet =>
        case ClearGet => getReq := false;
        case TryGet(enable) => var data, ok := Get(enable);
      }
    }

    method Evaluate(d: Demand<T>)
      requires Valid()
      modifies this`readyPush, this`outValid, this`dataOut, this`elementNum,
               this`putReq, this`getReq, this`dataIn
      ensures d.put.TryPut? ==> dataIn == d.put.data
      ensures putReq == (ReadyFlag(cfg, length, stored, old(getReq)) && WantsPut(d))
      ensures getReq == (ValidFlag(cfg, stored, old(putReq)) && WantsGet(d))
    {
      AsyncProc();
      PutProc(d.put);
      GetProc(d.get);
    }

    /** Evaluates the combinational processes until nothing changes: two rounds are enough. */
    method Settle(d: Demand<T>)
      requires Valid()
      modifies this`readyPush, this`outValid, this`dataOut, this`elementNum,
               this`putReq, this`getReq, this`dataIn
      ensures Valid() && OutputsFollow()
      ensures putReq == (readyPush && WantsPut(d))
      ensures getReq == (outValid && WantsGet(d))
      ensures d.put.TryPut? ==> dataIn == d.put.data
    {
      Evaluate(d);
      Evaluate(d);
      AsyncProc();
    }

    /** Which requests the settled network grants: a put needs room, or a full FIFO with a method that
        gets in the same cycle; a get needs an element, or an empty FIFO with a method that puts. */
    lemma WhatIsGranted(d: Demand<T>)
      requires Valid() && OutputsFollow()
      requires putReq == (readyPush && WantsPut(d)) && getReq == (outValid && WantsGet(d))
      ensures putReq <==> WantsPut(d) && (|stored| < length || (!cfg.threadGet && !cfg.syncReady && WantsGet(d)))
      ensures getReq <==> WantsGet(d) && (stored != [] || (!cfg.threadPut && !cfg.syncValid && WantsPut(d)))
      ensures putReq && |stored| == length ==> getReq
      ensures getReq && stored == [] ==> putReq
    {
      if stored == [] {
        assert readyPush;
      } else {
        assert outValid;
      }
    }

    /** One whole cycle, in every configuration. */
    method Cycle(d: Demand<T>) returns (o: Outcome<T>)
      requires Valid()
      modifies this, buffer
      ensures Valid()
      ensures o == Resolve(cfg, length, old(stored), d)
      ensures stored == After(old(stored), d, o)
    {
      Settle(d);
      o := Outcome(readyPush, outValid, putReq, getReq, if outValid then Some(dataOut) else None);
      SettledIsUnique(cfg, length, stored, d, o);
      SyncProc();
    }
  }
}
