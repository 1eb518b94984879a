/** The pipe as it is: busy bits are moved by a combinational process in one module, the data by a
    clocked process in another one, and an enable vector is all that connects the two. */
module Pipe {
  import opened QueueChannel
  import P = PipeChannel

  /** The chain of data registers. */
  class PlReg<T> {
    const regs: array<T>
    var dataOut: T

    ghost predicate Valid()
      reads this, regs
    {
      0 < regs.Length && dataOut == regs[regs.Length - 1]
    }

    constructor (n: nat, zero: T)
      requires 0 < n
      ensures Valid() && fresh(regs) && regs.Length == n
    {
      regs := new T[n](_ => zero);
      dataOut := zero;
    }

    /** Shifts the enabled registers in place, from the output end down. */
    method PlProc(enable: seq<bool>, dataIn: T)
      requires Valid() && |enable| == regs.Length
      modifies this, regs
      ensures Valid()
      ensures forall i :: 0 <= i < regs.Length ==>
                regs[i] == if !enable[i] then old(regs[i]) else if i == 0 then dataIn else old(regs[i - 1])
    {
      var i := regs.Length - 1;
      while i != 0
        invariant 0 <= i < regs.Length
        invariant forall j :: 0 <= j <= i ==> regs[j] == old(regs[j])
        invariant forall j :: i < j < regs.Length ==> regs[j] == if enable[j] then old(regs[j - 1]) else old(regs[j])
      {
        if enable[i] { regs[i] := regs[i - 1]; }
        i := i - 1;
      }
      if enable[0] { regs[0] := dataIn; }
      dataOut := regs[regs.Length - 1];
    }
  }

  class Pipe<T> {
    const ends: P.Ends
    const n: nat
    const zero: T
    const reg: PlReg<T>

    // Registers
    const busyRegD: array<bool>
    var regFullD: bool
    var dataRegD: T
    var putReqD: bool
    var getReqD: bool

    // Requests and input data
    var putReq: bool
    var getReq: bool
    var dataIn: T

    // Outputs of asyncProc
    const busyReg: array<bool>
    var enable: seq<bool>
    var regFull: bool
    var dataReg: T
    var readyPush: bool
    var outValid: bool

    ghost predicate Valid()
      reads reg, reg.regs
    {
      && reg.Valid() && busyReg != busyRegD
      && {busyReg as object, busyRegD as object} !! {reg.regs as object}
      && 0 < n == reg.regs.Length == busyReg.Length == busyRegD.Length
    }

    /** The pipeline the registers stand for. */
    ghost function Holds(): P.State<T>
      reads `regFullD, `dataRegD, `putReq, `putReqD, `getReq, `getReqD, `dataIn, reg.regs, busyRegD
    {
      P.State(if regFullD && !(ends.threadGet && getReq != getReqD) then [dataRegD] else [],
              busyRegD[..], reg.regs[..],
              if ends.threadPut && putReq != putReqD then [dataIn] else [])
    }

    constructor (ends: P.Ends, n: nat, zero: T)
      requires 0 < n
      ensures Valid() && fresh(reg) && fresh(reg.regs) && fresh(busyReg) && fresh(busyRegD)
      ensures this.ends == ends && this.n == n
      ensures P.Queue(Holds()) == []
    {
      this.ends, this.n, this.zero := ends, n, zero;
      reg := new PlReg(n, zero);
      busyReg := new bool[n](_ => false);
      busyRegD := new bool[n](_ => false);
      regFullD, dataRegD, putReqD, getReqD := false, zero, false, false;
      putReq, getReq, dataIn := false, false, zero;
      enable, regFull, dataReg, readyPush, outValid := [], false, zero, false, false;
      new;
      NothingBusy(busyRegD[..], reg.regs[..], n);
    }

    static lemma {:induction false} NothingBusy(busy: seq<bool>, regs: seq<T>, k: nat)
      requires k <= |busy| == |regs| && forall i :: 0 <= i < |busy| ==> !busy[i]
      ensures P.Items(busy, regs, k) == []
    {
      if k != 0 { NothingBusy(busy, regs, k - 1); }
    }

    /** The shift loop: from the output end down, an element below a free stage moves into it. In
        place this frees its own stage for the next one, so every element below a free stage moves
        by exactly one. */
    method Shift(busyRegs: array<bool>) returns (enableRegs: seq<bool>)
      requires 0 < busyRegs.Length
      modifies busyRegs
      ensures busyRegs[..] == P.Collapsed(old(busyRegs[..]))
      ensures |enableRegs| == busyRegs.Length && !enableRegs[0]
      ensures forall i :: 0 <= i < busyRegs.Length ==> enableRegs[i] == P.Shifts(old(busyRegs[..]), i)
    {
      ghost var busy := busyRegs[..];
      var i := busyRegs.Length - 1;
      enableRegs := seq(busyRegs.Length, _ => false);
      while i != 0
        invariant 0 <= i < busyRegs.Length == |enableRegs|
        invariant forall j :: 0 <= j < i ==> busyRegs[j] == busy[j]
        invariant busyRegs[i] == (busy[i] && !P.Hole(busy, i + 1))
        invariant forall j :: i < j < busyRegs.Length ==> busyRegs[j] == P.Collapsed(busy)[j]
        invariant forall j :: 0 <= j < busyRegs.Length ==> enableRegs[j] == (i < j && P.Shifts(busy, j))
      {
        if !busyRegs[i] && busyRegs[i - 1] {
          busyRegs[i], busyRegs[i - 1] := true, false;
          enableRegs := enableRegs[i := true];
        }
        i := i - 1;
      }
    }

    ghost predicate Push()
      reads `putReq, `putReqD
    {
      if ends.threadPut then putReq != putReqD else putReq
    }

    ghost predicate Pop()
      reads `getReq, `getReqD
    {
      if ends.threadGet then getReq != getReqD else getReq
    }

    /** The outputs are those of this pipeline state and these requests. */
    ghost predicate Drives(s: P.State<T>, push: bool, pop: bool)
      requires 0 < |s.busy| == |s.regs|
      reads `enable, `regFull, `dataReg, `readyPush, `outValid, busyReg
    {
      var entering, busy := push && P.Ready(s), P.BusyPulled(s);
      && readyPush == P.Ready(s)
      && outValid == (P.Shown(s) != []) && (outValid ==> dataReg == P.Shown(s)[0])
      && regFull == (outValid && (ends.threadGet || !pop))
      && busyReg[..] == (if entering then P.Collapsed(busy)[0 := true] else P.Collapsed(busy))
      && |enable| == |s.busy| && enable[0] == entering
      && forall i :: 0 < i < |s.busy| ==> enable[i] == P.Shifts(busy, i)
    }

    /** Copies one bit per stage. */
    method CopyBits(from: array<bool>, to: array<bool>)
      requires from != to && from.Length == to.Length
      modifies to
      ensures to[..] == from[..]
    {
      for i := 0 to from.Length
        invariant to[..i] == from[..i]
      {
        to[i] := from[i];
      }
      assert to[..] == to[..to.Length] && from[..] == from[..from.Length];
    }

    /** The first part of asyncProc: the output register, from the last stage if it is free. */
    method Pull(busyRegs: array<bool>) returns (full: bool, data: T)
      requires Valid() && busyRegs[..] == busyRegD[..] && busyRegs !in {busyReg, busyRegD}
      requires busyRegs as object != reg.regs
      modifies busyRegs
      ensures busyRegs[..] == P.BusyPulled(Holds())
      ensures full == (P.Shown(Holds()) != []) && (full ==> data == P.Shown(Holds())[0])
    {
      full, data := regFullD, dataRegD;
      // A get from a thread in the last cycle
      if ends.threadGet && getReq != getReqD { full := false; }
      if !full && busyRegs[n - 1] {
        busyRegs[n - 1] := false;
        full, data := true, reg.dataOut;
      }
      assert busyRegs[..] == P.BusyPulled(Holds());
    }

    /** The local computation of asyncProc: next busy bits, enable vector and output register. */
    method Evaluate(push: bool) returns (busyRegs: array<bool>, enableRegs: seq<bool>, ready: bool, full: bool, data: T)
      requires Valid()
      ensures fresh(busyRegs) && busyRegs.Length == n
      ensures var s := Holds();
              && ready == P.Ready(s)
              && full == (P.Shown(s) != []) && (full ==> data == P.Shown(s)[0])
              && busyRegs[..] == (if push && ready then P.Collapsed(P.BusyPulled(s))[0 := true]
                                  else P.Collapsed(P.BusyPulled(s)))
              && |enableRegs| == n && enableRegs[0] == (push && ready)
              && forall i :: 0 < i < n ==> enableRegs[i] == P.Shifts(P.BusyPulled(s), i)
    {
      busyRegs := new bool[n];
      CopyBits(busyRegD, busyRegs);
      full, data := Pull(busyRegs);
      enableRegs := Shift(busyRegs);
      ready := !busyRegs[0];
      if push && ready {
        busyRegs[0] := true;
        enableRegs := enableRegs[0 := true];
      }
    }

    method AsyncProc()
      requires Valid()
      modifies this`enable, this`regFull, this`dataReg, this`readyPush, this`outValid, busyReg
      ensures Valid() && Holds() == old(Holds()) && Drives(Holds(), Push(), Pop())
    {
      var push := if ends.threadPut then putReq != putReqD else putReq;
      var pop := if ends.threadGet then getReq != getReqD else getReq;
      var busyRegs, enableRegs, ready, full, data := Evaluate(push);
      Drive(busyRegs, enableRegs, ready, full, data, pop, Holds(), push);
    }

    /** The last part of asyncProc: the output signals. */
    method Drive(busyRegs: array<bool>, enableRegs: seq<bool>, ready: bool, full: bool, data: T, pop: bool,
                 ghost s: P.State<T>, ghost push: bool)
      requires 0 < |s.busy| == |s.regs| == busyReg.Length == busyRegs.Length && busyRegs != busyReg
      requires ready == P.Ready(s) && full == (P.Shown(s) != []) && (full ==> data == P.Shown(s)[0])
      requires busyRegs[..] == if push && ready then P.Collapsed(P.BusyPulled(s))[0 := true]
                               else P.Collapsed(P.BusyPulled(s))
      requires |enableRegs| == |s.busy| && enableRegs[0] == (push && ready)
      requires forall i :: 0 < i < |s.busy| ==> enableRegs[i] == P.Shifts(P.BusyPulled(s), i)
      modifies this`enable, this`regFull, this`dataReg, this`readyPush, this`outValid, busyReg
      ensures Drives(s, push, pop)
    {
      CopyBits(busyRegs, busyReg);
      readyPush, outValid, enable, dataReg := ready, full, enableRegs, data;
      // A get from a method in this cycle
      regFull := full && (ends.threadGet || !pop);
    }

    method ClearPut()
      modifies this`putReq, this`dataIn
      ensures if ends.threadPut then unchanged(this`putReq, this`dataIn) else !putReq
    {
      if !ends.threadPut { putReq, dataIn := false, zero; }
    }

    method ClearGet()
      modifies this`getReq
      ensures getReq == (ends.threadGet && old(getReq))
    {
      if !ends.threadGet { getReq := false; }
    }

    /** Puts if the pipe is ready; the data register is then overwritten even with the mask off. */
    method Put(data: T, mask: bool) returns (ok: bool)
      modifies this`putReq, this`dataIn
      ensures ok == (readyPush && mask) && (readyPush ==> dataIn == data)
      ensures putReq == if ends.threadPut then (old(putReq) != ok) else ok
      ensures ends.threadPut && !readyPush ==> dataIn == old(dataIn)
    {
      if readyPush {
        putReq := if ends.threadPut then (if mask then !putReq else putReq) else mask;
        dataIn := data;
        ok := mask;
      } else {
        if !ends.threadPut { putReq, dataIn := false, zero; }
        ok := false;
      }
    }

    method Get(on: bool) returns (data: T, ok: bool)
      modifies this`getReq
      ensures data == dataReg && ok == (outValid && on)
      ensures getReq == if ends.threadGet then (old(getReq) != ok) else ok
    {
      data := dataReg;
      if outValid {
        getReq := if ends.threadGet then (if on then !getReq else getReq) else on;
        ok := on;
      } else {
        if !ends.threadGet { getReq := false; }
        ok := false;
      }
    }

    /** The body of the putting process. A method drops its old request first. */
    method PutProc(call: PutCall<T>) returns (ok: bool)
      modifies this`putReq, this`dataIn
      ensures ok == (readyPush && call.TryPut? && call.mask) && (ok ==> dataIn == call.data)
      ensures putReq == if ends.threadPut then (old(putReq) != ok) else ok
      ensures ends.threadPut && !readyPush ==> dataIn == old(dataIn)
    {
      ok := false;
      if !ends.threadPut { ClearPut(); }
      match call {
        case NoPut =>
        case ClearPut => ClearPut();
        case TryPut(data, mask) => ok := Put(data, mask);
      }
    }

    /** The body of the getting process. */
    method GetProc(call: GetCall) returns (ok: bool)
      modifies this`getReq
      ensures ok == (outValid && call.TryGet? && call.enable)
      ensures getReq == if ends.threadGet then (old(getReq) != ok) else ok
    {
      ok := false;
      if !ends.threadGet { ClearGet(); }
      match call {
        case NoGet =>
        case ClearGet => ClearGet();
        case TryGet(on) => var data; data, ok := Get(on);
      }
    }

    /** The settled cycle: outputs follow the registers and both method requests agree with the
        outputs. Neither flag depends on a method request, so two evaluations settle it. */
    method Settle(d: Demand<T>)
      requires Valid()
      modifies this`enable, this`regFull, this`dataReg, this`readyPush, this`outValid, busyReg,
               this`putReq, this`getReq, this`dataIn
      ensures Valid() && Holds() == old(Holds())
      ensures Drives(Holds(), Push(), Pop())
      ensures !ends.threadPut ==> putReq == (readyPush && WantsPut(d)) && (putReq ==> dataIn == d.put.data)
      ensures !ends.threadGet ==> getReq == (outValid && WantsGet(d))
    {
      AsyncProc();
      MethodProcs(d);
      AsyncProc();
    }

    /** The method processes of one cycle. */
    method MethodProcs(d: Demand<T>)
      requires Valid()
      modifies this`putReq, this`getReq, this`dataIn
      ensures Valid() && Holds() == old(Holds())
      ensures !ends.threadPut ==> putReq == (readyPush && WantsPut(d)) && (putReq ==> dataIn == d.put.data)
      ensures !ends.threadGet ==> getReq == (outValid && WantsGet(d))
    {
      if !ends.threadPut { var ok := PutProc(d.put); }
      if !ends.threadGet { var ok := GetProc(d.get); }
    }

    /** The clock-edge process of the pipe itself. A thread's put stays pending until stage 0 takes
        its element. */
    method SyncProc()
      requires Valid()
      modifies this`regFullD, this`dataRegD, this`putReqD, this`getReqD, busyRegD
      ensures Valid() && busyRegD[..] == busyReg[..] && regFullD == regFull && dataRegD == dataReg
      ensures putReqD == if ends.threadPut && readyPush then putReq else old(putReqD)
      ensures ends.threadGet ==> getReqD == getReq
    {
      CopyBits(busyReg, busyRegD);
      regFullD, dataRegD := regFull, dataReg;
      if ends.threadPut && readyPush { putReqD := putReq; }
      if ends.threadGet { getReqD := getReq; }
    }

    /** One clock edge: data registers, pipe registers and thread processes. */
    method ClockEdge(d: Demand<T>)
      requires Valid() && P.Possible(ends, Holds()) && Drives(Holds(), Push(), Pop())
      requires !ends.threadPut ==> putReq == (readyPush && WantsPut(d)) && (putReq ==> dataIn == d.put.data)
      requires !ends.threadGet ==> getReq == (outValid && WantsGet(d))
      modifies this, reg, reg.regs, busyRegD
      ensures Valid() && Holds() == P.After(ends, old(Holds()), d)
    {
      ghost var s := Holds();
      MoveData(s, P.Entering(ends, s, d));
      FlagsEdge(d, s);
    }

    /** The part of the clock edge in the pipe's own registers and in the threads. */
    method FlagsEdge(d: Demand<T>, ghost s: P.State<T>)
      requires Valid() && P.Possible(ends, s) && |s.busy| == n && Drives(s, Push(), Pop())
      requires (Push() && P.Ready(s)) == (P.Entering(ends, s, d) != [])
      requires s.pending == if ends.threadPut && putReq != putReqD then [dataIn] else []
      requires !ends.threadGet ==> getReq == (outValid && WantsGet(d))
      modifies this`regFullD, this`dataRegD, this`putReqD, this`getReqD, this`putReq, this`getReq, this`dataIn, busyRegD
      ensures Valid() && busyRegD[..] == P.After(ends, s, d).busy
      ensures Holds().out == P.After(ends, s, d).out
      ensures Holds().pending == P.After(ends, s, d).pending
    {
      SyncProc();
      ThreadProcs(d);
    }

    /** The data registers follow the busy bits through the enable vector alone. */
    method MoveData(ghost s: P.State<T>, ghost entering: seq<T>)
      requires Valid() && |s.busy| == n && s.regs == reg.regs[..] && |enable| == n
      requires enable[0] == (entering != []) && (entering != [] ==> entering == [dataIn])
      requires forall i :: 0 < i < n ==> enable[i] == P.Shifts(P.BusyPulled(s), i)
      modifies reg, reg.regs
      ensures Valid() && reg.regs[..] == P.Moved(P.BusyPulled(s), s.regs, entering)
    {
      reg.PlProc(enable, dataIn);
    }

    /** The thread processes at a clock edge. */
    method ThreadProcs(d: Demand<T>)
      modifies this`putReq, this`getReq, this`dataIn
      ensures ends.threadPut ==> putReq == (old(putReq) != (readyPush && WantsPut(d)))
                                 && (readyPush && WantsPut(d) ==> dataIn == d.put.data)
                                 && (!readyPush ==> dataIn == old(dataIn))
      ensures !ends.threadPut ==> putReq == old(putReq) && dataIn == old(dataIn)
      ensures ends.threadGet ==> getReq == (old(getReq) != (outValid && WantsGet(d)))
      ensures !ends.threadGet ==> getReq == old(getReq)
    {
      if ends.threadPut { var ok := PutProc(d.put); }
      if ends.threadGet { var ok := GetProc(d.get); }
    }

    /** One whole cycle is one step of the pipeline. */
    method Cycle(d: Demand<T>) returns (o: Outcome<T>)
      requires Valid()
      modifies this, reg, reg.regs, busyReg, busyRegD
      ensures Valid() && P.Possible(ends, old(Holds()))
      ensures o == P.Resolve(ends, old(Holds()), d)
      ensures Holds() == P.After(ends, old(Holds()), d)
    {
      Settle(d);
      o := Outcome(readyPush, outValid, readyPush && WantsPut(d), outValid && WantsGet(d),
                   if outValid then Some(dataReg) else None);
      ClockEdge(d);
    }
  }
}
