/** The initiator and the target as they are: each holds one element, an optional register in the
    initiator holds one more, and requests between a thread and its channel are toggles. */
module Link {
  import opened QueueChannel
  import L = LinkChannel
  import Whole = TargetFifo
  import F = LaggingChannel
  import SimFifo

  class Initiator<T> {
    const sync: bool
    const cthread: bool
    const zero: T

    var putReq: bool
    var putReqD: bool
    var coreReqD: bool
    var syncReq: bool
    var syncReqD: bool
    var syncData: T

    // Outputs to the target
    var coreReq: bool
    var coreData: T

    constructor (sync: bool, cthread: bool, zero: T)
      ensures this.sync == sync && this.cthread == cthread && this.zero == zero
      ensures Sending() == [] && Waiting() == []
    {
      this.sync, this.cthread, this.zero := sync, cthread, zero;
      putReq, putReqD, coreReqD, syncReq, syncReqD := false, false, false, false, false;
      syncData, coreReq, coreData := zero, false, zero;
    }

    /** A register holds the element being sent. */
    predicate Registered() {
      sync || cthread
    }

    ghost function Sending(): (q: seq<T>)
      reads `putReq, `putReqD, `coreReqD, `coreData
    {
      if Registered() && (putReq != putReqD || coreReqD) then [coreData] else []
    }

    ghost function Waiting(): (q: seq<T>)
      reads `syncReq, `syncReqD, `syncData
    {
      if sync && cthread && syncReq != syncReqD then [syncData] else []
    }

    /** The request this put process has up, where the data goes. */
    predicate Putting()
      reads `putReq, `syncReq
    {
      if sync then syncReq else putReq
    }

    function PutData(): T
      reads `coreData, `syncData
    {
      if sync then syncData else coreData
    }

    /** Drops a method's request; a thread's pending one and its data stay. */
    method ClearPut()
      modifies this`putReq, this`syncReq, this`coreData, this`syncData
      ensures if cthread then unchanged(`putReq, `syncReq, `coreData, `syncData) else !Putting()
      ensures if sync then unchanged(`putReq, `coreData) else unchanged(`syncReq, `syncData)
    {
      if sync {
        if !cthread { syncReq, syncData := false, zero; }
      } else {
        if !cthread { putReq, coreData := false, zero; }
      }
    }

    /** Puts if the target is ready. The data register is overwritten even when the mask is off. */
    method Put(data: T, mask: bool, coreReady: bool) returns (ok: bool)
      modifies this`putReq, this`syncReq, this`coreData, this`syncData
      ensures ok == (coreReady && mask)
      ensures Putting() == if cthread then (old(Putting()) != ok) else ok
      ensures coreReady ==> PutData() == data
      ensures cthread && !coreReady ==> PutData() == old(PutData())
      ensures if sync then unchanged(`putReq, `coreData) else unchanged(`syncReq, `syncData)
    {
      if sync {
        if coreReady {
          syncReq := if cthread then (if mask then !syncReq else syncReq) else mask;
          syncData := data;
          ok := mask;
        } else {
          if !cthread { syncReq, syncData := false, zero; }
          ok := false;
        }
      } else {
        if coreReady {
          putReq := if cthread then (if mask then !putReq else putReq) else mask;
          coreData := data;
          ok := mask;
        } else {
          if !cthread { putReq, coreData := false, zero; }
          ok := false;
        }
      }
    }

    /** The body of the putting process. A method drops its old request first. */
    method PutProc(call: PutCall<T>, coreReady: bool) returns (ok: bool)
      modifies this`putReq, this`syncReq, this`coreData, this`syncData
      ensures ok == (coreReady && call.TryPut? && call.mask)
      ensures Putting() == if cthread then (old(Putting()) != ok) else ok
      ensures ok ==> PutData() == call.data
      ensures cthread && !coreReady ==> PutData() == old(PutData())
      ensures if sync then unchanged(`putReq, `coreData) else unchanged(`syncReq, `syncData)
    {
      ok := false;
      if !cthread { ClearPut(); }
      match call {
        case NoPut =>
        case ClearPut => ClearPut();
        case TryPut(data, mask) => ok := Put(data, mask, coreReady);
      }
    }

    method ReqControl()
      modifies this`coreReq
      ensures coreReq == if Registered() then Sending() != [] else putReq
    {
      var a := if sync || cthread then putReq != putReqD else putReq;
      if a {
        coreReq := true;
      } else {
        coreReq := if sync || cthread then coreReqD else false;
      }
    }

    /** The element being sent is sent again exactly as long as the target is not ready for it. */
    method CoreThread(coreReady: bool)
      requires coreReq == if Registered() then Sending() != [] else putReq
      modifies this`putReqD, this`coreReqD
      ensures Sending() == if coreReady then [] else old(Sending())
      ensures Registered() ==> putReqD == putReq
    {
      if sync || cthread {
        putReqD := putReq;
        coreReqD := !coreReady && coreReq;
      }
    }

    method SyncThread(coreReady: bool)
      modifies this`putReq, this`coreData, this`syncReqD
      ensures var go := sync && coreReady && (if cthread then syncReq != old(syncReqD) else syncReq);
              && putReq == (old(putReq) != go) && coreData == (if go then syncData else old(coreData))
              && syncReqD == (if go && cthread then syncReq else old(syncReqD))
    {
      if sync {
        var a := if cthread then syncReq != syncReqD else syncReq;
        if a && coreReady {
          putReq := !putReq;
          coreData := syncData;
          if cthread { syncReqD := syncReq; }
        }
      }
    }

    /** One clock edge of the initiator. While the target keeps its element nothing moves;
        otherwise the element being sent has been latched, and the next one follows. */
    method ClockEdge(call: PutCall<T>, coreReady: bool)
      requires coreReq == if Registered() then Sending() != [] else putReq
      requires !cthread ==> Putting() == (coreReady && call.TryPut? && call.mask)
      requires !cthread && Putting() ==> PutData() == call.data
      modifies this`putReq, this`putReqD, this`coreReqD, this`coreData, this`syncReq, this`syncReqD, this`syncData
      ensures var pushed := if coreReady && call.TryPut? && call.mask then [call.data] else [];
              if !coreReady then Sending() == old(Sending()) && Waiting() == old(Waiting())
              else if sync && cthread then Sending() == old(Waiting()) && Waiting() == pushed
              else if Registered() then Sending() == pushed && Waiting() == []
              else Sending() == [] && Waiting() == []
    {
      CoreThread(coreReady);
      SyncThread(coreReady);
      if cthread { var ok := PutProc(call, coreReady); }
    }
  }

  class Target<T> {
    const cthread: bool

    var getReq: bool
    var getReqD: bool
    var coreReqD: bool
    var coreDataD: T

    // Outputs
    var coreReady: bool
    var coreDataOut: T

    constructor (cthread: bool, zero: T)
      ensures this.cthread == cthread && Kept() == []
    {
      this.cthread := cthread;
      getReq, getReqD, coreReqD, coreReady := false, false, false, false;
      coreDataD, coreDataOut := zero, zero;
    }

    ghost function Kept(): (q: seq<T>)
      reads `getReq, `getReqD, `coreReqD, `coreDataD
    {
      if coreReqD && !(if cthread then getReq != getReqD else getReqD) then [coreDataD] else []
    }

    method ReadyControl()
      modifies this`coreReady
      ensures coreReady == (Kept() == [])
    {
      var a := if cthread then getReq != getReqD else getReqD;
      if a {
        coreReady := true;
      } else {
        coreReady := !coreReqD;
      }
    }

    /** What is shown is the kept element; without one, what the initiator sends. */
    method CoreDataMux(coreData: T)
      requires coreReady == (Kept() == [])
      modifies this`coreDataOut
      ensures [coreDataOut] == if Kept() != [] then Kept() else [coreData]
    {
      if coreReady { coreDataOut := coreData; } else { coreDataOut := coreDataD; }
    }

    predicate Request(coreReq: bool)
      reads `coreReady
    {
      !coreReady || coreReq
    }

    method ClearGet()
      modifies this`getReq
      ensures getReq == (cthread && old(getReq))
    {
      if !cthread { getReq := false; }
    }

    method Get(enable: bool, coreReq: bool) returns (data: T, ok: bool)
      modifies this`getReq
      ensures data == coreDataOut && ok == (Request(coreReq) && enable)
      ensures getReq == if cthread then (old(getReq) != ok) else ok
    {
      data := coreDataOut;
      if !coreReady || coreReq {
        getReq := if cthread then (if enable then !getReq else getReq) else enable;
        ok := enable;
      } else {
        if !cthread { getReq := false; }
        ok := false;
      }
    }

    method GetProc(call: GetCall, coreReq: bool) returns (ok: bool)
      modifies this`getReq
      ensures ok == (Request(coreReq) && call.TryGet? && call.enable)
      ensures getReq == if cthread then (old(getReq) != ok) else ok
    {
      ok := false;
      if !cthread { ClearGet(); }
      match call {
        case NoGet =>
        case ClearGet => ClearGet();
        case TryGet(enable) => var data; data, ok := Get(enable, coreReq);
      }
    }

    /** The target keeps the head of the handshake, the kept element or the one being sent, exactly
        if it was not taken in this cycle. A thread takes it right after this edge. */
    method CoreThread(coreReq: bool, coreData: T)
      requires coreReady == (Kept() == [])
      modifies this`getReqD, this`coreReqD, this`coreDataD
      ensures var head := if old(Kept()) != [] then old(Kept()) else if coreReq then [coreData] else [];
              Kept() == if !cthread && getReq then [] else head
    {
      getReqD := getReq;
      coreReqD := !coreReady || coreReq;
      if coreReq && coreReady {
        coreDataD := coreData;
      }
    }
  }

  /** The channel state the registers of both ends stand for. */
  ghost function Holds<T>(ini: Initiator<T>, tgt: Target<T>): L.State<T>
    reads ini, tgt
  {
    L.State(tgt.Kept(), ini.Sending(), ini.Waiting())
  }

  function EndsOf<T>(ini: Initiator<T>, tgt: Target<T>): L.Ends {
    L.Ends(ini.cthread, tgt.cthread, ini.sync)
  }

  /** The signals between the two ends are settled. */
  ghost predicate Connected<T>(ini: Initiator<T>, tgt: Target<T>, d: Demand<T>)
    reads ini, tgt
  {
    var head := L.Head(EndsOf(ini, tgt), Holds(ini, tgt), d);
    && L.Possible(EndsOf(ini, tgt), Holds(ini, tgt))
    && ini.coreReq == (if ini.Registered() then ini.Sending() != [] else ini.putReq)
    && (!ini.cthread ==> ini.Putting() == (tgt.coreReady && WantsPut(d)) && (ini.Putting() ==> ini.PutData() == d.put.data))
    && tgt.coreReady == (tgt.Kept() == [])
    && tgt.Request(ini.coreReq) == (head != [])
    && (head != [] ==> head == [tgt.coreDataOut] == [if tgt.coreReady then ini.coreData else tgt.coreDataD])
  }

  /** The signals between the two ends, evaluated in dependency order: ready comes from registers
      alone, so a single pass settles them. */
  method Connect<T>(ini: Initiator<T>, tgt: Target<T>, d: Demand<T>)
    modifies ini`putReq, ini`syncReq, ini`coreData, ini`syncData, ini`coreReq, tgt`coreReady, tgt`coreDataOut
    ensures Holds(ini, tgt) == old(Holds(ini, tgt)) && Connected(ini, tgt, d)
  {
    tgt.ReadyControl();
    if !ini.cthread { var ok := ini.PutProc(d.put, tgt.coreReady); }
    ini.ReqControl();
    tgt.CoreDataMux(ini.coreData);
  }

  /** One clock edge of both ends, once it is settled whether the getting side takes the head. A
      method's (or the FIFO's) request is in getReq already, a thread's one is made here. */
  method ClockEdge<T>(ini: Initiator<T>, tgt: Target<T>, d: Demand<T>) returns (pop: bool)
    requires Connected(ini, tgt, d)
    requires !tgt.cthread && tgt.getReq ==> tgt.Request(ini.coreReq)
    modifies ini, tgt
    ensures pop == if tgt.cthread then old(tgt.Request(ini.coreReq)) && WantsGet(d) else old(tgt.getReq)
    ensures pop ==> L.Head(EndsOf(ini, tgt), old(Holds(ini, tgt)), d) != []
    ensures Holds(ini, tgt) == L.After(EndsOf(ini, tgt), old(Holds(ini, tgt)), d, pop)
  {
    var request := !tgt.coreReady || ini.coreReq;
    tgt.CoreThread(ini.coreReq, ini.coreData);
    pop := tgt.getReq;
    if tgt.cthread { pop := tgt.GetProc(d.get, ini.coreReq); }
    ini.ClockEdge(d.put, tgt.coreReady);
  }

  /** One whole cycle of both ends is one step of the channel. */
  method Cycle<T>(ini: Initiator<T>, tgt: Target<T>, d: Demand<T>) returns (o: Outcome<T>)
    modifies ini, tgt
    ensures L.Possible(EndsOf(ini, tgt), old(Holds(ini, tgt)))
    ensures o == L.Resolve(EndsOf(ini, tgt), old(Holds(ini, tgt)), d)
    ensures Holds(ini, tgt) == L.After(EndsOf(ini, tgt), old(Holds(ini, tgt)), d, o.pop)
  {
    Connect(ini, tgt, d);
    var request := tgt.Request(ini.coreReq);
    o := Outcome(tgt.coreReady, request, tgt.coreReady && WantsPut(d), request && WantsGet(d),
                 if request then Some(tgt.coreDataOut) else None);
    if !tgt.cthread { var ok := tgt.GetProc(d.get, ini.coreReq); }
    var pop := ClockEdge(ini, tgt, d);
  }

  /** What put_to_fifo does with the attached FIFO in a settled cycle: it offers the kept element,
      else the one the initiator is sending. */
  function FifoCall<T>(ini: Initiator<T>, tgt: Target<T>): PutCall<T>
    reads ini, tgt
  {
    if !tgt.coreReady then TryPut(tgt.coreDataD, true)
    else if ini.coreReq then TryPut(ini.coreData, true)
    else ClearPut
  }

  /** The FIFO's answer becomes the target's get, and both ends make their clock edge. */
  method AnswerAndEdge<T>(ini: Initiator<T>, tgt: Target<T>, accepted: bool, d: Demand<T>)
    requires !tgt.cthread && Connected(ini, tgt, d)
    requires accepted ==> L.Head(EndsOf(ini, tgt), Holds(ini, tgt), d) != []
    modifies ini, tgt
    ensures Holds(ini, tgt) == L.After(EndsOf(ini, tgt), old(Holds(ini, tgt)), d, accepted)
  {
    tgt.getReq := accepted;
    assert Connected(ini, tgt, d) && Holds(ini, tgt) == old(Holds(ini, tgt));
    var taken := ClockEdge(ini, tgt, d);
  }

  /** The FIFO's cycle, with the target as its putting process. */
  method OfferToFifo<T>(ini: Initiator<T>, tgt: Target<T>, fifo: SimFifo.Fifo<T>, d: Demand<T>) returns (o: Outcome<T>)
    requires fifo.Valid() && Connected(ini, tgt, d)
    modifies fifo, fifo.buffer
    ensures fifo.Valid() && F.Possible(fifo.cfg, fifo.length, old(fifo.Lag()))
    ensures var fd := Whole.FifoDemand(EndsOf(ini, tgt), Holds(ini, tgt), d);
            && o == F.Resolve(fifo.cfg, fifo.length, old(fifo.Lag()), fd)
            && fifo.Lag() == F.After(fifo.cfg, fifo.length, old(fifo.Lag()), fd)
    ensures o.push ==> L.Head(EndsOf(ini, tgt), Holds(ini, tgt), d) != []
  {
    var call := FifoCall(ini, tgt);
    assert Demand(call, d.get) == Whole.FifoDemand(EndsOf(ini, tgt), Holds(ini, tgt), d);
    o := fifo.Cycle(Demand(call, d.get));
  }

  /** One whole cycle with a FIFO attached to the target: the FIFO's answer is the target's get. */
  method CycleWithFifo<T>(ini: Initiator<T>, tgt: Target<T>, fifo: SimFifo.Fifo<T>, d: Demand<T>)
    returns (o: Outcome<T>)
    requires fifo.Valid() && !fifo.cfg.threadPut && !tgt.cthread
    modifies ini, tgt, fifo, fifo.buffer
    ensures fifo.Valid()
    ensures var at := Whole.State(old(Holds(ini, tgt)), old(fifo.Lag()));
            && Whole.Possible(EndsOf(ini, tgt), fifo.cfg, fifo.length, at)
            && o == Whole.Resolve(EndsOf(ini, tgt), fifo.cfg, fifo.length, at, d)
            && Whole.State(Holds(ini, tgt), fifo.Lag()) == Whole.After(EndsOf(ini, tgt), fifo.cfg, fifo.length, at, d)
  {
    Connect(ini, tgt, d);
    o := SettledCycle(ini, tgt, fifo, d, Whole.State(Holds(ini, tgt), fifo.Lag()));
  }

  /** The same once the signals between the two ends are settled. */
  method SettledCycle<T>(ini: Initiator<T>, tgt: Target<T>, fifo: SimFifo.Fifo<T>, d: Demand<T>, ghost at: Whole.State<T>)
    returns (o: Outcome<T>)
    requires fifo.Valid() && !fifo.cfg.threadPut && !tgt.cthread && Connected(ini, tgt, d)
    requires at == Whole.State(Holds(ini, tgt), fifo.Lag())
    modifies ini, tgt, fifo, fifo.buffer
    ensures fifo.Valid() && Whole.Possible(EndsOf(ini, tgt), fifo.cfg, fifo.length, at)
    ensures o == Whole.Resolve(EndsOf(ini, tgt), fifo.cfg, fifo.length, at, d)
    ensures Whole.State(Holds(ini, tgt), fifo.Lag()) == Whole.After(EndsOf(ini, tgt), fifo.cfg, fifo.length, at, d)
  {
    var ready := tgt.coreReady;
    var fo := OfferToFifo(ini, tgt, fifo, d);
    o := Outcome(ready, fo.valid, ready && WantsPut(d), fo.pop, fo.shown);
    AnswerAndEdge(ini, tgt, fo.push, d);
    Whole.Compose(EndsOf(ini, tgt), fifo.cfg, fifo.length, at, d, fo, Whole.State(Holds(ini, tgt), fifo.Lag()), o);
  }
}
