/** The approximate-time FIFO. There is no clocked process: an update event, scheduled by each
    accepted put or get, carries out what was requested one clock period earlier, and the attached
    processes sleep until an event wakes them. */
module PrimFifo {
  import opened QueueChannel
  import L = LaggingChannel
  import Ring
  import opened Wakeups

  class Fifo<T> {
    const cfg: Config
    const useElemNum: bool
    const fifoSize: nat
    const zero: T
    const buffer: array<T>

    /** What the ring stores, oldest first. */
    ghost var stored: seq<T>

    // Request signals: the value read and the one delivered at the end of the delta cycle
    var putReq: bool
    var putReqNext: bool
    var getReq: bool
    var getReqNext: bool
    var putData: T
    var putDataNext: T

    // Reset entries signalled, and the last one updateProc has carried out
    var hasResetSignal: bool
    var hasReset: bool

    // Signals written by updateProc
    var putReqD: bool
    var getReqD: bool
    var elementNumD: nat
    var getData: T
    var getDataNext: T

    // Variables of updateProc
    var getIndx: nat
    var putIndx: nat
    var elemNum: nat

    // Events: scheduled and not triggered yet
    var updateEvent: bool
    var putEvent: bool
    var getEvent: bool

    predicate Push()
      reads `putReq, `putReqD
    {
      putReq != putReqD
    }

    predicate Pop()
      reads `getReq, `getReqD
    {
      getReq != getReqD
    }

    /** No reset entry waits to be carried out. */
    predicate NoReset()
      reads `hasResetSignal, `hasReset
    {
      hasResetSignal == hasReset
    }

    /** No signal waits to be delivered. */
    ghost predicate Delivered()
      reads `putReq, `putReqNext, `getReq, `getReqNext, `putData, `putDataNext
    {
      putReqNext == putReq && getReqNext == getReq && putDataNext == putData
    }

    /** The ring and the signals that mirror it. */
    ghost predicate RingValid()
      reads `stored, `getIndx, `putIndx, `elemNum, `elementNumD, `getData, `getDataNext, buffer
    {
      && 0 < fifoSize == buffer.Length
      && getIndx < fifoSize
      && |stored| == elemNum == elementNumD <= fifoSize
      && putIndx == Ring.Wrap(getIndx + elemNum, fifoSize)
      && stored == Ring.Contents(buffer[..], getIndx, elemNum)
      && getData == buffer[getIndx] && getDataNext == buffer[Ring.Next(getIndx, fifoSize)]
    }

    /** Requests of threads can be carried out, and an update that does so is scheduled. */
    ghost predicate Valid()
      reads `stored, `getIndx, `putIndx, `elemNum, `elementNumD, `getData, `getDataNext, buffer
      reads `putReq, `putReqD, `getReq, `getReqD, `updateEvent, `hasResetSignal, `hasReset
    {
      && RingValid() && NoReset()
      && (cfg.threadPut && Push() ==> |stored| < fifoSize)
      && (cfg.threadGet && Pop() ==> stored != [])
      && (Push() || Pop() ==> updateEvent)
    }

    ghost function Visible(): (q: seq<T>)
      reads `stored, `getReq, `getReqD
    {
      if cfg.threadGet && Pop() && stored != [] then stored[1..] else stored
    }

    /** The channel state the signals stand for. */
    ghost function Lag(): (s: L.State<T>)
      reads `stored, `putReq, `putReqD, `getReq, `getReqD, `putData
    {
      L.State(Visible(), if cfg.threadPut && Push() then [putData] else [], cfg.threadGet && Pop())
    }

    constructor (cfg: Config, fifoSize: nat, zero: T, useElemNum: bool)
      requires 0 < fifoSize
      ensures Valid() && fresh(buffer) && Delivered()
      ensures this.cfg == cfg && this.fifoSize == fifoSize && this.zero == zero && this.useElemNum == useElemNum
      ensures Lag() == L.State([], [], false)
      ensures putEvent && getEvent && NoMethodRequest()
    {
      this.cfg, this.fifoSize, this.zero, this.useElemNum := cfg, fifoSize, zero, useElemNum;
      buffer := new T[fifoSize](_ => zero);
      stored := [];
      putReq, putReqNext, getReq, getReqNext := false, false, false, false;
      putData, putDataNext, getData, getDataNext := zero, zero, zero, zero;
      putReqD, getReqD, elementNumD := false, false, 0;
      hasResetSignal, hasReset := false, false;
      getIndx, putIndx, elemNum := 0, 0, 0;
      // reset exit wakes both processes
      updateEvent, putEvent, getEvent := false, true, true;
    }

    predicate PutReady()
      reads `elementNumD, `putReq, `putReqD, `getReq, `getReqD
    {
      (elementNumD != fifoSize
       && (!cfg.threadPut || putReq == putReqD || elementNumD != fifoSize - 1))
      || (!cfg.syncReady && getReq != getReqD)
    }

    predicate OutValid()
      reads `elementNumD, `putReq, `putReqD, `getReq, `getReqD
    {
      (elementNumD != 0
       && (!cfg.threadGet || getReq == getReqD || elementNumD != 1))
      || (!cfg.syncValid && putReq != putReqD)
    }

    function GetData(): T
      reads `elementNumD, `getReq, `getReqD, `getData, `getDataNext, `putData
    {
      if cfg.threadGet && getReq != getReqD then
        if elementNumD > 1 then getDataNext else putData
      else
        if elementNumD > 0 then getData else putData
    }

    /** The second and the first element of a ring with that many. */
    lemma RingHeads()
      requires Valid()
      ensures 0 < elemNum ==> stored[0] == getData
      ensures 1 < elemNum ==> stored[1] == getDataNext
    {
      if 0 < elemNum {
        assert stored == [getData] + Ring.Contents(buffer[..], Ring.Next(getIndx, fifoSize), elemNum - 1);
      }
    }

    /** The three query functions are the flags and the data of the channel. */
    lemma QueriesAreFlags()
      requires Valid()
      ensures L.Possible(cfg, fifoSize, Lag())
      ensures PutReady() == L.Ready(cfg, fifoSize, Lag(), Pop())
      ensures OutValid() == L.Valid(cfg, Lag(), Push())
      ensures Visible() != [] ==> GetData() == Visible()[0]
      ensures Visible() == [] ==> GetData() == putData
    {
      RingHeads();
    }

    /** Carries out a reset entry, from any state of the ring, or else the requests. Its two internal
        checks never fail. */
    method UpdateProc()
      requires 0 < fifoSize == buffer.Length && (NoReset() ==> RingValid())
      requires NoReset() && Push() ==> Pop() || |stored| < fifoSize
      requires NoReset() && Pop() ==> Push() || stored != []
      modifies this`getIndx, this`putIndx, this`elemNum, this`elementNumD, this`getData, this`getDataNext,
               this`putReqD, this`getReqD, this`stored, this`putEvent, this`getEvent, this`hasReset, buffer
      ensures RingValid() && putReqD == putReq && getReqD == getReq && NoReset()
      ensures old(NoReset()) ==> putEvent == (old(putEvent) || ((old(Push()) || old(Pop()))
                                 && (!cfg.threadPut || (old(Pop()) && cfg.syncReady))))
      ensures old(NoReset()) ==> getEvent == (old(getEvent) || ((old(Push()) || old(Pop()))
                                 && (!cfg.threadGet || (old(Push()) && cfg.syncValid))))
      ensures stored == if !old(NoReset()) then []
                        else (old(stored) + (if old(Push()) then [putData] else []))[(if old(Pop()) then 1 else 0)..]
      ensures !old(NoReset()) ==> putEvent == old(putEvent) && getEvent == old(getEvent) && buffer[0] == zero
    {
      var doPut, doGet := putReq != putReqD, getReq != getReqD;
      if hasResetSignal != hasReset {
        ClearRing();
      } else if doPut || doGet {
        MoveRing(doPut, doGet);
        NotifyUpdated(doPut, doGet);
      }
      hasReset := hasResetSignal;
      MirrorRing();
    }

    /** Reset entry schedules the update that clears the FIFO; reset exit wakes both processes. */
    method ResetCore(reset: bool)
      modifies this`hasResetSignal, this`updateEvent, this`putEvent, this`getEvent
      ensures if reset then hasResetSignal == !old(hasResetSignal) && updateEvent && unchanged(`putEvent, `getEvent)
              else putEvent && getEvent && unchanged(`hasResetSignal, `updateEvent)
    {
      if reset {
        hasResetSignal, updateEvent := !hasResetSignal, true;
      } else {
        putEvent, getEvent := true, true;
      }
    }

    /** The reset sections of the two processes: a method drops its request. */
    method ResetPut()
      modifies this`putReqNext, this`putDataNext, this`getEvent
      ensures if cfg.threadPut then unchanged(`putReqNext, `putDataNext) else putReqNext == putReqD && putDataNext == zero
      ensures getEvent == (old(getEvent) || (!cfg.threadPut && !cfg.threadGet && !cfg.syncValid && Push()))
    {
      if !cfg.threadPut {
        putReqNext, putDataNext := putReqD, zero;
      }
      if !cfg.threadPut && !cfg.syncValid && putReq != putReqD {
        if !cfg.threadGet { getEvent := true; }
      }
    }

    method ResetGet()
      modifies this`getReqNext, this`putEvent
      ensures getReqNext == if cfg.threadGet then old(getReqNext) else getReqD
      ensures putEvent == (old(putEvent) || (!cfg.threadPut && !cfg.threadGet && !cfg.syncReady && Pop()))
    {
      if !cfg.threadGet { getReqNext := getReqD; }
      if !cfg.threadGet && !cfg.threadPut && !cfg.syncReady && getReq != getReqD {
        putEvent := true;
      }
    }

    /** Reset at any time, whatever requests and events are around: entry, the scheduled update, and
        exit leave the empty channel with both processes awake. */
    method Reset()
      requires 0 < fifoSize == buffer.Length && NoReset()
      modifies this, buffer
      ensures Valid() && Delivered() && Lag() == L.State([], [], false)
      ensures putEvent && getEvent && !updateEvent && buffer[0] == zero
    {
      ClearByReset();
      ResetCore(false);
    }

    /** Reset entry and the update it schedules. */
    method ClearByReset()
      requires 0 < fifoSize == buffer.Length && NoReset()
      modifies this, buffer
      ensures Valid() && Delivered() && stored == [] && !Push() && !Pop() && !updateEvent && buffer[0] == zero
    {
      EnterReset();
      UpdateProc();
    }

    /** Reset entry with both reset sections, up to where the update it schedules triggers: no method
        has a request left, and a thread's one stays for the update to take back. */
    method EnterReset()
      requires NoReset()
      modifies this`hasResetSignal, this`updateEvent, this`putEvent, this`getEvent,
               this`putReqNext, this`putDataNext, this`getReqNext, this`putReq, this`getReq, this`putData
      ensures !NoReset() && Delivered() && !updateEvent
      ensures if cfg.threadPut then putReq == old(putReqNext) else !Push() && putData == zero
      ensures if cfg.threadGet then getReq == old(getReqNext) else !Pop()
    {
      ResetCore(true);
      ResetPut();
      ResetGet();
      Deliver();
      updateEvent := false;
    }

    method ClearRing()
      requires 0 < buffer.Length
      modifies this`getIndx, this`putIndx, this`elemNum, this`stored, buffer
      ensures getIndx == putIndx == elemNum == 0 && stored == [] && buffer[0] == zero
    {
      getIndx, putIndx, elemNum, stored := 0, 0, 0, [];
      buffer[0] := zero;
    }

    /** The signals updateProc drives on every run. */
    method MirrorRing()
      requires 0 < fifoSize == buffer.Length && getIndx < fifoSize && |stored| == elemNum <= fifoSize
      requires putIndx == Ring.Wrap(getIndx + elemNum, fifoSize)
      requires stored == Ring.Contents(buffer[..], getIndx, elemNum)
      modifies this`elementNumD, this`getData, this`getDataNext, this`putReqD, this`getReqD
      ensures RingValid() && putReqD == putReq && getReqD == getReq
    {
      elementNumD := elemNum;
      getData := buffer[getIndx];
      getDataNext := buffer[if getIndx == fifoSize - 1 then 0 else getIndx + 1];
      putReqD := putReq;
      getReqD := getReq;
    }

    method MoveRing(doPut: bool, doGet: bool)
      requires 0 < fifoSize == buffer.Length && getIndx < fifoSize && |stored| == elemNum <= fifoSize
      requires putIndx == Ring.Wrap(getIndx + |stored|, fifoSize)
      requires stored == Ring.Contents(buffer[..], getIndx, |stored|)
      requires doPut ==> doGet || |stored| < fifoSize
      requires doGet ==> doPut || stored != []
      modifies this`getIndx, this`putIndx, this`elemNum, this`stored, buffer
      ensures getIndx < fifoSize && |stored| == elemNum <= fifoSize
      ensures stored == (old(stored) + (if doPut then [putData] else []))[(if doGet then 1 else 0)..]
      ensures putIndx == Ring.Wrap(getIndx + |stored|, fifoSize)
      ensures stored == Ring.Contents(buffer[..], getIndx, |stored|)
    {
      ghost var start, count, was := getIndx, |stored|, buffer[..];
      if doPut {
        buffer[putIndx] := putData;
        putIndx := if putIndx == fifoSize - 1 then 0 else putIndx + 1;
        assert elemNum < fifoSize || doGet;
        elemNum := elemNum + 1;
      }
      if doGet {
        getIndx := if getIndx == fifoSize - 1 then 0 else getIndx + 1;
        assert elemNum > 0;
        elemNum := elemNum - 1;
      }
      Ring.Edge(was, start, count, doPut, putData, doGet, buffer[..], getIndx, putIndx);
      stored := (stored + if doPut then [putData] else [])[(if doGet then 1 else 0)..];
    }

    /** The notifications of updateProc. With an asynchronous flag a thread is woken by put or get
        itself. */
    method NotifyUpdated(doPut: bool, doGet: bool)
      modifies this`putEvent, this`getEvent
      ensures putEvent == (old(putEvent) || !cfg.threadPut || (doGet && cfg.syncReady))
      ensures getEvent == (old(getEvent) || !cfg.threadGet || (doPut && cfg.syncValid))
    {
      if !cfg.threadPut || (doGet && cfg.syncReady) { putEvent := true; }
      if !cfg.threadGet || (doPut && cfg.syncValid) { getEvent := true; }
    }

    /** The end of a delta cycle: written requests become visible. */
    method Deliver()
      modifies this`putReq, this`getReq, this`putData
      ensures putReq == putReqNext && getReq == getReqNext && putData == putDataNext
    {
      putReq, getReq, putData := putReqNext, getReqNext, putDataNext;
    }

    /** A put wakes the getting process if it is what allows it to get; a get the putting one. */
    predicate PutHelps()
      reads `elementNumD, `getReq, `getReqD
    {
      !cfg.syncValid && (useElemNum || elementNumD == 0 || (cfg.threadPut && Pop() && elementNumD == 1))
    }

    predicate GetHelps()
      reads `elementNumD, `putReq, `putReqD
    {
      !cfg.syncReady && (useElemNum || elementNumD == fifoSize || (cfg.threadGet && Push() && elementNumD == fifoSize - 1))
    }

    /** Taking back the request of a method wakes a method on the other side that could see it. */
    predicate PutDropHurts()
      reads `putReq, `putReqD
    {
      !cfg.threadPut && !cfg.threadGet && !cfg.syncValid && Push()
    }

    predicate GetDropHurts()
      reads `getReq, `getReqD
    {
      !cfg.threadGet && !cfg.threadPut && !cfg.syncReady && Pop()
    }

    /** Drops a method's request; a thread's pending one stays. */
    method ClearPut()
      modifies this`putReqNext, this`putDataNext, this`getEvent
      ensures putReqNext == if cfg.threadPut then putReq else putReqD
      ensures putDataNext == zero && getEvent == (old(getEvent) || PutDropHurts())
    {
      putReqNext := if cfg.threadPut then putReq else putReqD;
      putDataNext := zero;
      if !cfg.threadPut && !cfg.syncValid && putReq != putReqD {
        if !cfg.threadGet { getEvent := true; }
      }
    }

    method ClearGet()
      modifies this`getReqNext, this`putEvent
      ensures getReqNext == if cfg.threadGet then getReq else getReqD
      ensures putEvent == (old(putEvent) || GetDropHurts())
    {
      getReqNext := if cfg.threadGet then getReq else getReqD;
      if !cfg.threadGet && !cfg.threadPut && !cfg.syncReady && getReq != getReqD {
        putEvent := true;
      }
    }

    /** Puts if it is ready, and wakes the getting process only when this put is what allows
        it to get. */
    method Put(data: T, mask: bool) returns (ok: bool)
      modifies this`putReqNext, this`putDataNext, this`updateEvent, this`getEvent, this`putEvent
      ensures ok == (mask && PutReady())
      ensures putReqNext == ((if cfg.threadPut then putReq else putReqD) != ok)
      ensures ok ==> putDataNext == data
      ensures updateEvent == (old(updateEvent) || ok)
      ensures putEvent == (old(putEvent) || (ok && cfg.threadPut))
      ensures getEvent == (old(getEvent) || (ok && PutHelps()))
    {
      if mask && PutReady() {
        putReqNext := if cfg.threadPut then !putReq else !putReqD;
        putDataNext := data;
        updateEvent := true;
        if !cfg.syncValid && (useElemNum || elementNumD == 0
                              || (cfg.threadPut && getReq != getReqD && elementNumD == 1)) {
          getEvent := true;
        }
        if cfg.threadPut { putEvent := true; }
        return true;
      }
      putReqNext := if cfg.threadPut then putReq else putReqD;
      return false;
    }

    /** Takes if it is valid, and wakes the putting process only when this get is what allows
        it to put. */
    method Get(enable: bool) returns (data: T, ok: bool)
      modifies this`getReqNext, this`updateEvent, this`getEvent, this`putEvent
      ensures data == GetData() && ok == (enable && OutValid())
      ensures getReqNext == ((if cfg.threadGet then getReq else getReqD) != ok)
      ensures updateEvent == (old(updateEvent) || ok)
      ensures getEvent == (old(getEvent) || (ok && cfg.threadGet))
      ensures putEvent == (old(putEvent) || (ok && GetHelps()))
    {
      data := GetData();
      if enable && OutValid() {
        getReqNext := if cfg.threadGet then !getReq else !getReqD;
        updateEvent := true;
        if !cfg.syncReady && (useElemNum || elementNumD == fifoSize
                              || (cfg.threadGet && putReq != putReqD && elementNumD == fifoSize - 1)) {
          putEvent := true;
        }
        if cfg.threadGet { getEvent := true; }
        ok := true;
      } else {
        getReqNext := if cfg.threadGet then getReq else getReqD;
        ok := false;
      }
    }

    /** The body of the putting process. A method drops its old request first. */
    method PutProc(call: PutCall<T>) returns (ok: bool)
      requires cfg.threadPut ==> putReqNext == putReq
      modifies this`putReqNext, this`putDataNext, this`updateEvent, this`getEvent, this`putEvent
      ensures ok == (call.TryPut? && call.mask && PutReady())
      ensures putReqNext == ((if cfg.threadPut then putReq else putReqD) != ok)
      ensures ok ==> putDataNext == call.data
      ensures updateEvent == (old(updateEvent) || ok)
      ensures putEvent == (old(putEvent) || (ok && cfg.threadPut))
      ensures getEvent == (old(getEvent) || (ok && PutHelps()) || PutDropHurts())
    {
      ok := false;
      if !cfg.threadPut { ClearPut(); }
      match call {
        case NoPut =>
        case ClearPut => ClearPut();
        case TryPut(data, mask) => ok := Put(data, mask);
      }
    }

    /** The body of the getting process. */
    method GetProc(call: GetCall) returns (ok: bool)
      requires cfg.threadGet ==> getReqNext == getReq
      modifies this`getReqNext, this`updateEvent, this`getEvent, this`putEvent
      ensures ok == (call.TryGet? && call.enable && OutValid())
      ensures getReqNext == ((if cfg.threadGet then getReq else getReqD) != ok)
      ensures updateEvent == (old(updateEvent) || ok)
      ensures getEvent == (old(getEvent) || (ok && cfg.threadGet))
      ensures putEvent == (old(putEvent) || (ok && GetHelps()) || GetDropHurts())
    {
      ok := false;
      if !cfg.threadGet { ClearGet(); }
      match call {
        case NoGet =>
        case ClearGet => ClearGet();
        case TryGet(enable) => var data; data, ok := Get(enable);
      }
    }

    /** Method requests agree with the flags: evaluating the methods again changes nothing. */
    ghost predicate SettledFor(d: Demand<T>)
      reads `elementNumD, `putReq, `putReqD, `getReq, `getReqD, `putData
    {
      && (!cfg.threadPut ==> Push() == (PutReady() && WantsPut(d)) && (Push() ==> putData == d.put.data))
      && (!cfg.threadGet ==> Pop() == (OutValid() && WantsGet(d)))
    }

    /** One delta cycle in which the method processes run. */
    method Evaluate(d: Demand<T>)
      requires Valid() && Delivered()
      modifies this`putReq, this`getReq, this`putData, this`putReqNext, this`getReqNext, this`putDataNext,
               this`updateEvent, this`getEvent, this`putEvent
      ensures Valid() && Delivered() && Lag() == old(Lag())
      ensures !cfg.threadPut ==> Push() == (old(PutReady()) && WantsPut(d)) && (Push() ==> putData == d.put.data)
      ensures !cfg.threadGet ==> Pop() == (old(OutValid()) && WantsGet(d))
      ensures cfg.threadPut ==> Push() == old(Push())
      ensures cfg.threadGet ==> Pop() == old(Pop())
    {
      RunMethods(d);
      DeliverMethods();
    }

    /** The method processes, before their writes are delivered. */
    method RunMethods(d: Demand<T>)
      requires Delivered()
      modifies this`putReqNext, this`getReqNext, this`putDataNext, this`updateEvent, this`getEvent, this`putEvent
      ensures if cfg.threadPut then putReqNext == putReq && putDataNext == putData
              else putReqNext == (putReqD != (PutReady() && WantsPut(d)))
                   && (PutReady() && WantsPut(d) ==> putDataNext == d.put.data)
      ensures if cfg.threadGet then getReqNext == getReq else getReqNext == (getReqD != (OutValid() && WantsGet(d)))
      ensures old(updateEvent) ==> updateEvent
      ensures !cfg.threadPut && putReqNext != putReqD ==> updateEvent
      ensures !cfg.threadGet && getReqNext != getReqD ==> updateEvent
    {
      if !cfg.threadPut { var ok := PutProc(d.put); }
      if !cfg.threadGet { var ok := GetProc(d.get); }
    }

    /** Delta cycles until nothing changes: two are enough. */
    method Settle(d: Demand<T>)
      requires Valid() && Delivered()
      modifies this`putReq, this`getReq, this`putData, this`putReqNext, this`getReqNext, this`putDataNext,
               this`updateEvent, this`getEvent, this`putEvent
      ensures Valid() && Delivered() && Lag() == old(Lag()) && SettledFor(d)
    {
      QueriesAreFlags();
      Evaluate(d);
      QueriesAreFlags();
      Evaluate(d);
      QueriesAreFlags();
    }

    /** A method whose request does not follow the flags and its demand has been woken. */
    ghost predicate Fresh(d: Demand<T>)
      reads `elementNumD, `putReq, `putReqD, `getReq, `getReqD, `putData, `putEvent, `getEvent
    {
      && (!cfg.threadPut && !putEvent ==> Push() == (PutReady() && WantsPut(d)) && (Push() ==> putData == d.put.data))
      && (!cfg.threadGet && !getEvent ==> Pop() == (OutValid() && WantsGet(d)))
    }

    /** A thread that can act, or has just acted, is scheduled for the next tick. */
    ghost predicate Alert()
      reads `elementNumD, `putReq, `putReqD, `getReq, `getReqD, `putEvent, `getEvent
    {
      && (cfg.threadPut && (PutReady() || Push()) ==> putEvent)
      && (cfg.threadGet && (OutValid() || Pop()) ==> getEvent)
    }

    /** No method is woken. */
    predicate Quiet()
      reads `putEvent, `getEvent
    {
      (cfg.threadPut || !putEvent) && (cfg.threadGet || !getEvent)
    }

    /** The woken methods run, before their writes are delivered. */
    method RunWoken(d: Demand<T>, runPut: bool, runGet: bool, ghost push: bool, ghost pop: bool)
      requires Valid() && Delivered() && (runPut ==> !cfg.threadPut) && (runGet ==> !cfg.threadGet)
      requires push == (PutReady() && WantsPut(d)) && pop == (OutValid() && WantsGet(d))
      modifies this`putReqNext, this`getReqNext, this`putDataNext, this`updateEvent, this`getEvent, this`putEvent
      ensures if runPut then (putReqNext != putReqD) == push && (push ==> putDataNext == d.put.data)
              else putReqNext == putReq && putDataNext == putData
      ensures if runGet then (getReqNext != getReqD) == pop else getReqNext == getReq
      ensures Valid() && (putReqNext != putReqD || getReqNext != getReqD ==> updateEvent)
      ensures getEvent == (old(getEvent) || (runPut && ((push && PutHelps()) || PutDropHurts())))
      ensures putEvent == (old(putEvent) || (runGet && ((pop && GetHelps()) || GetDropHurts())))
    {
      if runPut { var ok := PutProc(d.put); }
      if runGet { var ok := GetProc(d.get); }
    }

    /** The writes of methods do not change what the signals of threads stand for. */
    method DeliverMethods()
      requires Valid() && (cfg.threadPut ==> putReqNext == putReq && putDataNext == putData)
      requires cfg.threadGet ==> getReqNext == getReq
      requires putReqNext != putReqD || getReqNext != getReqD ==> updateEvent
      modifies this`putReq, this`getReq, this`putData
      ensures Valid() && Delivered() && Lag() == old(Lag()) && putData == putDataNext
      ensures Push() == (putReqNext != putReqD) && Pop() == (getReqNext != getReqD)
    {
      Deliver();
    }

    method DeliverWoken(d: Demand<T>, runPut: bool, runGet: bool, ghost push: bool, ghost pop: bool)
      requires Valid() && Delivered() && (runPut ==> !cfg.threadPut) && (runGet ==> !cfg.threadGet)
      requires push == (PutReady() && WantsPut(d)) && pop == (OutValid() && WantsGet(d))
      modifies this`putReq, this`getReq, this`putData, this`putReqNext, this`getReqNext, this`putDataNext,
               this`updateEvent, this`getEvent, this`putEvent
      ensures Valid() && Delivered() && Lag() == old(Lag())
      ensures Push() == (if runPut then push else old(Push())) && Pop() == (if runGet then pop else old(Pop()))
      ensures if !runPut then putData == old(putData) else push ==> putData == d.put.data
      ensures getEvent == (old(getEvent) || (runPut && ((push && old(PutHelps())) || old(PutDropHurts()))))
      ensures putEvent == (old(putEvent) || (runGet && ((pop && old(GetHelps())) || old(GetDropHurts()))))
    {
      RunWoken(d, runPut, runGet, push, pop);
      DeliverMethods();
    }

    /** Whoever sees a flag rise is woken, and a method also if it sees one fall. Between methods that
        see each other's requests, making a request or taking one back is what wakes. */
    method Exchange(d: Demand<T>, runPut: bool, runGet: bool)
      requires Valid() && Delivered() && (runPut ==> !cfg.threadPut) && (runGet ==> !cfg.threadGet)
      requires (cfg.threadPut && Push() ==> putEvent) && (cfg.threadGet && Pop() ==> getEvent)
      modifies this`putReq, this`getReq, this`putData, this`putReqNext, this`getReqNext, this`putDataNext,
               this`updateEvent, this`getEvent, this`putEvent
      ensures Valid() && Delivered() && Lag() == old(Lag())
      ensures Push() == (if runPut then old(PutReady()) && WantsPut(d) else old(Push()))
      ensures Pop() == (if runGet then old(OutValid()) && WantsGet(d) else old(Pop()))
      ensures if !runPut then putData == old(putData) else Push() ==> putData == d.put.data
      ensures old(putEvent) || (PutReady() != old(PutReady()) && (PutReady() || !cfg.threadPut)) ==> putEvent
      ensures old(getEvent) || (OutValid() != old(OutValid()) && (OutValid() || !cfg.threadGet)) ==> getEvent
      ensures !cfg.threadPut && putEvent && !old(putEvent) ==> runGet && !cfg.syncReady
      ensures !cfg.threadGet && getEvent && !old(getEvent) ==> runPut && !cfg.syncValid
      ensures Looped(cfg) ==> getEvent == (old(getEvent) || (runPut && ((Push() && EachPutWakes()) || old(Push()))))
      ensures Looped(cfg) ==> putEvent == (old(putEvent) || (runGet && ((Pop() && EachGetWakes()) || old(Pop()))))
    {
      DeliverWoken(d, runPut, runGet, PutReady() && WantsPut(d), OutValid() && WantsGet(d));
    }

    /** What a request of one of two such methods needs to wake the other. */
    predicate EachPutWakes()
      reads `elementNumD
    {
      useElemNum || elementNumD == 0
    }

    predicate EachGetWakes()
      reads `elementNumD
    {
      useElemNum || elementNumD == fifoSize
    }

    /** One delta cycle: only the methods that have been woken run. */
    method Delta(d: Demand<T>)
      requires Valid() && Delivered() && Fresh(d) && Alert()
      modifies this`putReq, this`getReq, this`putData, this`putReqNext, this`getReqNext, this`putDataNext,
               this`updateEvent, this`getEvent, this`putEvent
      ensures Valid() && Delivered() && Lag() == old(Lag()) && Fresh(d) && Alert()
      ensures !cfg.threadPut && putEvent ==> !cfg.threadGet && !cfg.syncReady && old(getEvent)
      ensures !cfg.threadGet && getEvent ==> !cfg.threadPut && !cfg.syncValid && old(putEvent)
      ensures Looped(cfg) && old(putEvent) ==>
                Push() == (old(PutReady()) && WantsPut(d)) && (Push() ==> putData == d.put.data)
      ensures Looped(cfg) && !old(putEvent) ==> Push() == old(Push()) && putData == old(putData)
      ensures Looped(cfg) && old(getEvent) ==> Pop() == (old(OutValid()) && WantsGet(d))
      ensures Looped(cfg) && !old(getEvent) ==> Pop() == old(Pop())
      ensures Looped(cfg) ==> getEvent == (old(putEvent) && ((Push() && EachPutWakes()) || old(Push())))
      ensures Looped(cfg) ==> putEvent == (old(getEvent) && ((Pop() && EachGetWakes()) || old(Pop())))
    {
      var runPut, runGet := TriggerMethods();
      Exchange(d, runPut, runGet);
    }

    /** The events of methods trigger; those of threads wait for the tick. */
    method TriggerMethods() returns (runPut: bool, runGet: bool)
      modifies this`getEvent, this`putEvent
      ensures runPut == (!cfg.threadPut && old(putEvent)) && runGet == (!cfg.threadGet && old(getEvent))
      ensures putEvent == (cfg.threadPut && old(putEvent)) && getEvent == (cfg.threadGet && old(getEvent))
    {
      runPut, runGet := !cfg.threadPut && putEvent, !cfg.threadGet && getEvent;
      if runPut { putEvent := false; }
      if runGet { getEvent := false; }
    }

    /** Two methods that see each other's requests, with both requests up and one method woken. */
    ghost predicate Endless(d: Demand<T>)
      reads `elementNumD, `putReq, `putReqD, `getReq, `getReqD, `putData, `putEvent, `getEvent
    {
      Looped(cfg) && SettledFor(d) && Push() && Pop() && (putEvent || getEvent)
    }

    /** Evaluating one takes its request back and makes it again, which wakes the other, and so on
        without end. */
    method EndlessDelta(d: Demand<T>)
      requires Valid() && Delivered() && Endless(d)
      modifies this`putReq, this`getReq, this`putData, this`putReqNext, this`getReqNext, this`putDataNext,
               this`updateEvent, this`getEvent, this`putEvent
      ensures Valid() && Delivered() && Endless(d) && Lag() == old(Lag())
    {
      Delta(d);
    }

    /** The delta cycles go on without end from here: both want something, a method is woken, and the
        element number is used, so that every request wakes the other side, or both requests are up
        already, or one is and both methods are woken. */
    predicate Spins(d: Demand<T>)
      reads `putReq, `putReqD, `getReq, `getReqD, `putEvent, `getEvent
    {
      && Looped(cfg) && WantsPut(d) && WantsGet(d) && (putEvent || getEvent)
      && (useElemNum || (Push() && Pop()) || ((Push() || Pop()) && putEvent && getEvent))
    }

    /** At the start of a clock cycle that is so exactly if the cycle does not rest. */
    lemma SpinsAtStart(d: Demand<T>)
      requires Valid() && Fresh(d) && (Looped(cfg) ==> NoMethodRequest())
      ensures Spins(d) <==> !Rests(cfg, useElemNum, d)
    {
    }

    /** It comes to the endless state exactly from there. */
    method LoopedDeltas(d: Demand<T>)
      requires Valid() && Delivered() && Fresh(d) && Looped(cfg)
      modifies this`putReq, this`getReq, this`putData, this`putReqNext, this`getReqNext, this`putDataNext,
               this`updateEvent, this`getEvent, this`putEvent
      ensures Valid() && Delivered() && Lag() == old(Lag())
      ensures if old(Spins(d)) then Endless(d) else Fresh(d) && Quiet()
    {
      Delta(d);
      Delta(d);
      Delta(d);
    }

    /** Any number of delta cycles, from three on: no method is woken any more if and only if they do not
        spin. What is then settled is what evaluating every method would settle. */
    method Deltas(d: Demand<T>, n: nat)
      requires Valid() && Delivered() && Fresh(d) && Alert() && 3 <= n
      modifies this`putReq, this`getReq, this`putData, this`putReqNext, this`getReqNext, this`putDataNext,
               this`updateEvent, this`getEvent, this`putEvent
      ensures Valid() && Delivered() && Lag() == old(Lag()) && Alert()
      ensures Quiet() <==> !old(Spins(d))
      ensures if Quiet() then SettledFor(d) else Endless(d)
    {
      ghost var spins := Spins(d);
      if Looped(cfg) {
        LoopedDeltas(d);
      } else {
        Delta(d);
        Delta(d);
        Delta(d);
      }
      for i := 3 to n
        invariant Valid() && Delivered() && Lag() == old(Lag()) && Alert()
        invariant if spins then Endless(d) else Fresh(d) && Quiet()
      {
        Delta(d);
      }
    }

    /** Delta cycles until no method is woken: three are enough. */
    method SettleByEvents(d: Demand<T>)
      requires Valid() && Delivered() && Fresh(d) && Alert() && !Spins(d)
      modifies this`putReq, this`getReq, this`putData, this`putReqNext, this`getReqNext, this`putDataNext,
               this`updateEvent, this`getEvent, this`putEvent
      ensures Valid() && Delivered() && Lag() == old(Lag()) && SettledFor(d) && Alert() && Quiet()
    {
      Deltas(d, 3);
    }

    /** What settled signals show, as an outcome. */
    function Shows(d: Demand<T>): Outcome<T>
      reads `elementNumD, `putReq, `putReqD, `getReq, `getReqD, `getData, `getDataNext, `putData
    {
      Outcome(PutReady(), OutValid(), PutReady() && WantsPut(d), OutValid() && WantsGet(d),
              if OutValid() then Some(GetData()) else None)
    }

    /** Settled signals are the settled network of the channel. */
    lemma SettledShows(d: Demand<T>)
      requires Valid() && SettledFor(d)
      ensures L.Possible(cfg, fifoSize, Lag()) && Shows(d) == L.Resolve(cfg, fifoSize, Lag(), d)
    {
      QueriesAreFlags();
      L.SettledIsUnique(cfg, fifoSize, Lag(), d, Shows(d));
    }

    /** The requests can be carried out, and doing so leaves this in the ring. */
    ghost predicate Leaves(ring: seq<T>)
      reads `stored, `putReq, `putReqD, `getReq, `getReqD, `putData
    {
      && (Push() ==> Pop() || |stored| < fifoSize)
      && (Pop() ==> Push() || stored != [])
      && ring == (stored + if Push() then [putData] else [])[(if Pop() then 1 else 0)..]
    }

    /** What the update leaves in the ring. */
    lemma RingNext(d: Demand<T>)
      requires Valid() && SettledFor(d) && L.Possible(cfg, fifoSize, Lag())
      requires Shows(d) == L.Resolve(cfg, fifoSize, Lag(), d)
      ensures var o := Shows(d);
              && Leaves(L.RingAfter(cfg, Lag(), d, o))
              && (o.pop && cfg.threadGet ==> L.RingAfter(cfg, Lag(), d, o) != [])
              && (o.push && cfg.threadPut ==> |L.RingAfter(cfg, Lag(), d, o)| < fifoSize)
    {
      var put := if Push() then [putData] else [];
      if cfg.threadGet && Pop() {
        assert (stored + put)[1..] == Visible() + put;
      }
      if !cfg.threadPut {
        assert L.Queue(Lag()) == Visible();
      }
    }

    /** The requests the threads granted by outcome o have written, not delivered yet. */
    ghost predicate Written(d: Demand<T>, o: Outcome<T>)
      reads `putReq, `putReqNext, `getReq, `getReqNext, `putDataNext, `updateEvent
    {
      && putReqNext == (putReq != (cfg.threadPut && o.push))
      && getReqNext == (getReq != (cfg.threadGet && o.pop))
      && (cfg.threadPut && o.push ==> WantsPut(d) && putDataNext == d.put.data)
      && ((cfg.threadPut && o.push) || (cfg.threadGet && o.pop) ==> updateEvent)
    }

    /** What the update of a tick notifies. */
    predicate UpdateWakesPut()
      reads `putReq, `putReqD, `getReq, `getReqD
    {
      (Push() || Pop()) && (!cfg.threadPut || (Pop() && cfg.syncReady))
    }

    predicate UpdateWakesGet()
      reads `putReq, `putReqD, `getReq, `getReqD
    {
      (Push() || Pop()) && (!cfg.threadGet || (Push() && cfg.syncValid))
    }

    /** Exactly when a tick notifies the event of the putting process: its own put, a get of a thread
        that helps it, or the update. */
    predicate TickWakesPut(o: Outcome<T>)
      reads `elementNumD, `putReq, `putReqD, `getReq, `getReqD
    {
      (cfg.threadPut && o.push) || (cfg.threadGet && o.pop && GetHelps()) || UpdateWakesPut()
    }

    predicate TickWakesGet(o: Outcome<T>)
      reads `elementNumD, `putReq, `putReqD, `getReq, `getReqD
    {
      (cfg.threadGet && o.pop) || (cfg.threadPut && o.push && PutHelps()) || UpdateWakesGet()
    }

    /** These notifications are exactly those of the cycles that wake a process. */
    lemma TickWakesIff(d: Demand<T>, o: Outcome<T>)
      requires Valid() && SettledFor(d) && o == Shows(d)
      ensures TickWakesPut(o) == WakesPut(cfg, useElemNum, fifoSize, Lag(), o)
      ensures TickWakesGet(o) == WakesGet(cfg, useElemNum, Lag(), o)
    {
    }

    /** The thread processes that are awake at a tick; one that sleeps would have done nothing. */
    method RunThreads(d: Demand<T>, runPut: bool, runGet: bool, ghost o: Outcome<T>)
      requires Delivered() && o == Shows(d) && !putEvent && !getEvent
      requires cfg.threadPut && !runPut ==> !o.push
      requires cfg.threadGet && !runGet ==> !o.pop
      modifies this`putReqNext, this`getReqNext, this`putDataNext, this`updateEvent, this`getEvent, this`putEvent
      ensures Written(d, o)
      ensures putEvent == ((cfg.threadPut && o.push) || (cfg.threadGet && o.pop && GetHelps()))
      ensures getEvent == ((cfg.threadGet && o.pop) || (cfg.threadPut && o.push && PutHelps()))
    {
      RunPutThread(d, runPut, o);
      RunGetThread(d, runGet, o);
    }

    method RunPutThread(d: Demand<T>, run: bool, ghost o: Outcome<T>)
      requires Delivered() && o == Shows(d) && (cfg.threadPut && !run ==> !o.push)
      modifies this`putReqNext, this`putDataNext, this`updateEvent, this`getEvent, this`putEvent
      ensures putReqNext == (putReq != (cfg.threadPut && o.push))
      ensures cfg.threadPut && o.push ==> WantsPut(d) && putDataNext == d.put.data && updateEvent
      ensures putEvent == (old(putEvent) || (cfg.threadPut && o.push))
      ensures getEvent == (old(getEvent) || (cfg.threadPut && o.push && PutHelps()))
    {
      if cfg.threadPut && run { var ok := PutProc(d.put); }
    }

    method RunGetThread(d: Demand<T>, run: bool, ghost o: Outcome<T>)
      requires getReqNext == getReq && o == Shows(d) && (cfg.threadGet && !run ==> !o.pop)
      modifies this`getReqNext, this`updateEvent, this`getEvent, this`putEvent
      ensures getReqNext == (getReq != (cfg.threadGet && o.pop))
      ensures old(updateEvent) || (cfg.threadGet && o.pop) ==> updateEvent
      ensures getEvent == (old(getEvent) || (cfg.threadGet && o.pop))
      ensures putEvent == (old(putEvent) || (cfg.threadGet && o.pop && GetHelps()))
    {
      if cfg.threadGet && run { var ok := GetProc(d.get); }
    }

    /** One tick: the awake threads and, if it is scheduled, the update all read what the cycle
        settled to. Threads write only signals that are delivered afterwards. */
    method ClockEdge(d: Demand<T>, runPut: bool, runGet: bool)
      requires Valid() && Delivered() && SettledFor(d) && L.Possible(cfg, fifoSize, Lag())
      requires cfg.threadPut && !runPut ==> !Shows(d).push
      requires cfg.threadGet && !runGet ==> !Shows(d).pop
      modifies this, buffer
      ensures Valid() && Delivered() && Lag() == L.After(cfg, fifoSize, old(Lag()), d) && NoMethodRequest()
      ensures putEvent == old(TickWakesPut(Shows(d))) && getEvent == old(TickWakesGet(Shows(d)))
    {
      SettledShows(d);
      RingNext(d);
      Tick(d, runPut, runGet, Shows(d), L.RingAfter(cfg, Lag(), d, Shows(d)), TickWakesPut(Shows(d)), TickWakesGet(Shows(d)));
    }

    /** A tick carries out the requests of methods. */
    predicate NoMethodRequest()
      reads `putReq, `putReqD, `getReq, `getReqD
    {
      (!cfg.threadPut ==> !Push()) && (!cfg.threadGet ==> !Pop())
    }

    /** One tick, with the ring it is to leave behind and the events it is to notify. */
    method Tick(d: Demand<T>, runPut: bool, runGet: bool, ghost o: Outcome<T>, ghost ring: seq<T>,
                ghost wakePut: bool, ghost wakeGet: bool)
      requires RingValid() && NoReset() && Delivered() && o == Shows(d)
      requires Push() || Pop() ==> updateEvent
      requires cfg.threadPut && !runPut ==> !o.push
      requires cfg.threadGet && !runGet ==> !o.pop
      requires Leaves(ring) && wakePut == TickWakesPut(o) && wakeGet == TickWakesGet(o)
      requires o.pop && cfg.threadGet ==> ring != []
      requires o.push && cfg.threadPut ==> |ring| < fifoSize
      modifies this, buffer
      ensures Valid() && Delivered() && Lag() == L.Pend(cfg, ring, d, o) && NoMethodRequest()
      ensures putEvent == wakePut && getEvent == wakeGet
    {
      var due := StartTick(d, runPut, runGet, o, wakePut, wakeGet);
      FinishTick(due, ring, d, o, wakePut, wakeGet);
    }

    /** The scheduled events trigger, and the awake threads run. */
    method StartTick(d: Demand<T>, runPut: bool, runGet: bool, ghost o: Outcome<T>,
                     ghost wakePut: bool, ghost wakeGet: bool) returns (due: bool)
      requires Delivered() && o == Shows(d) && wakePut == TickWakesPut(o) && wakeGet == TickWakesGet(o)
      requires cfg.threadPut && !runPut ==> !o.push
      requires cfg.threadGet && !runGet ==> !o.pop
      modifies this`putReqNext, this`getReqNext, this`putDataNext, this`updateEvent, this`getEvent, this`putEvent
      ensures Written(d, o) && due == old(updateEvent)
      ensures wakePut == (putEvent || UpdateWakesPut()) && wakeGet == (getEvent || UpdateWakesGet())
    {
      due := TriggerEvents();
      RunThreads(d, runPut, runGet, o);
    }

    method FinishTick(due: bool, ghost ring: seq<T>, ghost d: Demand<T>, ghost o: Outcome<T>,
                      ghost wakePut: bool, ghost wakeGet: bool)
      requires RingValid() && NoReset() && (Push() || Pop() ==> due)
      requires Leaves(ring) && Written(d, o)
      requires wakePut == (putEvent || UpdateWakesPut()) && wakeGet == (getEvent || UpdateWakesGet())
      requires o.pop && cfg.threadGet ==> ring != []
      requires o.push && cfg.threadPut ==> |ring| < fifoSize
      modifies this`getIndx, this`putIndx, this`elemNum, this`elementNumD, this`getData, this`getDataNext,
               this`putReqD, this`getReqD, this`stored, this`putEvent, this`getEvent, this`hasReset,
               this`putReq, this`getReq, this`putData, buffer
      ensures Valid() && Delivered() && Lag() == L.Pend(cfg, ring, d, o) && NoMethodRequest()
      ensures putEvent == wakePut && getEvent == wakeGet
    {
      Commit(due, ring, d, o, wakePut, wakeGet);
      DeliverThreads(d, o);
    }

    /** The scheduled events trigger and are no longer scheduled. */
    method TriggerEvents() returns (due: bool)
      modifies this`updateEvent, this`putEvent, this`getEvent
      ensures due == old(updateEvent) && !updateEvent && !putEvent && !getEvent
    {
      due := updateEvent;
      updateEvent, putEvent, getEvent := false, false, false;
    }

    /** The update of this tick, if one is scheduled; if none is, there is nothing to carry out. */
    method Commit(due: bool, ghost ring: seq<T>, ghost d: Demand<T>, ghost o: Outcome<T>,
                  ghost wakePut: bool, ghost wakeGet: bool)
      requires RingValid() && NoReset() && (Push() || Pop() ==> due)
      requires Leaves(ring) && Written(d, o)
      requires wakePut == (putEvent || UpdateWakesPut()) && wakeGet == (getEvent || UpdateWakesGet())
      modifies this`getIndx, this`putIndx, this`elemNum, this`elementNumD, this`getData, this`getDataNext,
               this`putReqD, this`getReqD, this`stored, this`putEvent, this`getEvent, this`hasReset, buffer
      ensures RingValid() && NoReset() && putReqD == putReq && getReqD == getReq && Written(d, o)
      ensures stored == ring
      ensures putEvent == wakePut && getEvent == wakeGet
    {
      if due { UpdateProc(); }
    }

    /** The end of the tick: requests of threads become pending. */
    method DeliverThreads(ghost d: Demand<T>, ghost o: Outcome<T>)
      requires RingValid() && NoReset() && putReqD == putReq && getReqD == getReq
      requires Written(d, o)
      requires cfg.threadPut && o.push ==> |stored| < fifoSize
      requires cfg.threadGet && o.pop ==> stored != []
      modifies this`putReq, this`getReq, this`putData
      ensures Valid() && Delivered() && Lag() == L.Pend(cfg, stored, d, o) && NoMethodRequest()
    {
      Deliver();
    }

    /** One whole cycle with both processes awake is one step of the lagging channel, in every
        configuration. The events it leaves scheduled are exactly the listed ones, so it says when a
        thread in front of a ready channel is woken. */
    method Cycle(d: Demand<T>) returns (o: Outcome<T>)
      requires Valid() && Delivered()
      modifies this, buffer
      ensures Valid() && Delivered() && NoMethodRequest() && L.Possible(cfg, fifoSize, old(Lag()))
      ensures o == L.Resolve(cfg, fifoSize, old(Lag()), d)
      ensures Lag() == L.After(cfg, fifoSize, old(Lag()), d)
      ensures putEvent == WakesPut(cfg, useElemNum, fifoSize, old(Lag()), o)
      ensures getEvent == WakesGet(cfg, useElemNum, old(Lag()), o)
    {
      Settle(d);
      SettledShows(d);
      o := Shows(d);
      TickWakesIff(d, o);
      ClockEdge(d, true, true);
    }

    /** A cycle, and whether it leaves a thread asleep in front of a channel it could use. */
    method CycleKeeps(d: Demand<T>) returns (o: Outcome<T>)
      requires Valid() && Delivered()
      modifies this, buffer
      ensures Valid() && Delivered() && o == L.Resolve(cfg, fifoSize, old(Lag()), d)
      ensures cfg.threadPut ==>
                ((PutReady() ==> putEvent) <==> PutterKept(cfg, useElemNum, fifoSize, old(Lag()), d, o))
      ensures cfg.threadGet ==>
                ((OutValid() ==> getEvent) <==> GetterKept(cfg, useElemNum, old(Lag()), d, o))
    {
      QueriesAreFlags();
      if cfg.threadPut { PutterWokenIff(cfg, useElemNum, fifoSize, Lag(), d); }
      if cfg.threadGet { GetterWokenIff(cfg, useElemNum, fifoSize, Lag(), d); }
      o := Cycle(d);
      QueriesAreFlags();
    }

    /** After a tick every thread that could act is scheduled, if threads try whenever they are awake,
        and every method whose request does not follow its demand is woken. */
    lemma StaysAlert(s: L.State<T>, d: Demand<T>, o: Outcome<T>)
      requires Valid() && NoMethodRequest() && L.Possible(cfg, fifoSize, s)
      requires o == L.Resolve(cfg, fifoSize, s, d) && Lag() == L.After(cfg, fifoSize, s, d) && Tries(d)
      requires (WakesPut(cfg, useElemNum, fifoSize, s, o) ==> putEvent) && (WakesGet(cfg, useElemNum, s, o) ==> getEvent)
      ensures Alert() && Fresh(d)
    {
      QueriesAreFlags();
      if WantsPut(d) { PutterIsWoken(cfg, useElemNum, fifoSize, s, d); }
      if WantsGet(d) { GetterIsWoken(cfg, useElemNum, fifoSize, s, d); }
    }

    /** Thread processes try; methods may do anything. */
    predicate Tries(d: Demand<T>) {
      (cfg.threadPut ==> WantsPut(d)) && (cfg.threadGet ==> WantsGet(d))
    }

    /** A tick at which only the scheduled threads run. */
    method EventTick(d: Demand<T>)
      requires Valid() && Delivered() && SettledFor(d) && Alert() && Tries(d) && L.Possible(cfg, fifoSize, Lag())
      modifies this, buffer
      ensures Valid() && Delivered() && Fresh(d) && Alert() && NoMethodRequest()
      ensures Lag() == L.After(cfg, fifoSize, old(Lag()), d)
    {
      ghost var s, o := Lag(), Shows(d);
      SettledShows(d);
      TickWakesIff(d, o);
      ClockEdge(d, putEvent, getEvent);
      StaysAlert(s, d, o);
    }

    /** Between two cycles driven by events: every process that has something to do is woken. */
    ghost predicate Between(before: Demand<T>)
      reads this, buffer
    {
      Valid() && Delivered() && Fresh(before) && Alert() && NoMethodRequest()
    }

    /** One whole cycle driven by events alone: the methods that are woken, by the channel or because
        their demand changed, then at the tick the threads that are scheduled. It shows and leaves
        what a cycle with every process running would. No wakeup is lost. */
    method EventCycle(ghost before: Demand<T>, d: Demand<T>, putChanged: bool, getChanged: bool) returns (o: Outcome<T>)
      requires Between(before) && Tries(d) && Rests(cfg, useElemNum, d)
      requires (d.put != before.put ==> putChanged) && (d.get != before.get ==> getChanged)
      modifies this, buffer
      ensures Between(d) && L.Possible(cfg, fifoSize, old(Lag()))
      ensures o == L.Resolve(cfg, fifoSize, old(Lag()), d)
      ensures Lag() == L.After(cfg, fifoSize, old(Lag()), d)
    {
      o := Awaken(before, d, putChanged, getChanged);
      EventTick(d);
    }

    /** The part of a cycle before its tick. */
    method Awaken(ghost before: Demand<T>, d: Demand<T>, putChanged: bool, getChanged: bool) returns (o: Outcome<T>)
      requires Valid() && Delivered() && Fresh(before) && Alert()
      requires (d.put != before.put ==> putChanged) && (d.get != before.get ==> getChanged)
      requires NoMethodRequest() && Rests(cfg, useElemNum, d)
      modifies this`putReq, this`getReq, this`putData, this`putReqNext, this`getReqNext, this`putDataNext,
               this`updateEvent, this`getEvent, this`putEvent
      ensures Valid() && Delivered() && Lag() == old(Lag()) && SettledFor(d) && Alert()
      ensures L.Possible(cfg, fifoSize, old(Lag())) && o == L.Resolve(cfg, fifoSize, old(Lag()), d)
    {
      WakeChanged(before, d, putChanged, getChanged);
      SpinsAtStart(d);
      SettleByEvents(d);
      SettledShows(d);
      o := Shows(d);
    }

    /** A method whose demand changes is woken by whatever changed it. */
    method WakeChanged(ghost before: Demand<T>, ghost d: Demand<T>, putChanged: bool, getChanged: bool)
      requires Fresh(before) && Alert()
      requires (d.put != before.put ==> putChanged) && (d.get != before.get ==> getChanged)
      modifies this`getEvent, this`putEvent
      ensures Fresh(d) && Alert()
    {
      if !cfg.threadPut && putChanged { putEvent := true; }
      if !cfg.threadGet && getChanged { getEvent := true; }
    }

    /** A cycle in which every method's demand may change, up to its n-th delta cycle: no method is woken
        any more. */
    method RestsAfter(ghost before: Demand<T>, d: Demand<T>, n: nat) returns (rests: bool)
      requires Between(before) && 3 <= n
      modifies this`putReq, this`getReq, this`putData, this`putReqNext, this`getReqNext, this`putDataNext,
               this`updateEvent, this`getEvent, this`putEvent
      ensures rests <==> Rests(cfg, useElemNum, d)
    {
      WakeChanged(before, d, true, true);
      SpinsAtStart(d);
      Deltas(d, n);
      rests := Quiet();
    }

    /** A thread that declines a ready channel with no get pending or made: it stays ready, and the
        event of the thread is not scheduled. */
    method DeclinePut(d: Demand<T>) returns (o: Outcome<T>)
      requires Valid() && Delivered() && cfg.threadPut && !WantsPut(d) && PutReady() && !Pop()
      requires (cfg.threadGet && !useElemNum) || !WantsGet(d)
      modifies this, buffer
      ensures Valid() && PutReady() && !putEvent
    {
      QueriesAreFlags();
      PutterWokenIffTries(cfg, useElemNum, fifoSize, Lag(), d);
      o := Cycle(d);
      QueriesAreFlags();
    }

    method DeclineGet(d: Demand<T>) returns (o: Outcome<T>)
      requires Valid() && Delivered() && cfg.threadGet && !WantsGet(d) && OutValid() && !Push()
      requires (cfg.threadPut && !useElemNum) || !WantsPut(d)
      modifies this, buffer
      ensures Valid() && OutValid() && !getEvent
    {
      QueriesAreFlags();
      GetterWokenIffTries(cfg, useElemNum, fifoSize, Lag(), d);
      o := Cycle(d);
      QueriesAreFlags();
    }
  }
}
