/** The cycle-accurate FIFO as it is simulated. A put or get from a thread toggles a request
    signal at a clock edge and is carried out one edge later, so the registers lag behind the
    queue by up to one pending push and one pending pop. */
module SimFifo {
  import opened QueueChannel
  import L = LaggingChannel
  import Ring

  class Fifo<T> {
    const cfg: Config
    const length: nat
    const zero: T
    const buffer: array<T>

    /** What the ring stores, oldest first. */
    ghost var stored: seq<T>

    // Registers, written at a clock edge
    var popIndx: nat
    var pushIndx: nat
    var elementNumD: nat
    var putReqD: bool
    var getReqD: bool

    // Requests: registers for a thread, combinational for a method
    var putReq: bool
    var getReq: bool
    var dataIn: T

    // Outputs of asyncProc
    var readyPush: bool
    var outValid: bool
    var dataOut: T
    var elementNum: int

    predicate Push()
      reads this
    {
      if cfg.threadPut then putReq != putReqD else putReq
    }

    predicate Pop()
      reads this
    {
      if cfg.threadGet then getReq != getReqD else getReq
    }

    predicate PendingPut()
      reads this
    {
      cfg.threadPut && putReq != putReqD
    }

    predicate PendingGet()
      reads this
    {
      cfg.threadGet && getReq != getReqD
    }

    ghost predicate Valid()
      reads this, buffer
    {
      && 0 < length == buffer.Length
      && popIndx < length
      && |stored| == elementNumD <= length
      && pushIndx == Ring.Wrap(popIndx + elementNumD, length)
      && stored == Ring.Contents(buffer[..], popIndx, elementNumD)
      && (PendingPut() ==> elementNumD < length)
      && (PendingGet() ==> 0 < elementNumD)
    }

    /** The queue as the getting side sees it: without the element a pending get took. */
    ghost function Visible(): (q: seq<T>)
      reads this
    {
      if PendingGet() && stored != [] then stored[1..] else stored
    }

    /** The element of a pending put. */
    ghost function Coming(): (q: seq<T>)
      reads this
    {
      if PendingPut() then [dataIn] else []
    }

    /** The channel state the registers stand for. */
    ghost function Lag(): (s: L.State<T>)
      reads this
    {
      L.State(Visible(), Coming(), PendingGet())
    }

    /** The outputs match the registers and requests they are computed from. */
    ghost predicate OutputsFollow()
      reads this
    {
      && outValid == L.Valid(cfg, Lag(), putReq)
      && readyPush == L.Ready(cfg, length, Lag(), getReq)
      && (outValid ==> dataOut == if Visible() != [] then Visible()[0] else dataIn)
      && elementNum == elementNumD + (if Push() then 1 else 0) - (if Pop() then 1 else 0)
    }

    constructor (cfg: Config, length: nat, zero: T)
      requires 0 < length
      ensures Valid() && fresh(buffer)
      ensures this.cfg == cfg && this.length == length && this.zero == zero
      ensures Lag() == L.State([], [], false)
    {
      this.cfg, this.length, this.zero := cfg, length, zero;
      buffer := new T[length](_ => zero);
      stored := [];
      popIndx, pushIndx, elementNumD := 0, 0, 0;
      putReqD, getReqD, putReq, getReq := false, false, false, false;
      dataIn, dataOut := zero, zero;
      readyPush, outValid, elementNum := false, false, 0;
    }

    /** The element shown to the getting side is in the ring slot asyncProc reads. */
    lemma VisibleHead(indx: nat)
      requires Valid()
      requires indx == if PendingGet() then Ring.Next(popIndx, length) else popIndx
      ensures Visible() != [] ==> Visible()[0] == buffer[indx]
    {
      if Visible() != [] {
        var rest := Ring.Contents(buffer[..], Ring.Next(popIndx, length), elementNumD - 1);
        assert stored == [buffer[popIndx]] + rest;
        assert PendingGet() ==> Visible() == rest;
      }
    }

    method AsyncProc()
      requires Valid()
      modifies this`readyPush, this`outValid, this`dataOut, this`elementNum
      ensures OutputsFollow()
    {
      var notEmpty := elementNumD != 0;
      var notOne := elementNumD != 1;
      var notFullOne := elementNumD != length - 1;
      var notFull := elementNumD != length;
      var push := if cfg.threadPut then putReq != putReqD else putReq;
      var pop := if cfg.threadGet then getReq != getReqD else getReq;

      var valid, indx, ready;
      // A pop in a thread is carried out at the next clock edge
      if cfg.threadGet && pop {
        valid := notEmpty && notOne;
        indx := if popIndx == length - 1 then 0 else popIndx + 1;
      } else {
        valid := notEmpty;
        indx := popIndx;
      }
      if cfg.threadPut && push {
        ready := notFull && notFullOne;
      } else {
        ready := notFull;
      }
      VisibleHead(indx);
      DriveOutputs(push, pop, valid, ready, indx);
    }

    /** The second half of asyncProc: the output signals, once it is known whether the ring
        alone is valid and ready. */
    method DriveOutputs(push: bool, pop: bool, valid: bool, ready: bool, indx: nat)
      requires indx < buffer.Length
      requires push == Push() && pop == Pop()
      requires valid == (Visible() != []) && (valid ==> Visible()[0] == buffer[indx])
      requires ready == (L.Occupied(Lag()) + |Coming()| < length)
      modifies this`readyPush, this`outValid, this`dataOut, this`elementNum
      ensures OutputsFollow()
    {
      outValid := if !cfg.syncValid then push || valid else valid;
      // Empty FIFO with push: the input data is what a pop takes
      dataOut := if cfg.syncValid || valid then buffer[indx] else dataIn;
      readyPush := if !cfg.syncReady then pop || ready else ready;
      elementNum := if pop && !push then elementNumD - 1
                    else if !pop && push then elementNumD + 1
                    else elementNumD;
    }

    /** What is granted fits: room for the push unless something is popped, and the other way round. */
    lemma GrantsFit()
      requires Valid() && OutputsFollow()
      requires !cfg.threadPut && putReq ==> readyPush
      requires !cfg.threadGet && getReq ==> outValid
      ensures (Pop() ==> Push() || stored != []) && (Push() ==> Pop() || |stored| < length)
    {
    }

    /** The clock-edge process. A method's request is up only if the settled network grants it. */
    method SyncProc()
      requires Valid() && OutputsFollow()
      requires !cfg.threadPut && putReq ==> readyPush
      requires !cfg.threadGet && getReq ==> outValid
      modifies this`popIndx, this`pushIndx, this`elementNumD, this`putReqD, this`getReqD, this`stored, buffer
      ensures Valid() && !PendingPut() && !PendingGet()
      ensures stored == (old(stored) + (if old(Push()) then [dataIn] else []))[(if old(Pop()) then 1 else 0)..]
    {
      GrantsFit();
      CarryOut();
    }

    method CarryOut()
      requires Valid() && elementNum == elementNumD + (if Push() then 1 else 0) - (if Pop() then 1 else 0)
      requires (Pop() ==> Push() || stored != []) && (Push() ==> Pop() || |stored| < length)
      modifies this`popIndx, this`pushIndx, this`elementNumD, this`putReqD, this`getReqD, this`stored, buffer
      ensures Valid() && !PendingPut() && !PendingGet()
      ensures stored == (old(stored) + (if old(Push()) then [dataIn] else []))[(if old(Pop()) then 1 else 0)..]
    {
      var push := if cfg.threadPut then putReq != putReqD else putReq;
      var pop := if cfg.threadGet then getReq != getReqD else getReq;
      MoveRing(push, pop);
      StoreRequests();
    }

    method StoreRequests()
      requires 0 <= elementNum
      modifies this`putReqD, this`getReqD, this`elementNumD
      ensures putReqD == (if cfg.threadPut then putReq else old(putReqD))
      ensures getReqD == (if cfg.threadGet then getReq else old(getReqD))
      ensures elementNumD == elementNum
    {
      if cfg.threadPut { putReqD := putReq; }
      if cfg.threadGet { getReqD := getReq; }
      elementNumD := elementNum;
    }

    /** The part of syncProc that moves the indices and writes the pushed element. */
    method MoveRing(push: bool, pop: bool)
      requires 0 < length == buffer.Length && popIndx < length && |stored| <= length
      requires pushIndx == Ring.Wrap(popIndx + |stored|, length)
      requires stored == Ring.Contents(buffer[..], popIndx, |stored|)
      requires pop ==> push || stored != []
      requires push ==> pop || |stored| < length
      modifies this`popIndx, this`pushIndx, this`stored, buffer
      ensures popIndx < length
      ensures stored == (old(stored) + (if push then [dataIn] else []))[(if pop then 1 else 0)..]
      ensures |stored| == |old(stored)| + (if push then 1 else 0) - (if pop then 1 else 0) <= length
      ensures pushIndx == Ring.Wrap(popIndx + |stored|, length)
      ensures stored == Ring.Contents(buffer[..], popIndx, |stored|)
    {
      ghost var start, count, was := popIndx, |stored|, buffer[..];
      if pop {
        popIndx := if popIndx == length - 1 then 0 else popIndx + 1;
      }
      if push {
        buffer[pushIndx] := dataIn;
        pushIndx := if pushIndx == length - 1 then 0 else pushIndx + 1;
      }
      Ring.Edge(was, start, count, push, dataIn, pop, buffer[..], popIndx, pushIndx);
      stored := (stored + if push then [dataIn] else [])[(if pop then 1 else 0)..];
    }

    /** Reset at any time: the reset branches of syncProc and of both attached processes. */
    method Reset()
      requires Valid()
      modifies this`popIndx, this`pushIndx, this`elementNumD, this`putReqD, this`getReqD,
               this`putReq, this`getReq, this`dataIn, this`stored, buffer
      ensures Valid() && Lag() == L.State([], [], false) && buffer[0] == zero
    {
      popIndx, pushIndx := 0, 0;
      if cfg.threadPut { putReqD := false; }
      if cfg.threadGet { getReqD := false; }
      elementNumD, stored := 0, [];
      buffer[0] := zero;
      putReq, dataIn, getReq := false, zero, false;
    }

    method ClearPut()
      modifies this`putReq, this`dataIn
      ensures dataIn == zero && putReq == (cfg.threadPut && old(putReq))
    {
      if !cfg.threadPut { putReq := false; }
      dataIn := zero;
    }

    method ClearGet()
      modifies this`getReq
      ensures getReq == (cfg.threadGet && old(getReq))
    {
      if !cfg.threadGet { getReq := false; }
    }

    /** The data register is written even when nothing is put. */
    method Put(data: T, mask: bool) returns (ok: bool)
      modifies this`putReq, this`dataIn
      ensures ok == (readyPush && mask) && dataIn == data
      ensures if cfg.threadPut then putReq == (old(putReq) != ok) else putReq == ok
    {
      dataIn := data;
      if cfg.threadPut {
        putReq := if readyPush && mask then !putReq else putReq;
      } else {
        putReq := readyPush && mask;
      }
      ok := readyPush && mask;
    }

    method Get(enable: bool) returns (data: T, ok: bool)
      modifies this`getReq
      ensures ok == (outValid && enable) && data == dataOut
      ensures if cfg.threadGet then getReq == (old(getReq) != ok) else getReq == ok
    {
      data := dataOut;
      if cfg.threadGet {
        getReq := if outValid && enable then !getReq else getReq;
      } else {
        getReq := outValid && enable;
      }
      ok := outValid && enable;
    }

    /** The body of the putting process. A method drops its old request first. */
    method PutProc(call: PutCall<T>) returns (ok: bool)
      modifies this`putReq, this`dataIn
      ensures ok == (readyPush && call.TryPut? && call.mask)
      ensures if cfg.threadPut then putReq == (old(putReq) != ok) else putReq == ok
      ensures call.TryPut? ==> dataIn == call.data
    {
      ok := false;
      if !cfg.threadPut { ClearPut(); }
      match call {
        case NoPut =>
        case ClearPut => ClearPut();
        case TryPut(data, mask) => ok := Put(data, mask);
      }
    }

    /** The body of the getting process. */
    method GetProc(call: GetCall) returns (ok: bool)
      modifies this`getReq
      ensures ok == (outValid && call.TryGet? && call.enable)
      ensures if cfg.threadGet then getReq == (old(getReq) != ok) else getReq == ok
    {
      ok := false;
      if !cfg.threadGet { ClearGet(); }
      match call {
        case NoGet =>
        case ClearGet => ClearGet();
        case TryGet(enable) => var data; data, ok := Get(enable);
      }
    }

    /** Nothing is left to evaluate in this cycle: asyncProc and both method processes would
        write what is already there. */
    ghost predicate SettledFor(d: Demand<T>)
      reads this
    {
      && OutputsFollow()
      && (!cfg.threadPut ==> putReq == (readyPush && WantsPut(d)))
      && (!cfg.threadPut && d.put.TryPut? ==> dataIn == d.put.data)
      && (!cfg.threadGet ==> getReq == (outValid && WantsGet(d)))
    }

    /** Evaluates each combinational process once, from whatever requests are there. */
    method Evaluate(d: Demand<T>)
      requires Valid()
      modifies this`readyPush, this`outValid, this`dataOut, this`elementNum,
               this`putReq, this`getReq, this`dataIn
      ensures Valid() && Lag() == old(Lag())
      ensures cfg.threadPut ==> putReq == old(putReq) && dataIn == old(dataIn)
      ensures cfg.threadGet ==> getReq == old(getReq)
      ensures !cfg.threadPut && d.put.TryPut? ==> dataIn == d.put.data
      ensures !cfg.threadPut ==>
                putReq == (L.Ready(cfg, length, Lag(), old(getReq)) && WantsPut(d))
      ensures !cfg.threadGet ==>
                getReq == (L.Valid(cfg, Lag(), old(putReq)) && WantsGet(d))
    {
      AsyncProc();
      if !cfg.threadPut { var ok := PutProc(d.put); }
      if !cfg.threadGet { var ok := GetProc(d.get); }
    }

    /** Evaluates the combinational processes until nothing changes. Two rounds are enough from
        any stale requests, in every configuration. */
    method Settle(d: Demand<T>)
      requires Valid()
      modifies this`readyPush, this`outValid, this`dataOut, this`elementNum,
               this`putReq, this`getReq, this`dataIn
      ensures Valid() && SettledFor(d)
      ensures Lag() == old(Lag())
      ensures cfg.threadPut ==> putReq == old(putReq) && dataIn == old(dataIn)
      ensures cfg.threadGet ==> getReq == old(getReq)
    {
      Evaluate(d);
      Evaluate(d);
      AsyncProc();
    }

    /** What settled signals show, as an outcome. */
    ghost function Shows(d: Demand<T>): Outcome<T>
      reads `readyPush, `outValid, `dataOut
    {
      Outcome(readyPush, outValid, readyPush && WantsPut(d), outValid && WantsGet(d),
              if outValid then Some(dataOut) else None)
    }

    /** The thread processes at a clock edge, after syncProc has carried out the pending requests. */
    method ThreadProcs(d: Demand<T>, ghost o: Outcome<T>)
      requires Valid() && !PendingPut() && !PendingGet() && o == Shows(d)
      requires o.pop && cfg.threadGet ==> stored != []
      requires o.push && cfg.threadPut ==> |stored| < length
      modifies this`putReq, this`getReq, this`dataIn
      ensures Valid()
      ensures Lag() == L.Pend(cfg, stored, d, o)
    {
      if cfg.threadPut { var ok := PutProc(d.put); }
      if cfg.threadGet { var ok := GetProc(d.get); }
    }

    /** Settled signals are the settled network of the channel. */
    lemma SettledShows(d: Demand<T>)
      requires Valid() && SettledFor(d)
      ensures L.Possible(cfg, length, Lag()) && Shows(d) == L.Resolve(cfg, length, Lag(), d)
    {
      L.SettledIsUnique(cfg, length, Lag(), d, Shows(d));
    }

    /** What the edge leaves in the ring: the pending requests of threads and the settled ones of
        methods are carried out. */
    lemma RingNext(d: Demand<T>)
      requires Valid() && SettledFor(d) && L.Possible(cfg, length, Lag())
      requires Shows(d) == L.Resolve(cfg, length, Lag(), d)
      ensures var o := Shows(d);
              && (stored + if Push() then [dataIn] else [])[(if Pop() then 1 else 0)..]
                 == L.RingAfter(cfg, Lag(), d, o)
              && (o.pop && cfg.threadGet ==> L.RingAfter(cfg, Lag(), d, o) != [])
              && (o.push && cfg.threadPut ==> |L.RingAfter(cfg, Lag(), d, o)| < length)
    {
      var put := if Push() then [dataIn] else [];
      if PendingGet() {
        assert (stored + put)[1..] == Visible() + put;
      }
      if !cfg.threadPut {
        assert L.Queue(Lag()) == Visible();
      }
    }

    /** One clock edge: the clock-edge process and the thread processes all read what the cycle
        settled to. SyncProc writes nothing the threads read, so running it first is faithful. */
    method ClockEdge(d: Demand<T>)
      requires Valid() && SettledFor(d) && L.Possible(cfg, length, Lag())
      modifies this`popIndx, this`pushIndx, this`elementNumD, this`putReqD, this`getReqD,
               this`putReq, this`getReq, this`dataIn, this`stored, buffer
      ensures Valid() && Lag() == L.After(cfg, length, old(Lag()), d)
    {
      SettledShows(d);
      RingNext(d);
      FinishEdge(d, Shows(d), L.RingAfter(cfg, Lag(), d, Shows(d)));
    }

    /** The clock edge, with the ring it is to leave behind. */
    method FinishEdge(d: Demand<T>, ghost o: Outcome<T>, ghost ring: seq<T>)
      requires Valid() && SettledFor(d) && o == Shows(d)
      requires ring == (stored + if Push() then [dataIn] else [])[(if Pop() then 1 else 0)..]
      requires o.pop && cfg.threadGet ==> ring != []
      requires o.push && cfg.threadPut ==> |ring| < length
      modifies this`popIndx, this`pushIndx, this`elementNumD, this`putReqD, this`getReqD,
               this`putReq, this`getReq, this`dataIn, this`stored, buffer
      ensures Valid() && Lag() == L.Pend(cfg, ring, d, o)
    {
      SyncProc();
      ThreadProcs(d, o);
    }

    /** One whole cycle is one step of the lagging channel, in every configuration. */
    method Cycle(d: Demand<T>) returns (o: Outcome<T>)
      requires Valid()
      modifies this, buffer
      ensures Valid() && L.Possible(cfg, length, old(Lag()))
      ensures o == L.Resolve(cfg, length, old(Lag()), d)
      ensures Lag() == L.After(cfg, length, old(Lag()), d)
    {
      Settle(d);
      SettledShows(d);
      o := Outcome(readyPush, outValid, readyPush && WantsPut(d), outValid && WantsGet(d),
                   if outValid then Some(dataOut) else None);
      ClockEdge(d);
    }

    /** The number a user reads: the registered one if both sides are methods, else the
        combinational one. */
    function ElemNum(): int
      reads this
    {
      if !cfg.threadPut && !cfg.threadGet then elementNumD else elementNum
    }

    /** The settled number is the size of the true queue, except that with one thread and one
        method the method's own request of this cycle is already counted. It always fits the
        signal it is stored in. */
    lemma ElemNumCounts(d: Demand<T>)
      requires Valid() && SettledFor(d)
      ensures ElemNum() == |L.Queue(Lag())|
                           + (if cfg.threadGet && !cfg.threadPut && putReq then 1 else 0)
                           - (if cfg.threadPut && !cfg.threadGet && getReq then 1 else 0)
      ensures 0 <= elementNum <= length
    {
      assert |L.Queue(Lag())| == |Visible()| + |Coming()|;
    }
  }
}
