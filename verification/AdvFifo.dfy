/** The FIFO of the shared memory design without clock-match enables: outputs computed from the
    inputs and registers, and a clocked process that moves the ring. */
module AdvFifo {
  import opened AdvChannel
  import Ring

  class Fifo<T> {
    const cfg: Config
    const zero: T
    const buffer: array<T>

    // Registers
    var popIndx: nat
    var pushIndx: nat
    var elementNum: nat
    var elementNumOut: nat
    var popData: T
    var outValidReg: bool
    var readyPushReg: bool
    var almostFullReg: bool

    // Outputs of asyncProc
    var outValid: bool
    var dataOut: T
    var readyToPush: bool
    var almostFull: bool
    var pushSig: bool

    /** What the ring stores, and whether a clock edge has passed since reset. */
    ghost var state: State<T>

    ghost predicate Flags()
      reads `elementNumOut, `outValidReg, `readyPushReg, `almostFullReg, `popData, `state
    {
      && outValidReg == (state.q != [])
      && readyPushReg == (state.started && |state.q| != cfg.length)
      && almostFullReg == (|state.q| >= cfg.length - cfg.afull)
      && (cfg.asyncAfull ==> elementNumOut == |state.q|)
      && (state.q != [] ==> popData == state.q[0])
    }

    ghost predicate Stored()
      reads `popIndx, `pushIndx, `elementNum, `state, buffer
    {
      && AdvChannel.Valid(cfg, state) && buffer.Length == cfg.length && popIndx < cfg.length
      && elementNum == |state.q| && pushIndx == Ring.Wrap(popIndx + elementNum, cfg.length)
      && state.q == Ring.Contents(buffer[..], popIndx, elementNum)
    }

    ghost predicate Valid()
      reads this, buffer
    {
      Stored() && Flags()
    }

    constructor (cfg: Config, zero: T)
      requires Allowed(cfg)
      ensures Valid() && this.cfg == cfg && state == State([], false) && fresh(buffer)
    {
      this.cfg, this.zero := cfg, zero;
      buffer := new T[cfg.length](_ => zero);
      popIndx, pushIndx, elementNum, elementNumOut, popData := 0, 0, 0, 0, zero;
      outValidReg, readyPushReg, almostFullReg := false, false, false;
      outValid, dataOut, readyToPush, almostFull, pushSig := false, zero, false, false, false;
      state := State([], false);
    }

    method Reset()
      requires Valid()
      modifies this, buffer
      ensures Valid() && state == State([], false)
    {
      elementNumOut, outValidReg, almostFullReg, readyPushReg := 0, false, false, false;
      elementNum, popIndx, pushIndx, popData := 0, 0, 0, zero;
      buffer[0] := zero;
      state := State([], false);
    }

    method AsyncProc(i: Inputs<T>)
      requires Flags() && Allowed(cfg) && |state.q| <= cfg.length
      modifies `outValid, `dataOut, `readyToPush, `almostFull, `pushSig
      ensures outValid == ValidFlag(cfg, state, i) && readyToPush == ReadyFlag(cfg, state, i)
      ensures outValid ==> dataOut == Shown(cfg, state, i)
      ensures almostFull == AlmostFullFlag(cfg, state, i)
      ensures pushSig == (i.push && !(cfg.asyncValid && state.q == [] && i.pop))
    {
      if cfg.asyncValid {
        if !outValidReg {
          dataOut, outValid, pushSig := i.data, i.push, i.push && !i.pop;
        } else {
          outValid, dataOut, pushSig := true, popData, i.push;
        }
      } else {
        outValid, dataOut, pushSig := outValidReg, popData, i.push;
      }
      readyToPush := if cfg.asyncReady then (i.pop && outValidReg) || readyPushReg else readyPushReg;
      almostFull := if cfg.asyncAfull
                    then almostFullReg || (i.push && !i.pop && elementNumOut == cfg.length - cfg.afull - 1)
                    else almostFullReg;
    }

    /** The pop and push of syncProc. There is always a free slot for the push. */
    method MoveRing(push: bool, data: T, pop: bool)
      requires 0 < cfg.length == buffer.Length && popIndx < cfg.length && elementNum <= cfg.length
      requires pushIndx == Ring.Wrap(popIndx + elementNum, cfg.length)
      requires (pop ==> 0 < elementNum) && (push ==> pop || elementNum < cfg.length)
      modifies `popIndx, `pushIndx, `elementNum, buffer
      ensures popIndx < cfg.length && elementNum <= cfg.length
      ensures elementNum == old(elementNum) + (if push then 1 else 0) - (if pop then 1 else 0)
      ensures pushIndx == Ring.Wrap(popIndx + elementNum, cfg.length)
      ensures Ring.Contents(buffer[..], popIndx, elementNum)
              == (old(Ring.Contents(buffer[..], popIndx, elementNum)) + (if push then [data] else []))[(if pop then 1 else 0)..]
    {
      ghost var start, count, was := popIndx, elementNum, buffer[..];
      if pop {
        if cfg.length > 1 {
          popIndx := if popIndx == cfg.length - 1 then 0 else popIndx + 1;
          elementNum := elementNum - 1;
        } else {
          elementNum := 0;
        }
      }
      if push {
        assert elementNum < cfg.length;
        buffer[pushIndx] := data;
        if cfg.length > 1 {
          pushIndx := if pushIndx == cfg.length - 1 then 0 else pushIndx + 1;
          elementNum := elementNum + 1;
        } else {
          elementNum := 1;
        }
      }
      Ring.Edge(was, start, count, push, data, pop, buffer[..], popIndx, pushIndx);
    }

    method MoveState(i: Inputs<T>)
      requires Stored() && Flags()
      requires readyToPush == ReadyFlag(cfg, state, i)
      requires pushSig == (i.push && !(cfg.asyncValid && state.q == [] && i.pop))
      modifies `popIndx, `pushIndx, `elementNum, `state, buffer
      ensures Stored() && state == After(cfg, old(state), i)
    {
      MoveRing(pushSig && readyToPush, i.data, i.pop && outValidReg);
      state := After(cfg, state, i);
    }

    /** The registers written from the moved ring. */
    method StoreFlags()
      requires Stored() && state.started
      modifies `popData, `almostFullReg, `readyPushReg, `elementNumOut, `outValidReg
      ensures Flags()
    {
      popData := buffer[popIndx];
      almostFullReg := elementNum > cfg.length - cfg.afull - 1;
      readyPushReg := elementNum != cfg.length;
      if cfg.asyncAfull { elementNumOut := elementNum; }
      outValidReg := elementNum != 0;
    }

    /** One cycle, in every configuration the constructor admits, for any inputs. */
    method Cycle(i: Inputs<T>)
      requires Valid()
      modifies this, buffer
      ensures Valid() && state == After(cfg, old(state), i)
      ensures readyToPush == ReadyFlag(cfg, old(state), i) && outValid == ValidFlag(cfg, old(state), i)
      ensures outValid ==> dataOut == Shown(cfg, old(state), i)
      ensures almostFull == AlmostFullFlag(cfg, old(state), i)
      ensures i.push && old(state).started ==>
                readyToPush == (|old(state).q| < cfg.length || (cfg.asyncReady && i.pop))
    {
      if i.push { RefusedIff(cfg, state, i); }
      AsyncProc(i);
      MoveState(i);
      StoreFlags();
    }

    /** A whole run: what the ports hand over is what the machine accepts and takes. */
    method Run(ins: seq<Inputs<T>>) returns (accepted: seq<T>, taken: seq<T>)
      requires Valid()
      modifies this, buffer
      ensures Valid() && state == Left(cfg, old(state), ins)
      ensures accepted == Accepted(cfg, old(state), ins) && taken == Taken(cfg, old(state), ins)
      decreases |ins|
    {
      accepted, taken := [], [];
      if ins != [] {
        Cycle(ins[0]);
        var x := if ins[0].push && readyToPush then [ins[0].data] else [];
        var y := if ins[0].pop && outValid then [dataOut] else [];
        accepted, taken := Run(ins[1..]);
        accepted, taken := x + accepted, y + taken;
      }
    }
  }

  /** From reset on, unless the first cycle hands on an element that is not accepted: the elements
      handed on are those accepted, in order, but for what is left in the ring. */
  method RunFromReset<T>(cfg: Config, zero: T, ins: seq<Inputs<T>>) returns (accepted: seq<T>, taken: seq<T>)
    requires Allowed(cfg) && (ins != [] ==> !TakenUnaccepted(cfg, State([], false), ins[0]))
    ensures taken <= accepted && |accepted| - |taken| <= cfg.length
  {
    var fifo := new Fifo(cfg, zero);
    RunIsQueueIff(cfg, fifo.state, ins);
    accepted, taken := fifo.Run(ins);
    assert accepted == taken + fifo.state.q;
  }

  /** The FIFO itself: filled by pushes alone, then pushed and popped in every cycle. It takes every
      element and stays full if and only if ready is asynchronous. */
  method FullRate<T>(cfg: Config, zero: T, idle: Inputs<T>, fill: seq<Inputs<T>>, ins: seq<Inputs<T>>)
    returns (accepted: seq<T>, taken: seq<T>, room: bool)
    requires Allowed(cfg) && !idle.push && |fill| == cfg.length && ins != [] && PushAndPop(ins)
    requires forall k :: 0 <= k < |fill| ==> fill[k].push && !fill[k].pop
    ensures accepted == Data(ins) && !room <==> cfg.asyncReady
    ensures cfg.asyncReady ==> |taken| == |ins|
  {
    var fifo := new Fifo(cfg, zero);
    fifo.Cycle(idle);
    PushesFill(cfg, fifo.state, fill);
    var some, none := fifo.Run(fill);
    StaysFullIff(cfg, fifo.state, ins);
    accepted, taken := fifo.Run(ins);
    room := fifo.elementNum < cfg.length;
  }
}
