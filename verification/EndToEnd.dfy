/** Whole runs of the channels themselves, from construction on: what the getting process takes is
    what the putting process put, in order and exactly once, but for what is still inside; and a getting
    process that takes in every cycle gets all of it within a bound. */
module EndToEnd {
  import opened QueueChannel
  import LagTheorems
  import L = LaggingChannel
  import RtlFifo
  import FifoEquivalence
  import SimFifo
  import PrimFifo
  import K = LinkChannel
  import Link
  import W = TargetFifo
  import P = PipeChannel
  import Pipe
  import opened Drain
  import DrainingChannels

  /** The outcomes of a run deliver what was accepted; no more than `room` is inside at the end. */
  ghost predicate Delivers<T>(ds: seq<Demand<T>>, os: seq<Outcome<T>>, room: nat) {
    |ds| == |os| && Taken(os) <= Accepted(ds, os) && |Accepted(ds, os)| <= |Taken(os)| + room
  }

  lemma InOrder<T>(ds: seq<Demand<T>>, os: seq<Outcome<T>>, left: seq<T>, room: nat)
    requires |ds| == |os| && [] + Accepted(ds, os) == Taken(os) + left && |left| <= room
    ensures Delivers(ds, os, room)
  {
    assert [] + Accepted(ds, os) == Accepted(ds, os);
  }

  /** What the lagging channel shows from the start. */
  lemma LagDelivers<T>(cfg: Config, size: nat, ds: seq<Demand<T>>, os: seq<Outcome<T>>)
    requires 0 < size && os == L.Run(cfg, size, L.State([], [], false), ds)
    ensures Delivers(ds, os, size) && (AlwaysTakes(ds) ==> Prompt(ds, os, 2 * size))
  {
    var start := L.State([], [], false);
    LagTheorems.NothingLost(cfg, size, start, ds);
    InOrder(ds, os, L.Queue(L.Left(cfg, size, start, ds)), size);
    if AlwaysTakes(ds) {
      DrainingChannels.LagDrains(cfg, size, start, ds);
      TracedIsPrompt(ds, os, DrainingChannels.LagPoints(cfg, size, start, ds), size, 1);
    }
  }

  /** And initiator, target and FIFO. */
  lemma FedDelivers<T>(ends: K.Ends, cfg: Config, length: nat, ds: seq<Demand<T>>, os: seq<Outcome<T>>)
    requires 0 < length && !cfg.threadPut && os == W.Run(ends, cfg, length, W.State(K.State([], [], []), L.State([], [], false)), ds)
    ensures var room := length + K.Capacity(ends);
            Delivers(ds, os, room) && (AlwaysTakes(ds) ==> Prompt(ds, os, 3 * room))
  {
    var start := W.State(K.State([], [], []), L.State([], [], false));
    W.ConservedInOrder(ends, cfg, length, start, ds);
    InOrder(ds, os, W.Queue(W.Left(ends, cfg, length, start, ds)), length + K.Capacity(ends));
    if AlwaysTakes(ds) {
      DrainingChannels.FedDrains(ends, cfg, length, start, ds);
      TracedIsPrompt(ds, os, DrainingChannels.FedPoints(ends, cfg, length, start, ds), length + K.Capacity(ends), 2);
    }
  }

  /** The simulated FIFO, in every configuration. */
  method RunSim<T>(cfg: Config, length: nat, zero: T, ds: seq<Demand<T>>) returns (os: seq<Outcome<T>>)
    requires 0 < length
    ensures Delivers(ds, os, length)
    ensures AlwaysTakes(ds) ==> Prompt(ds, os, 2 * length)
  {
    var fifo := new SimFifo.Fifo(cfg, length, zero);
    os := FifoEquivalence.RunSim(fifo, ds);
    LagDelivers(cfg, length, ds, os);
  }

  /** The approximate-time FIFO, in every configuration. */
  method RunPrim<T>(cfg: Config, size: nat, zero: T, ds: seq<Demand<T>>) returns (os: seq<Outcome<T>>)
    requires 0 < size
    ensures Delivers(ds, os, size)
    ensures AlwaysTakes(ds) ==> Prompt(ds, os, 2 * size)
  {
    var fifo := new PrimFifo.Fifo(cfg, size, zero, false);
    os := FifoEquivalence.RunPrim(fifo, ds);
    LagDelivers(cfg, size, ds, os);
  }

  /** The same driven by events: only the processes that have been notified run. */
  method RunPrimByEvents<T>(cfg: Config, size: nat, zero: T, useElemNum: bool, ds: seq<Demand<T>>, changed: seq<(bool, bool)>)
    returns (os: seq<Outcome<T>>)
    requires 0 < size && FifoEquivalence.AllTry(cfg, ds) && FifoEquivalence.AllRest(cfg, useElemNum, ds)
    requires FifoEquivalence.ChangesWake(if ds == [] then Demand(NoPut, NoGet) else ds[0], ds, changed)
    ensures Delivers(ds, os, size)
    ensures AlwaysTakes(ds) ==> Prompt(ds, os, 2 * size)
  {
    var fifo := new PrimFifo.Fifo(cfg, size, zero, useElemNum);
    os := FifoEquivalence.RunPrimByEvents(fifo, if ds == [] then Demand(NoPut, NoGet) else ds[0], ds, changed);
    LagDelivers(cfg, size, ds, os);
  }

  method RtlCycles<T>(fifo: RtlFifo.Fifo<T>, ds: seq<Demand<T>>) returns (os: seq<Outcome<T>>)
    requires fifo.Valid()
    modifies fifo, fifo.buffer
    ensures fifo.Valid() && os == Run(fifo.cfg, fifo.length, old(fifo.stored), ds)
    ensures fifo.stored == Left(fifo.cfg, fifo.length, old(fifo.stored), ds)
    decreases |ds|
  {
    if ds == [] {
      os := [];
    } else {
      var o := fifo.Cycle(ds[0]);
      os := RtlCycles(fifo, ds[1..]);
      os := [o] + os;
    }
  }

  /** The synthesised FIFO, in every configuration. */
  method RunRtl<T>(cfg: Config, length: nat, zero: T, ds: seq<Demand<T>>) returns (os: seq<Outcome<T>>)
    requires 0 < length
    ensures Delivers(ds, os, length)
    ensures AlwaysTakes(ds) ==> Prompt(ds, os, length)
  {
    var fifo := new RtlFifo.Fifo(cfg, length, zero);
    os := RtlCycles(fifo, ds);
    ConservedInOrder(cfg, length, [], ds);
    InOrder(ds, os, fifo.stored, length);
    if AlwaysTakes(ds) {
      DrainingChannels.QueueDrains(cfg, length, [], ds);
      TracedIsPrompt(ds, os, DrainingChannels.QueuePoints(cfg, length, [], ds), length, 0);
    }
  }

  method LinkCycles<T>(ini: Link.Initiator<T>, tgt: Link.Target<T>, ds: seq<Demand<T>>) returns (os: seq<Outcome<T>>)
    requires K.Possible(Link.EndsOf(ini, tgt), Link.Holds(ini, tgt))
    modifies ini, tgt
    ensures os == K.Run(Link.EndsOf(ini, tgt), old(Link.Holds(ini, tgt)), ds)
    decreases |ds|
  {
    if ds == [] {
      os := [];
    } else {
      var o := Link.Cycle(ini, tgt, ds[0]);
      os := LinkCycles(ini, tgt, ds[1..]);
      os := [o] + os;
    }
  }

  /** Initiator and target, for all process kinds and both sync settings. */
  method RunLink<T>(ends: K.Ends, zero: T, ds: seq<Demand<T>>) returns (os: seq<Outcome<T>>)
    ensures Delivers(ds, os, K.Capacity(ends))
    ensures AlwaysTakes(ds) ==> Prompt(ds, os, 2 * K.Capacity(ends))
  {
    var ini := new Link.Initiator(ends.sync, ends.threadPut, zero);
    var tgt := new Link.Target(ends.threadGet, zero);
    assert Link.EndsOf(ini, tgt) == ends;
    os := LinkCycles(ini, tgt, ds);
    K.ConservedInOrder(ends, K.State([], [], []), ds);
    InOrder(ds, os, K.Queue(K.Left(ends, K.State([], [], []), ds)), K.Capacity(ends));
    if AlwaysTakes(ds) {
      DrainingChannels.LinkDrains(ends, K.State([], [], []), ds);
      TracedIsPrompt(ds, os, DrainingChannels.LinkPoints(ends, K.State([], [], []), ds), K.Capacity(ends), 1);
    }
  }

  method FedCycles<T>(ini: Link.Initiator<T>, tgt: Link.Target<T>, fifo: SimFifo.Fifo<T>, ds: seq<Demand<T>>)
    returns (os: seq<Outcome<T>>)
    requires fifo.Valid() && !fifo.cfg.threadPut && !tgt.cthread
    requires W.Possible(Link.EndsOf(ini, tgt), fifo.cfg, fifo.length, W.State(Link.Holds(ini, tgt), fifo.Lag()))
    modifies ini, tgt, fifo, fifo.buffer
    ensures os == W.Run(Link.EndsOf(ini, tgt), fifo.cfg, fifo.length, W.State(old(Link.Holds(ini, tgt)), old(fifo.Lag())), ds)
    decreases |ds|
  {
    if ds == [] {
      os := [];
    } else {
      var o := Link.CycleWithFifo(ini, tgt, fifo, ds[0]);
      os := FedCycles(ini, tgt, fifo, ds[1..]);
      os := [o] + os;
    }
  }

  /** Initiator, target and attached FIFO. */
  method RunFed<T>(threadPut: bool, sync: bool, cfg: Config, length: nat, zero: T, ds: seq<Demand<T>>)
    returns (os: seq<Outcome<T>>)
    requires 0 < length && !cfg.threadPut
    ensures Delivers(ds, os, length + K.Capacity(K.Ends(threadPut, false, sync)))
    ensures AlwaysTakes(ds) ==> Prompt(ds, os, 3 * (length + K.Capacity(K.Ends(threadPut, false, sync))))
  {
    var ini := new Link.Initiator(sync, threadPut, zero);
    var tgt := new Link.Target(false, zero);
    var fifo := new SimFifo.Fifo(cfg, length, zero);
    ghost var ends, start := K.Ends(threadPut, false, sync), W.State(K.State([], [], []), L.State([], [], false));
    assert Link.EndsOf(ini, tgt) == ends && W.State(Link.Holds(ini, tgt), fifo.Lag()) == start;
    os := FedCycles(ini, tgt, fifo, ds);
    FedDelivers(ends, cfg, length, ds, os);
  }

  method PipeCycles<T>(pipe: Pipe.Pipe<T>, ds: seq<Demand<T>>) returns (os: seq<Outcome<T>>)
    requires pipe.Valid() && P.Possible(pipe.ends, pipe.Holds())
    modifies pipe, pipe.reg, pipe.reg.regs, pipe.busyReg, pipe.busyRegD
    ensures os == P.Run(pipe.ends, old(pipe.Holds()), ds)
    decreases |ds|
  {
    if ds == [] {
      os := [];
    } else {
      var o := pipe.Cycle(ds[0]);
      os := PipeCycles(pipe, ds[1..]);
      os := [o] + os;
    }
  }

  /** The pipe, for every number of stages. */
  method RunPipe<T>(ends: P.Ends, n: nat, zero: T, ds: seq<Demand<T>>) returns (os: seq<Outcome<T>>)
    requires 0 < n
    ensures Delivers(ds, os, n + 2)
    ensures AlwaysTakes(ds) ==> Prompt(ds, os, (n + 2) * (n + 1))
  {
    var pipe := new Pipe.Pipe(ends, n, zero);
    ghost var start := pipe.Holds();
    os := PipeCycles(pipe, ds);
    P.ConservedInOrder(ends, start, ds);
    P.Bounded(ends, P.Left(ends, start, ds));
    InOrder(ds, os, P.Queue(P.Left(ends, start, ds)), n + 2);
    if AlwaysTakes(ds) {
      DrainingChannels.PipeDrains(ends, start, ds, n);
      TracedIsPrompt(ds, os, DrainingChannels.PipePoints(ends, start, ds), n + 2, n);
    }
  }
}
