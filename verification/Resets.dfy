/** Runs with resets between any two cycles. A reset is one step here, however long it lasts. */
module Resets {
  import opened QueueChannel
  import L = LaggingChannel
  import opened LagTheorems
  import SimFifo
  import RtlFifo
  import PrimFifo
  import FifoEquivalence

  datatype Step<T> = Clock(d: Demand<T>) | Reset

  /** What the queue channel shows over such a run. */
  function Shows<T>(cfg: Config, length: nat, q: seq<T>, steps: seq<Step<T>>): seq<Outcome<T>>
    requires 0 < length
    decreases |steps|
  {
    if steps == [] then []
    else match steps[0]
      case Clock(d) =>
        var o := Resolve(cfg, length, q, d);
        [o] + Shows(cfg, length, After(q, d, o), steps[1..])
      case Reset => Shows(cfg, length, [], steps[1..])
  }

  function Clocks<T>(ds: seq<Demand<T>>): (steps: seq<Step<T>>)
    ensures |steps| == |ds|
  {
    seq(|ds|, i requires 0 <= i < |ds| => Clock(ds[i]))
  }

  lemma {:induction false} ShowsClocks<T>(cfg: Config, length: nat, q: seq<T>, ds: seq<Demand<T>>)
    requires 0 < length
    ensures Shows(cfg, length, q, Clocks(ds)) == Run(cfg, length, q, ds)
    decreases |ds|
  {
    if ds != [] {
      assert Clocks(ds)[1..] == Clocks(ds[1..]);
      ShowsClocks(cfg, length, After(q, ds[0], Resolve(cfg, length, q, ds[0])), ds[1..]);
    }
  }

  /** After a reset a run starts over, whatever came before. */
  lemma {:induction false} StartsOver<T>(cfg: Config, length: nat, q: seq<T>, steps: seq<Step<T>>, ds: seq<Demand<T>>)
    requires 0 < length
    ensures Shows(cfg, length, q, steps + [Reset] + Clocks(ds)) == Shows(cfg, length, q, steps) + Run(cfg, length, [], ds)
    decreases |steps|
  {
    var all := steps + [Reset] + Clocks(ds);
    if steps == [] {
      assert all[1..] == Clocks(ds);
      ShowsClocks(cfg, length, [], ds);
    } else {
      assert all[0] == steps[0] && all[1..] == steps[1..] + [Reset] + Clocks(ds);
      var q' := match steps[0] case Clock(d) => After(q, d, Resolve(cfg, length, q, d)) case Reset => [];
      StartsOver(cfg, length, q', steps[1..], ds);
    }
  }

  /** What the lagging channel shows. */
  function LagShows<T>(cfg: Config, length: nat, s: L.State<T>, steps: seq<Step<T>>): seq<Outcome<T>>
    requires 0 < length && L.Possible(cfg, length, s)
    decreases |steps|
  {
    if steps == [] then []
    else match steps[0]
      case Clock(d) => [L.Resolve(cfg, length, s, d)] + LagShows(cfg, length, L.After(cfg, length, s, d), steps[1..])
      case Reset => LagShows(cfg, length, L.State([], [], false), steps[1..])
  }

  /** The simulated and the synthesised FIFO in a covered configuration stay in step across resets. */
  method RunBoth<T>(sim: SimFifo.Fifo<T>, rtl: RtlFifo.Fifo<T>, steps: seq<Step<T>>)
    returns (simulated: seq<Outcome<T>>, synthesised: seq<Outcome<T>>)
    requires FifoEquivalence.InStep(sim, rtl) && Covered(sim.cfg)
    modifies sim, sim.buffer, rtl, rtl.buffer
    ensures FifoEquivalence.InStep(sim, rtl)
    ensures simulated == synthesised == Shows(sim.cfg, sim.length, old(rtl.stored), steps)
    decreases |steps|
  {
    if steps == [] { return [], []; }
    match steps[0]
    case Clock(d) =>
      var so, ro := FifoEquivalence.BothCycle(sim, rtl, d);
      simulated, synthesised := RunBoth(sim, rtl, steps[1..]);
      simulated, synthesised := [so] + simulated, [ro] + synthesised;
    case Reset =>
      sim.Reset();
      rtl.Reset();
      FifoEquivalence.SameQueueInStep(sim, rtl);
      simulated, synthesised := RunBoth(sim, rtl, steps[1..]);
  }

  method RunSim<T>(sim: SimFifo.Fifo<T>, steps: seq<Step<T>>) returns (os: seq<Outcome<T>>)
    requires sim.Valid()
    modifies sim, sim.buffer
    ensures L.Possible(sim.cfg, sim.length, old(sim.Lag()))
    ensures os == LagShows(sim.cfg, sim.length, old(sim.Lag()), steps)
    decreases |steps|
  {
    if steps == [] { return []; }
    match steps[0]
    case Clock(d) =>
      var o := sim.Cycle(d);
      os := RunSim(sim, steps[1..]);
      os := [o] + os;
    case Reset =>
      sim.Reset();
      os := RunSim(sim, steps[1..]);
  }

  method RunPrim<T>(prim: PrimFifo.Fifo<T>, steps: seq<Step<T>>) returns (os: seq<Outcome<T>>)
    requires prim.Valid() && prim.Delivered()
    modifies prim, prim.buffer
    ensures L.Possible(prim.cfg, prim.fifoSize, old(prim.Lag()))
    ensures os == LagShows(prim.cfg, prim.fifoSize, old(prim.Lag()), steps)
    decreases |steps|
  {
    prim.QueriesAreFlags();
    if steps == [] { return []; }
    match steps[0]
    case Clock(d) =>
      var o := prim.Cycle(d);
      os := RunPrim(prim, steps[1..]);
      os := [o] + os;
    case Reset =>
      prim.Reset();
      os := RunPrim(prim, steps[1..]);
  }

  /** From construction the simulated and the synthesised FIFO show the queue in every
      covered configuration. */
  method RunTwo<T>(cfg: Config, length: nat, zero: T, steps: seq<Step<T>>)
    returns (simulated: seq<Outcome<T>>, synthesised: seq<Outcome<T>>)
    requires 0 < length && Covered(cfg)
    ensures simulated == synthesised == Shows(cfg, length, [], steps)
  {
    var sim := new SimFifo.Fifo(cfg, length, zero);
    var rtl := new RtlFifo.Fifo(cfg, length, zero);
    FifoEquivalence.SameQueueInStep(sim, rtl);
    simulated, synthesised := RunBoth(sim, rtl, steps);
  }

  /** And the simulated and the approximate-time FIFO the same in every configuration, for every length
      above one. */
  method RunTimed<T>(cfg: Config, length: nat, zero: T, steps: seq<Step<T>>)
    returns (simulated: seq<Outcome<T>>, approximate: seq<Outcome<T>>)
    requires 1 < length
    ensures simulated == approximate == LagShows(cfg, length, L.State([], [], false), steps)
  {
    var sim := new SimFifo.Fifo(cfg, length, zero);
    var prim := new PrimFifo.Fifo(cfg, FifoEquivalence.PrimSize(length), zero, false);
    simulated := RunSim(sim, steps);
    approximate := RunPrim(prim, steps);
  }
}
