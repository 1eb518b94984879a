/** The three FIFOs side by side: simulated, synthesised, and approximate-time. One source is
    meant to behave the same in all of them. */
module FifoEquivalence {
  import opened QueueChannel
  import opened LagTheorems
  import L = LaggingChannel
  import SimFifo
  import RtlFifo
  import PrimFifo
  import opened Wakeups

  /** The simulated and the synthesised FIFO are in step: the same true queue, and the synthesised
      count runs ahead of the simulated one by the pending requests. */
  ghost predicate InStep<T>(sim: SimFifo.Fifo<T>, rtl: RtlFifo.Fifo<T>)
    reads sim, sim.buffer, rtl, rtl.buffer
  {
    && sim.Valid() && rtl.Valid()
    && {sim, sim.buffer} !! {rtl, rtl.buffer}
    && sim.cfg == rtl.cfg && sim.length == rtl.length
    && L.Queue(sim.Lag()) == rtl.stored
    && rtl.elementNumD == sim.elementNumD + (if sim.PendingPut() then 1 else 0) - (if sim.PendingGet() then 1 else 0)
  }

  /** FIFOs with the same true queue are in step: the counts follow. */
  lemma SameQueueInStep<T>(sim: SimFifo.Fifo<T>, rtl: RtlFifo.Fifo<T>)
    requires sim.Valid() && rtl.Valid() && {sim, sim.buffer} !! {rtl, rtl.buffer}
    requires sim.cfg == rtl.cfg && sim.length == rtl.length && L.Queue(sim.Lag()) == rtl.stored
    ensures InStep(sim, rtl)
  {
    assert |L.Queue(sim.Lag())| == |sim.Visible()| + |sim.Coming()|;
  }

  /** One cycle of both with the same demand, in a covered configuration: the same flags and data
      are shown, and both stay in step. */
  method BothCycle<T>(sim: SimFifo.Fifo<T>, rtl: RtlFifo.Fifo<T>, d: Demand<T>)
    returns (so: Outcome<T>, ro: Outcome<T>)
    requires InStep(sim, rtl) && Covered(sim.cfg)
    modifies sim, sim.buffer, rtl, rtl.buffer
    ensures InStep(sim, rtl)
    ensures so == ro == Resolve(sim.cfg, sim.length, old(rtl.stored), d)
    ensures rtl.stored == After(old(rtl.stored), d, ro)
  {
    ghost var s := sim.Lag();
    so := sim.Cycle(d);
    ro := rtl.Cycle(d);
    CoveredCycle(sim.cfg, sim.length, s, d);
    QueueStep(sim.cfg, sim.length, s, d);
    SameQueueInStep(sim, rtl);
  }

  /** The same over a run of any length. */
  method RunBoth<T>(sim: SimFifo.Fifo<T>, rtl: RtlFifo.Fifo<T>, ds: seq<Demand<T>>)
    returns (simulated: seq<Outcome<T>>, synthesised: seq<Outcome<T>>)
    requires InStep(sim, rtl) && Covered(sim.cfg)
    modifies sim, sim.buffer, rtl, rtl.buffer
    ensures InStep(sim, rtl)
    ensures simulated == synthesised == Run(sim.cfg, sim.length, old(rtl.stored), ds)
    decreases |ds|
  {
    if ds == [] {
      simulated, synthesised := [], [];
    } else {
      var so, ro := BothCycle(sim, rtl, ds[0]);
      simulated, synthesised := RunBoth(sim, rtl, ds[1..]);
      simulated, synthesised := [so] + simulated, [ro] + synthesised;
    }
  }

  /** A run of the simulated FIFO, in any configuration. */
  method RunSim<T>(fifo: SimFifo.Fifo<T>, ds: seq<Demand<T>>) returns (os: seq<Outcome<T>>)
    requires fifo.Valid()
    modifies fifo, fifo.buffer
    ensures L.Possible(fifo.cfg, fifo.length, old(fifo.Lag()))
    ensures os == L.Run(fifo.cfg, fifo.length, old(fifo.Lag()), ds)
    decreases |ds|
  {
    if ds == [] {
      os := [];
    } else {
      var o := fifo.Cycle(ds[0]);
      os := RunSim(fifo, ds[1..]);
      os := [o] + os;
    }
  }

  /** From construction on. */
  method RunBothFromReset<T>(cfg: Config, length: nat, zero: T, ds: seq<Demand<T>>)
    returns (simulated: seq<Outcome<T>>, synthesised: seq<Outcome<T>>)
    requires 0 < length && Covered(cfg)
    ensures simulated == synthesised == Run(cfg, length, [], ds)
  {
    var sim := new SimFifo.Fifo(cfg, length, zero);
    var rtl := new RtlFifo.Fifo(cfg, length, zero);
    SameQueueInStep(sim, rtl);
    simulated, synthesised := RunBoth(sim, rtl, ds);
  }

  /** A run of the approximate-time FIFO with every process running in every cycle, in any
      configuration. */
  method RunPrim<T>(fifo: PrimFifo.Fifo<T>, ds: seq<Demand<T>>) returns (os: seq<Outcome<T>>)
    requires fifo.Valid() && fifo.Delivered()
    modifies fifo, fifo.buffer
    ensures L.Possible(fifo.cfg, fifo.fifoSize, old(fifo.Lag()))
    ensures os == L.Run(fifo.cfg, fifo.fifoSize, old(fifo.Lag()), ds)
    decreases |ds|
  {
    if ds == [] {
      os := [];
    } else {
      var o := fifo.Cycle(ds[0]);
      os := RunPrim(fifo, ds[1..]);
      os := [o] + os;
    }
  }

  /** Demands of threads that try in every cycle; methods may do anything. */
  ghost predicate AllTry<T>(cfg: Config, ds: seq<Demand<T>>) {
    forall i :: 0 <= i < |ds| ==> (cfg.threadPut ==> WantsPut(ds[i])) && (cfg.threadGet ==> WantsGet(ds[i]))
  }

  /** In every cycle the methods whose demand differs from the one before have been woken by whatever
      changed it. */
  ghost predicate ChangesWake<T>(before: Demand<T>, ds: seq<Demand<T>>, changed: seq<(bool, bool)>)
    decreases |ds|
  {
    && |changed| == |ds|
    && (ds != [] ==>
          && (ds[0].put != before.put ==> changed[0].0) && (ds[0].get != before.get ==> changed[0].1)
          && ChangesWake(ds[0], ds[1..], changed[1..]))
  }

  /** In every cycle the delta cycles come to rest. */
  ghost predicate AllRest<T>(cfg: Config, useElemNum: bool, ds: seq<Demand<T>>) {
    forall i :: 0 <= i < |ds| ==> Rests(cfg, useElemNum, ds[i])
  }

  function Last<T>(before: Demand<T>, ds: seq<Demand<T>>): Demand<T>
    decreases |ds|
  {
    if ds == [] then before else Last(ds[0], ds[1..])
  }

  /** A run driven by events: only the processes that have been notified run. It is the run in which
      all of them do. `changed` says which methods were woken by a change of their own demand. */
  method RunPrimByEvents<T>(fifo: PrimFifo.Fifo<T>, ghost before: Demand<T>, ds: seq<Demand<T>>, changed: seq<(bool, bool)>)
    returns (os: seq<Outcome<T>>)
    requires fifo.Between(before)
    requires AllTry(fifo.cfg, ds) && AllRest(fifo.cfg, fifo.useElemNum, ds) && ChangesWake(before, ds, changed)
    modifies fifo, fifo.buffer
    ensures fifo.Between(Last(before, ds))
    ensures L.Possible(fifo.cfg, fifo.fifoSize, old(fifo.Lag()))
    ensures os == L.Run(fifo.cfg, fifo.fifoSize, old(fifo.Lag()), ds)
    decreases |ds|
  {
    if ds == [] {
      fifo.QueriesAreFlags();
      os := [];
    } else {
      var o := fifo.EventCycle(before, ds[0], changed[0].0, changed[0].1);
      os := RunPrimByEvents(fifo, ds[0], ds[1..], changed[1..]);
      os := [o] + os;
    }
  }

  /** From construction, after any such run: the delta cycles of one more cycle come to rest if and only
      if they do not run between two methods that see each other's requests, with the element number
      used and both wanting something. */
  method NextCycleRests<T>(cfg: Config, size: nat, zero: T, useElemNum: bool, ds: seq<Demand<T>>,
                           changed: seq<(bool, bool)>, d: Demand<T>, n: nat) returns (rests: bool)
    requires 0 < size && 3 <= n && AllTry(cfg, ds + [d]) && AllRest(cfg, useElemNum, ds)
    requires ChangesWake((ds + [d])[0], ds, changed)
    ensures rests <==> Rests(cfg, useElemNum, d)
  {
    ghost var first := (ds + [d])[0];
    var prim := new PrimFifo.Fifo(cfg, size, zero, useElemNum);
    assert forall i :: 0 <= i < |ds| ==> (ds + [d])[i] == ds[i];
    var os := RunPrimByEvents(prim, first, ds, changed);
    rests := prim.RestsAfter(Last(first, ds), d, n);
  }

  /** So the first cycle of such a FIFO in which both methods want something never ends. */
  method NeverRests<T>(cfg: Config, size: nat, zero: T, x: T, n: nat) returns (rests: bool)
    requires 0 < size && 3 <= n && Looped(cfg)
    ensures !rests
  {
    rests := NextCycleRests(cfg, size, zero, true, [], [], Demand(TryPut(x, true), TryGet(true)), n);
  }

  /** The slots the approximate-time FIFO allocates for a length. */
  function PrimSize(length: nat): (size: nat)
    ensures size != 0
  {
    if length > 1 then length else 2
  }

  /** From reset, whatever the configuration and length: what the two FIFOs show. */
  method RunInLockStep<T>(cfg: Config, length: nat, zero: T, ds: seq<Demand<T>>)
    returns (simulated: seq<Outcome<T>>, approximate: seq<Outcome<T>>)
    requires 0 < length
    ensures simulated == L.Run(cfg, length, L.State([], [], false), ds)
    ensures approximate == L.Run(cfg, PrimSize(length), L.State([], [], false), ds)
    ensures simulated == approximate <==> SameForSizes(cfg, length, PrimSize(length), ds)
    ensures 1 < length ==> simulated == approximate
  {
    var sim := new SimFifo.Fifo(cfg, length, zero);
    var prim := new PrimFifo.Fifo(cfg, PrimSize(length), zero, false);
    simulated := RunSim(sim, ds);
    approximate := RunPrim(prim, ds);
  }

  /** From reset, driven by events alone: nothing that a process needs goes unnoticed, whatever the
      process kinds, so the approximate-time FIFO shows what the simulated one does. */
  method RunByEvents<T>(cfg: Config, length: nat, zero: T, useElemNum: bool, ds: seq<Demand<T>>, changed: seq<(bool, bool)>)
    returns (simulated: seq<Outcome<T>>, approximate: seq<Outcome<T>>)
    requires 1 < length && AllTry(cfg, ds) && AllRest(cfg, useElemNum, ds)
    requires ChangesWake(if ds == [] then Demand(NoPut, NoGet) else ds[0], ds, changed)
    ensures simulated == approximate == L.Run(cfg, length, L.State([], [], false), ds)
  {
    var sim := new SimFifo.Fifo(cfg, length, zero);
    var prim := new PrimFifo.Fifo(cfg, PrimSize(length), zero, useElemNum);
    simulated := RunSim(sim, ds);
    approximate := RunPrimByEvents(prim, if ds == [] then Demand(NoPut, NoGet) else ds[0], ds, changed);
  }

  /** On this run both sizes show the same. */
  ghost predicate SameForSizes<T>(cfg: Config, m: nat, n: nat, ds: seq<Demand<T>>)
    requires 0 < m && 0 < n
  {
    L.Run(cfg, m, L.State([], [], false), ds) == L.Run(cfg, n, L.State([], [], false), ds)
  }

  /** The second put shows that a channel of length one was given two slots. */
  lemma SecondPutFits<T>(cfg: Config, x: T)
    ensures !SameForSizes(cfg, 1, 2, Puts(x, 1) + Puts(x, 1))
    ensures !L.Run(cfg, 1, L.State([], [], false), Puts(x, 1) + Puts(x, 1))[1].ready
    ensures L.Run(cfg, 2, L.State([], [], false), Puts(x, 1) + Puts(x, 1))[1].ready
  {
    var start := L.State([], [], false);
    var ds, put := Puts(x, 1), Demand(TryPut(x, true), NoGet);
    Filling(cfg, 1, x, 1);
    Filling(cfg, 2, x, 1);
    assert Puts(x, 1) == [put];
    LagRunOneMore(cfg, 1, start, ds, put);
    LagRunOneMore(cfg, 2, start, ds, put);
    assert !L.Resolve(cfg, 1, L.Left(cfg, 1, start, ds), put).ready;
    assert L.Resolve(cfg, 2, L.Left(cfg, 2, start, ds), put).ready;
    assert L.Run(cfg, 1, start, ds + [put])[1] != L.Run(cfg, 2, start, ds + [put])[1];
  }

  /** So the approximate-time FIFO is cycle accurate on every run exactly for lengths above one. */
  lemma PrimAccurateIff<T>(cfg: Config, length: nat, x: T)
    requires 0 < length
    ensures (forall ds: seq<Demand<T>> :: SameForSizes(cfg, length, PrimSize(length), ds)) <==> 1 < length
  {
    if length == 1 {
      SecondPutFits(cfg, x);
      assert !SameForSizes(cfg, length, PrimSize(length), Puts(x, 1) + Puts(x, 1));
    }
  }

  /** A run of the two FIFOs themselves that shows it for length one: of three puts the one accepts the
      first, the other the first two and no more. */
  method DifferForLengthOne<T>(cfg: Config, x: T) returns (simulated: seq<Outcome<T>>, approximate: seq<Outcome<T>>)
    ensures |simulated| == |approximate| == 3
    ensures simulated[0].push && !simulated[1].push && !simulated[2].push
    ensures approximate[0].push && approximate[1].push && !approximate[2].push
  {
    simulated, approximate := RunInLockStep(cfg, 1, x, Puts(x, 3));
    ThreePuts(cfg, 1, x);
    ThreePuts(cfg, PrimSize(1), x);
  }

  /** Three puts in a row: each is accepted exactly while fewer than `size` have been. */
  lemma ThreePuts<T>(cfg: Config, size: nat, x: T)
    requires 0 < size
    ensures var os := L.Run(cfg, size, L.State([], [], false), Puts(x, 3));
            |os| == 3 && forall i :: 0 <= i < 3 ==> os[i].push == (i < size)
  {
    var start, put := L.State([], [], false), Demand(TryPut(x, true), NoGet);
    var s1 := L.After(cfg, size, start, put);
    var s2 := L.After(cfg, size, s1, put);
    assert Puts(x, 1) == [put] && Puts(x, 2) == [put, put] && Puts(x, 3) == [put, put, put];
    assert L.Run(cfg, size, s2, [put]) == [L.Resolve(cfg, size, s2, put)];
    assert [put, put][1..] == [put] && [put, put, put][1..] == [put, put];
    assert L.Run(cfg, size, s1, [put, put]) == [L.Resolve(cfg, size, s1, put)] + L.Run(cfg, size, s2, [put]);
    assert L.Run(cfg, size, start, [put, put, put]) == [L.Resolve(cfg, size, start, put)] + L.Run(cfg, size, s1, [put, put]);
  }
}
