/** How far a lagging simulation is from the queue it stands for: never in contents, and in its
    flags exactly in the configurations the library warns about. */
module LagTheorems {
  import opened QueueChannel
  import L = LaggingChannel

  /** In every configuration the pending requests only delay bookkeeping: the true queue loses
      its head exactly when a get is granted and gains the offered element exactly when a put is. */
  lemma QueueStep<T>(cfg: Config, length: nat, s: L.State<T>, d: Demand<T>)
    requires 0 < length && L.Possible(cfg, length, s)
    ensures var o := L.Resolve(cfg, length, s, d);
            && (o.push ==> WantsPut(d)) && (o.pop ==> L.Queue(s) != [] || o.push)
            && L.Queue(L.After(cfg, length, s, d)) == After(L.Queue(s), d, o)
            && (o.pop ==> o.shown == Some((L.Queue(s) + Offered(d))[0]))
  {
    var o := L.Resolve(cfg, length, s, d);
    var now := if o.push && !cfg.threadPut then Offered(d) else [];
    var later := if o.push && cfg.threadPut then Offered(d) else [];
    var i := if o.pop && !cfg.threadGet then 1 else 0;
    var j := if o.pop && cfg.threadGet then 1 else 0;
    assert i + j <= |L.Queue(s) + now|;
    InTwoSteps(L.Queue(s), now, later, i, j);
    assert now + later == if o.push then Offered(d) else [];
  }

  /** Moving a part of the elements now and the rest later. */
  lemma InTwoSteps<T>(q: seq<T>, now: seq<T>, later: seq<T>, i: nat, j: nat)
    requires i + j <= |q + now|
    ensures (q + now)[i..][j..] + later == (q + (now + later))[i + j..]
  {
  }

  /** One cycle in a covered configuration shows what the true queue would show. */
  lemma CoveredCycle<T>(cfg: Config, length: nat, s: L.State<T>, d: Demand<T>)
    requires 0 < length && Covered(cfg) && L.Possible(cfg, length, s)
    ensures L.Resolve(cfg, length, s, d) == Resolve(cfg, length, L.Queue(s), d)
  {
    SettledIsUnique(cfg, length, L.Queue(s), d, L.Resolve(cfg, length, s, d));
  }

  /** Every run of a covered configuration shows what the true queue would show. */
  lemma {:induction false} CoveredRun<T>(cfg: Config, length: nat, s: L.State<T>, ds: seq<Demand<T>>)
    requires 0 < length && Covered(cfg) && L.Possible(cfg, length, s)
    ensures L.Run(cfg, length, s, ds) == Run(cfg, length, L.Queue(s), ds)
    ensures L.Queue(L.Left(cfg, length, s, ds)) == Left(cfg, length, L.Queue(s), ds)
    decreases |ds|
  {
    if ds != [] {
      CoveredCycle(cfg, length, s, ds[0]);
      QueueStep(cfg, length, s, ds[0]);
      CoveredRun(cfg, length, L.After(cfg, length, s, ds[0]), ds[1..]);
    }
  }

  /** One cycle: what was in the channel and what is accepted is what is taken and what stays. */
  lemma StepConserves<T>(cfg: Config, length: nat, s: L.State<T>, d: Demand<T>)
    requires 0 < length && L.Possible(cfg, length, s)
    ensures var o := L.Resolve(cfg, length, s, d);
            && (o.pop ==> o.shown.Some?)
            && L.Queue(s) + (if o.push then Offered(d) else [])
               == (if o.pop then [o.shown.value] else []) + L.Queue(L.After(cfg, length, s, d))
  {
    QueueStep(cfg, length, s, d);
    var o := L.Resolve(cfg, length, s, d);
    var all := L.Queue(s) + if o.push then Offered(d) else [];
    assert o.pop ==> all == [all[0]] + all[1..];
  }

  /** Even where the flags lag, nothing is lost, duplicated or reordered, and the channel never
      holds more than its length. */
  lemma {:induction false} NothingLost<T>(cfg: Config, length: nat, s: L.State<T>, ds: seq<Demand<T>>)
    requires 0 < length && L.Possible(cfg, length, s)
    ensures var os := L.Run(cfg, length, s, ds);
            L.Queue(s) + Accepted(ds, os) == Taken(os) + L.Queue(L.Left(cfg, length, s, ds))
    ensures |L.Queue(L.Left(cfg, length, s, ds))| <= length
    decreases |ds|
  {
    if ds != [] {
      var s' := L.After(cfg, length, s, ds[0]);
      StepConserves(cfg, length, s, ds[0]);
      NothingLost(cfg, length, s', ds[1..]);
      JoinRuns(L.Resolve(cfg, length, s, ds[0]), L.Run(cfg, length, s', ds[1..]), ds,
               L.Queue(s), L.Queue(s'), L.Queue(L.Left(cfg, length, s', ds[1..])));
    }
  }

  /** n puts in a row, none of them refused while there is room. */
  function Puts<T>(x: T, n: nat): (ds: seq<Demand<T>>)
    ensures |ds| == n
  {
    seq(n, _ => Demand(TryPut(x, true), NoGet))
  }

  /** A run can be cut anywhere. */
  lemma {:induction false} LagRunAppend<T>(cfg: Config, length: nat, s: L.State<T>, ds: seq<Demand<T>>, es: seq<Demand<T>>)
    requires 0 < length && L.Possible(cfg, length, s)
    ensures var left := L.Left(cfg, length, s, ds);
            && L.Run(cfg, length, s, ds + es) == L.Run(cfg, length, s, ds) + L.Run(cfg, length, left, es)
            && L.Left(cfg, length, s, ds + es) == L.Left(cfg, length, left, es)
    decreases |ds|
  {
    if ds == [] {
      assert ds + es == es;
    } else {
      assert (ds + es)[1..] == ds[1..] + es;
      LagRunAppend(cfg, length, L.After(cfg, length, s, ds[0]), ds[1..], es);
    }
  }

  lemma LagRunOneMore<T>(cfg: Config, length: nat, s: L.State<T>, ds: seq<Demand<T>>, d: Demand<T>)
    requires 0 < length && L.Possible(cfg, length, s)
    ensures var left := L.Left(cfg, length, s, ds);
            && L.Run(cfg, length, s, ds + [d]) == L.Run(cfg, length, s, ds) + [L.Resolve(cfg, length, left, d)]
            && L.Left(cfg, length, s, ds + [d]) == L.After(cfg, length, left, d)
  {
    LagRunAppend(cfg, length, s, ds, [d]);
    assert [d][1..] == [];
  }

  /** Puts fill both the channel and its simulation, with no get pending. */
  lemma {:induction false} Filling<T>(cfg: Config, length: nat, x: T, n: nat)
    requires 0 < length && n <= length
    ensures var left := L.Left(cfg, length, L.State([], [], false), Puts(x, n));
            && !left.taken && |L.Queue(left)| == n
            && (n != 0 && cfg.threadPut ==> left.coming == [x])
            && Left(cfg, length, [], Puts(x, n)) == L.Queue(left)
  {
    if n != 0 {
      Filling(cfg, length, x, n - 1);
      var put := Demand(TryPut(x, true), NoGet);
      assert Puts(x, n) == Puts(x, n - 1) + [put];
      LagRunOneMore(cfg, length, L.State([], [], false), Puts(x, n - 1), put);
      RunOneMore(cfg, length, [], Puts(x, n - 1), put);
      QueueStep(cfg, length, L.Left(cfg, length, L.State([], [], false), Puts(x, n - 1)), put);
    }
  }

  /** A thread put with a registered valid flag: after one put the element is there, but the
      simulation does not show it yet. */
  lemma LateValid<T>(cfg: Config, length: nat, x: T)
    requires 0 < length && cfg.threadPut && cfg.syncValid
    ensures var ds := Puts(x, 1) + [Demand(NoPut, NoGet)];
            !L.Run(cfg, length, L.State([], [], false), ds)[1].valid && Run(cfg, length, [], ds)[1].valid
  {
    var idle := Demand(NoPut, NoGet);
    var s := L.Left(cfg, length, L.State([], [], false), Puts(x, 1));
    Filling(cfg, length, x, 1);
    LagRunOneMore(cfg, length, L.State([], [], false), Puts(x, 1), idle);
    RunOneMore(cfg, length, [], Puts(x, 1), idle);
  }

  /** A thread get with a registered ready flag: after one get from a full channel there is room,
      but the simulation does not show it yet. */
  lemma LateReady<T>(cfg: Config, length: nat, x: T)
    requires 0 < length && cfg.threadGet && cfg.syncReady && !(cfg.threadPut && cfg.syncValid)
    ensures var ds := Puts(x, length) + [Demand(NoPut, TryGet(true))] + [Demand(NoPut, NoGet)];
            && !L.Run(cfg, length, L.State([], [], false), ds)[length + 1].ready
            && Run(cfg, length, [], ds)[length + 1].ready
  {
    var start, get, idle := L.State([], [], false), Demand(NoPut, TryGet(true)), Demand(NoPut, NoGet);
    var ds := Puts(x, length);
    Filling(cfg, length, x, length);
    var s := L.Left(cfg, length, start, ds);
    LagRunOneMore(cfg, length, start, ds, get);
    RunOneMore(cfg, length, [], ds, get);
    QueueStep(cfg, length, s, get);
    var s' := L.After(cfg, length, s, get);
    assert s'.taken && L.Occupied(s') == length;
    LagRunOneMore(cfg, length, start, ds + [get], idle);
    RunOneMore(cfg, length, [], ds + [get], idle);
    assert !L.Resolve(cfg, length, s', idle).ready;
  }

  /** On this run the simulation shows what the true queue shows. */
  ghost predicate SameOn<T>(cfg: Config, length: nat, ds: seq<Demand<T>>)
    requires 0 < length
  {
    L.Run(cfg, length, L.State([], [], false), ds) == Run(cfg, length, [], ds)
  }

  lemma UncoveredRun<T>(cfg: Config, length: nat, x: T) returns (ds: seq<Demand<T>>)
    requires 0 < length && !Covered(cfg)
    ensures !SameOn(cfg, length, ds)
  {
    if cfg.threadPut && cfg.syncValid {
      ds := Puts(x, 1) + [Demand(NoPut, NoGet)];
      LateValid(cfg, length, x);
    } else {
      ds := Puts(x, length) + [Demand(NoPut, TryGet(true))] + [Demand(NoPut, NoGet)];
      LateReady(cfg, length, x);
    }
  }

  /** The simulated flags and data are those of the true queue on every run if and only if the
      configuration is covered, for every length. */
  lemma FaithfulIffCovered<T>(cfg: Config, length: nat, x: T)
    requires 0 < length
    ensures Covered(cfg) <==> forall ds: seq<Demand<T>> :: SameOn(cfg, length, ds)
  {
    if Covered(cfg) {
      forall ds: seq<Demand<T>> ensures SameOn(cfg, length, ds) {
        CoveredRun(cfg, length, L.State([], [], false), ds);
      }
    } else {
      var ds := UncoveredRun(cfg, length, x);
    }
  }

  /** In every configuration the flags come at most one cycle late: what was in the queue before a cycle
      and is not taken in it shows in the next one, and a slot that was free and is not filled is
      offered. After a cycle in which nothing is accepted or taken both flags are those of the queue. */
  lemma LateAtMostOne<T>(cfg: Config, length: nat, s: L.State<T>, d: Demand<T>, e: Demand<T>)
    requires 0 < length && L.Possible(cfg, length, s)
    ensures var os := L.Run(cfg, length, s, [d, e]);
            && |os| == 2
            && (|L.Queue(s)| > (if os[0].pop then 1 else 0) ==> os[1].valid)
            && (|L.Queue(s)| + (if os[0].push then 1 else 0) < length ==> os[1].ready)
            && (!os[0].push && !os[0].pop && !WantsPut(e) && !WantsGet(e) ==>
                  (os[1].valid <==> L.Queue(s) != []) && (os[1].ready <==> |L.Queue(s)| < length))
  {
    var o, s' := L.Resolve(cfg, length, s, d), L.After(cfg, length, s, d);
    assert [d, e][1..] == [e] && [e][1..] == [];
    assert L.Run(cfg, length, s, [d, e]) == [o] + L.Run(cfg, length, s', [e]);
    assert L.Run(cfg, length, s', [e]) == [L.Resolve(cfg, length, s', e)];
  }
}
