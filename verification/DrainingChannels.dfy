/** Each channel lets everything out within a bound, if its user takes in every cycle. */
module DrainingChannels {
  import opened QueueChannel
  import opened Drain
  import L = LaggingChannel
  import LagTheorems
  import K = LinkChannel
  import W = TargetFifo
  import P = PipeChannel

  function QueuePoints<T>(cfg: Config, length: nat, q: seq<T>, ds: seq<Demand<T>>): (ps: seq<Point>)
    requires 0 < length
    ensures ps != [] && ps[0] == Point(|q|, 0)
    decreases |ds|
  {
    [Point(|q|, 0)] + if ds == [] then [] else QueuePoints(cfg, length, After(q, ds[0], Resolve(cfg, length, q, ds[0])), ds[1..])
  }

  /** The queue: the head can be taken at once. */
  lemma {:induction false} QueueDrains<T>(cfg: Config, length: nat, q: seq<T>, ds: seq<Demand<T>>)
    requires 0 < length && |q| <= length && AlwaysTakes(ds)
    ensures Traced(ds, Run(cfg, length, q, ds), QueuePoints(cfg, length, q, ds), length, 0)
    decreases |ds|
  {
    if ds != [] {
      assert WantsGet(ds[0]);
      var o := Resolve(cfg, length, q, ds[0]);
      var q' := After(q, ds[0], o);
      QueueDrains(cfg, length, q', ds[1..]);
    }
  }

  function LagPoint<T>(s: L.State<T>): Point {
    Point(|L.Queue(s)|, if s.visible != [] then 0 else 1)
  }

  function LagPoints<T>(cfg: Config, length: nat, s: L.State<T>, ds: seq<Demand<T>>): (ps: seq<Point>)
    requires 0 < length && L.Possible(cfg, length, s)
    ensures ps != [] && ps[0] == LagPoint(s)
    decreases |ds|
  {
    [LagPoint(s)] + if ds == [] then [] else LagPoints(cfg, length, L.After(cfg, length, s, ds[0]), ds[1..])
  }

  /** The lagging channel in every configuration: an element shows at the latest one cycle after it was
      put. */
  lemma {:induction false} LagDrains<T>(cfg: Config, length: nat, s: L.State<T>, ds: seq<Demand<T>>)
    requires 0 < length && L.Possible(cfg, length, s) && AlwaysTakes(ds)
    ensures Traced(ds, L.Run(cfg, length, s, ds), LagPoints(cfg, length, s, ds), length, 1)
    decreases |ds|
  {
    LagMoves(cfg, length, s, if ds == [] then Demand(NoPut, TryGet(true)) else ds[0]);
    if ds != [] {
      var s' := L.After(cfg, length, s, ds[0]);
      LagDrains(cfg, length, s', ds[1..]);
    }
  }

  lemma LagMoves<T>(cfg: Config, length: nat, s: L.State<T>, d: Demand<T>)
    requires 0 < length && L.Possible(cfg, length, s)
    ensures |L.Queue(s)| <= length
    ensures WantsGet(d) ==> Moves(d, L.Resolve(cfg, length, s, d), LagPoint(s), LagPoint(L.After(cfg, length, s, d)))
  {
    LagTheorems.StepConserves(cfg, length, s, d);
  }

  function LinkPoint<T>(s: K.State<T>): Point {
    Point(|K.Queue(s)|, if s.kept != [] || s.sending != [] then 0 else 1)
  }

  function LinkPoints<T>(ends: K.Ends, s: K.State<T>, ds: seq<Demand<T>>): (ps: seq<Point>)
    requires K.Possible(ends, s)
    ensures ps != [] && ps[0] == LinkPoint(s)
    decreases |ds|
  {
    [LinkPoint(s)] + if ds == [] then [] else LinkPoints(ends, K.After(ends, s, ds[0], K.Resolve(ends, s, ds[0]).pop), ds[1..])
  }

  /** Initiator and target: an element waits one cycle in the extra register. */
  lemma {:induction false} LinkDrains<T>(ends: K.Ends, s: K.State<T>, ds: seq<Demand<T>>)
    requires K.Possible(ends, s) && AlwaysTakes(ds)
    ensures Traced(ds, K.Run(ends, s, ds), LinkPoints(ends, s, ds), K.Capacity(ends), 1)
    decreases |ds|
  {
    LinkMoves(ends, s, if ds == [] then Demand(NoPut, TryGet(true)) else ds[0]);
    if ds != [] {
      var o := K.Resolve(ends, s, ds[0]);
      var s' := K.After(ends, s, ds[0], o.pop);
      LinkDrains(ends, s', ds[1..]);
    }
  }

  lemma LinkMoves<T>(ends: K.Ends, s: K.State<T>, d: Demand<T>)
    requires K.Possible(ends, s)
    ensures |K.Queue(s)| <= K.Capacity(ends)
    ensures var o := K.Resolve(ends, s, d);
            WantsGet(d) ==> Moves(d, o, LinkPoint(s), LinkPoint(K.After(ends, s, d, o.pop)))
  {
    K.StepConserves(ends, s, d);
    K.QueueStep(ends, s, d, false);
  }

  /** Shown by the FIFO; or shown by the handshake to a FIFO with room; or neither. */
  function FedPoint<T>(cfg: Config, length: nat, s: W.State<T>): Point {
    Point(|W.Queue(s)|, if s.fifo.visible != [] then 0
                        else if (s.link.kept != [] || s.link.sending != []) && W.HasRoom(cfg, length, s, false) then 1 else 2)
  }

  function FedPoints<T>(ends: K.Ends, cfg: Config, length: nat, s: W.State<T>, ds: seq<Demand<T>>): (ps: seq<Point>)
    requires W.Possible(ends, cfg, length, s)
    ensures ps != [] && ps[0] == FedPoint(cfg, length, s)
    decreases |ds|
  {
    [FedPoint(cfg, length, s)] + if ds == [] then [] else FedPoints(ends, cfg, length, W.After(ends, cfg, length, s, ds[0]), ds[1..])
  }

  /** With a FIFO attached. */
  lemma {:induction false} FedDrains<T>(ends: K.Ends, cfg: Config, length: nat, s: W.State<T>, ds: seq<Demand<T>>)
    requires W.Possible(ends, cfg, length, s) && AlwaysTakes(ds)
    ensures Traced(ds, W.Run(ends, cfg, length, s, ds), FedPoints(ends, cfg, length, s, ds), length + K.Capacity(ends), 2)
    decreases |ds|
  {
    W.Bounded(ends, cfg, length, s);
    if ds != [] {
      FedMoves(ends, cfg, length, s, ds[0]);
      var s' := W.After(ends, cfg, length, s, ds[0]);
      FedDrains(ends, cfg, length, s', ds[1..]);
    }
  }

  lemma FedMoves<T>(ends: K.Ends, cfg: Config, length: nat, s: W.State<T>, d: Demand<T>)
    requires W.Possible(ends, cfg, length, s) && WantsGet(d)
    ensures Moves(d, W.Resolve(ends, cfg, length, s, d), FedPoint(cfg, length, s), FedPoint(cfg, length, W.After(ends, cfg, length, s, d)))
  {
    W.StepConserves(ends, cfg, length, s, d);
    W.HeadMovesIff(ends, cfg, length, s, d);
  }

  /** The cycles an element of the topmost busy stage has to go, counted from n stages below the top. */
  function ToGo(busy: seq<bool>, n: nat): nat
    requires n <= |busy|
    decreases |busy| - n
  {
    if n == |busy| then n else if busy[|busy| - 1 - n] then n else ToGo(busy, n + 1)
  }

  function PipePoint<T>(s: P.State<T>): Point
    requires |s.busy| == |s.regs|
  {
    Point(|P.Queue(s)|, if s.out != [] then 0 else ToGo(s.busy, 0))
  }

  function PipePoints<T>(ends: P.Ends, s: P.State<T>, ds: seq<Demand<T>>): (ps: seq<Point>)
    requires P.Possible(ends, s)
    ensures ps != [] && ps[0] == PipePoint(s)
    decreases |ds|
  {
    [PipePoint(s)] + if ds == [] then [] else PipePoints(ends, P.After(ends, s, ds[0]), ds[1..])
  }

  lemma {:induction false} ToGoIs(busy: seq<bool>, n: nat, i: nat)
    requires n <= |busy| && i < |busy| - n && busy[i] && forall j :: i < j < |busy| - n ==> !busy[j]
    ensures ToGo(busy, n) == |busy| - 1 - i
    decreases |busy| - n
  {
    if i != |busy| - 1 - n { ToGoIs(busy, n + 1, i); }
  }

  lemma {:induction false} ToGoTop(busy: seq<bool>, n: nat) returns (i: nat)
    requires n <= |busy|
    ensures ToGo(busy, n) <= |busy|
    ensures ToGo(busy, n) < |busy| ==> i < |busy| - n && busy[i] && ToGo(busy, n) == |busy| - 1 - i
                                       && forall j :: i < j < |busy| - n ==> !busy[j]
    ensures ToGo(busy, n) == |busy| ==> forall j :: 0 <= j < |busy| - n ==> !busy[j]
    decreases |busy| - n
  {
    i := 0;
    if n != |busy| {
      if busy[|busy| - 1 - n] { i := |busy| - 1 - n; } else { i := ToGoTop(busy, n + 1); }
    }
  }

  /** The pipe: the oldest element moves up by one stage in each cycle. */
  lemma PipeMoves<T>(ends: P.Ends, s: P.State<T>, d: Demand<T>)
    requires P.Possible(ends, s) && WantsGet(d)
    ensures Moves(d, P.Resolve(ends, s, d), PipePoint(s), PipePoint(P.After(ends, s, d)))
  {
    P.StepConserves(ends, s, d);
    P.QueueStep(ends, s, d);
    if s.out == [] && !s.busy[|s.busy| - 1] && P.Queue(s) != [] {
      var i := ToGoTop(s.busy, 0);
      OldestMovesUp(ends, s, d, i);
    }
  }

  lemma OldestMovesUp<T>(ends: P.Ends, s: P.State<T>, d: Demand<T>, i: nat)
    requires P.Possible(ends, s) && s.out == [] && !s.busy[|s.busy| - 1] && P.Queue(s) != []
    requires ToGo(s.busy, 0) < |s.busy| ==>
               i < |s.busy| && s.busy[i] && ToGo(s.busy, 0) == |s.busy| - 1 - i && forall j :: i < j < |s.busy| ==> !s.busy[j]
    requires ToGo(s.busy, 0) >= |s.busy| ==> ToGo(s.busy, 0) == |s.busy| && forall j :: 0 <= j < |s.busy| ==> !s.busy[j]
    ensures P.After(ends, s, d).out == [] && ToGo(P.After(ends, s, d).busy, 0) < ToGo(s.busy, 0)
  {
    var s' := P.After(ends, s, d);
    P.FreeOutputShifts(ends, s, d);
    if ToGo(s.busy, 0) < |s.busy| {
      assert s'.busy[i + 1];
      forall j | i + 1 < j < |s'.busy| ensures !s'.busy[j] { assert !s.busy[j - 1]; }
      ToGoIs(s'.busy, 0, i + 1);
    } else {
      NoItems(s.busy, s.regs, |s.busy|);
      assert s'.busy[0];
      forall j | 0 < j < |s'.busy| ensures !s'.busy[j] { assert !s.busy[j - 1]; }
      ToGoIs(s'.busy, 0, 0);
    }
  }

  lemma {:induction false} NoItems<T>(busy: seq<bool>, regs: seq<T>, n: nat)
    requires n <= |busy| == |regs| && forall j :: 0 <= j < n ==> !busy[j]
    ensures P.Items(busy, regs, n) == []
  {
    if n != 0 { NoItems(busy, regs, n - 1); }
  }

  lemma {:induction false} PipeDrains<T>(ends: P.Ends, s: P.State<T>, ds: seq<Demand<T>>, n: nat)
    requires P.Possible(ends, s) && n == |s.busy| && AlwaysTakes(ds)
    ensures Traced(ds, P.Run(ends, s, ds), PipePoints(ends, s, ds), n + 2, n)
    decreases |ds|
  {
    P.Bounded(ends, s);
    var i := ToGoTop(s.busy, 0);
    if ds != [] {
      PipeMoves(ends, s, ds[0]);
      var s' := P.After(ends, s, ds[0]);
      PipeDrains(ends, s', ds[1..], n);
    }
  }
}
