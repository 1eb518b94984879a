/** The elastic pipeline as a value: an output register, N stages that are busy or not, and a
    pending element of a putting thread. In each cycle every element below a free stage moves up
    by one. */
module PipeChannel {
  import opened QueueChannel

  /** Whether put and get are called from threads. */
  datatype Ends = Ends(threadPut: bool, threadGet: bool)

  /** `out` is what the output register still offers, stage 0 is the input stage. */
  datatype State<+T> = State(out: seq<T>, busy: seq<bool>, regs: seq<T>, pending: seq<T>)

  ghost predicate Possible<T>(ends: Ends, s: State<T>) {
    && 0 < |s.busy| == |s.regs|
    && |s.out| <= 1 && |s.pending| <= 1
    && (s.pending != [] ==> ends.threadPut)
  }

  /** The elements of the first n stages, oldest first. */
  function Items<T>(busy: seq<bool>, regs: seq<T>, n: nat): (q: seq<T>)
    requires n <= |busy| == |regs|
    ensures |q| <= n
  {
    if n == 0 then [] else (if busy[n - 1] then [regs[n - 1]] else []) + Items(busy, regs, n - 1)
  }

  function Queue<T>(s: State<T>): seq<T>
    requires |s.busy| == |s.regs|
  {
    s.out + Items(s.busy, s.regs, |s.busy|) + s.pending
  }

  /** Some stage from i upward is free. */
  predicate Hole(busy: seq<bool>, i: nat)
    requires i <= |busy|
    decreases |busy| - i
  {
    i < |busy| && (!busy[i] || Hole(busy, i + 1))
  }

  lemma {:induction false} HoleExists(busy: seq<bool>, i: nat)
    requires i <= |busy|
    ensures Hole(busy, i) <==> exists j :: i <= j < |busy| && !busy[j]
    decreases |busy| - i
  {
    if i < |busy| {
      HoleExists(busy, i + 1);
    }
  }

  /** Stage i takes over the element of the stage below. */
  predicate Shifts(busy: seq<bool>, i: nat)
    requires i < |busy|
  {
    i != 0 && busy[i - 1] && Hole(busy, i)
  }

  /** Busy stages after every element below a free stage has moved up. */
  function Collapsed(busy: seq<bool>): (r: seq<bool>)
    ensures |r| == |busy|
  {
    seq(|busy|, i requires 0 <= i < |busy| => Shifts(busy, i) || (busy[i] && !Hole(busy, i + 1)))
  }

  /** Stage contents after the same moves; a new element enters stage 0. */
  function Moved<T>(busy: seq<bool>, regs: seq<T>, entering: seq<T>): (r: seq<T>)
    requires |busy| == |regs|
    ensures |r| == |regs|
  {
    seq(|regs|, i requires 0 <= i < |regs| =>
      if Shifts(busy, i) then regs[i - 1] else if i == 0 && entering != [] then entering[0] else regs[i])
  }

  /** The output register takes the element of the last stage if it is free. */
  function Shown<T>(s: State<T>): seq<T>
    requires 0 < |s.busy| == |s.regs|
  {
    if s.out == [] && s.busy[|s.busy| - 1] then [s.regs[|s.busy| - 1]] else s.out
  }

  function BusyPulled<T>(s: State<T>): seq<bool>
    requires 0 < |s.busy|
  {
    if s.out == [] then s.busy[|s.busy| - 1 := false] else s.busy
  }

  predicate Ready<T>(s: State<T>)
    requires 0 < |s.busy|
  {
    Hole(BusyPulled(s), 0)
  }

  function Resolve<T>(ends: Ends, s: State<T>, d: Demand<T>): Outcome<T>
    requires Possible(ends, s)
  {
    var shown := Shown(s);
    Outcome(Ready(s), shown != [], Ready(s) && WantsPut(d), shown != [] && WantsGet(d),
            if shown != [] then Some(shown[0]) else None)
  }

  /** The element that enters stage 0 at the end of the cycle. */
  function Entering<T>(ends: Ends, s: State<T>, d: Demand<T>): seq<T>
    requires Possible(ends, s)
  {
    if !Ready(s) then [] else if ends.threadPut then s.pending else Offered(d)
  }

  function After<T>(ends: Ends, s: State<T>, d: Demand<T>): (s': State<T>)
    requires Possible(ends, s)
    ensures Possible(ends, s') && |s'.busy| == |s.busy|
  {
    var busy, entering := BusyPulled(s), Entering(ends, s, d);
    State(Shown(s)[(if Resolve(ends, s, d).pop then 1 else 0)..],
          if entering != [] then Collapsed(busy)[0 := true] else Collapsed(busy),
          Moved(busy, s.regs, entering),
          if !ends.threadPut then [] else if Ready(s) then Offered(d) else s.pending)
  }

  /** Moving up keeps the elements and their order: below the top free stage everything is one
      stage higher, above it everything stays. */
  lemma {:induction false} CollapseKeepsOrder<T>(busy: seq<bool>, regs: seq<T>, entering: seq<T>, n: nat)
    requires n <= |busy| == |regs| && (entering != [] ==> Hole(busy, 0))
    ensures var busy', regs' := Collapsed(busy), Moved(busy, regs, entering);
            Items(busy', regs', n) == if Hole(busy, n) then (if n == 0 then [] else Items(busy, regs, n - 1))
                                      else Items(busy, regs, n)
  {
    if n != 0 {
      var busy', regs' := Collapsed(busy), Moved(busy, regs, entering);
      CollapseKeepsOrder(busy, regs, entering, n - 1);
      assert busy'[n - 1] == (Shifts(busy, n - 1) || (busy[n - 1] && !Hole(busy, n)));
      assert Items(busy', regs', n) == (if busy'[n - 1] then [regs'[n - 1]] else []) + Items(busy', regs', n - 1);
    }
  }

  /** Filling the free stage 0 appends. */
  lemma {:induction false} FillFirst<T>(busy: seq<bool>, regs: seq<T>, n: nat)
    requires 0 < n <= |busy| == |regs| && !busy[0]
    ensures Items(busy[0 := true], regs, n) == Items(busy, regs, n) + [regs[0]]
  {
    if n != 1 {
      FillFirst(busy, regs, n - 1);
    }
  }

  /** Pulling the last stage into the free output register keeps the order. */
  lemma PullKeepsOrder<T>(s: State<T>)
    requires 0 < |s.busy| == |s.regs|
    ensures Shown(s) + Items(BusyPulled(s), s.regs, |s.busy|) == s.out + Items(s.busy, s.regs, |s.busy|)
  {
    var last := |s.busy| - 1;
    ItemsBelow(s.busy, s.busy[last := false], s.regs, last);
  }

  lemma {:induction false} ItemsBelow<T>(busy: seq<bool>, busy': seq<bool>, regs: seq<T>, n: nat)
    requires n <= |busy| == |busy'| == |regs|
    requires forall i :: 0 <= i < n ==> busy[i] == busy'[i]
    ensures Items(busy, regs, n) == Items(busy', regs, n)
  {
    if n != 0 {
      ItemsBelow(busy, busy', regs, n - 1);
    }
  }

  /** The stages after one cycle hold what the pull left in them, then what entered. */
  lemma StagesAfter<T>(ends: Ends, s: State<T>, d: Demand<T>)
    requires Possible(ends, s)
    ensures var s', n := After(ends, s, d), |s.busy|;
            Items(s'.busy, s'.regs, n) == Items(BusyPulled(s), s.regs, n) + Entering(ends, s, d)
  {
    var busy, entering := BusyPulled(s), Entering(ends, s, d);
    CollapseKeepsOrder(busy, s.regs, entering, |s.busy|);
    if entering != [] {
      FillFirst(Collapsed(busy), Moved(busy, s.regs, entering), |s.busy|);
    }
  }

  lemma Chain<T>(shown: seq<T>, items: seq<T>, entering: seq<T>, pending': seq<T>, pending: seq<T>,
                 pushed: seq<T>, k: nat)
    requires k <= |shown| && entering + pending' == pending + pushed
    ensures shown[k..] + (items + entering) + pending' == (shown + items + pending + pushed)[k..]
  {
    assert shown[k..] + (items + entering) + pending' == shown[k..] + items + (entering + pending');
  }

  /** The pipe never holds more than its stages, the output register and, for a putting thread, the
      data register. */
  lemma Bounded<T>(ends: Ends, s: State<T>)
    requires Possible(ends, s)
    ensures |Queue(s)| <= |s.busy| + (if ends.threadPut then 2 else 1)
  {
  }

  /** One cycle: the queue loses its head exactly when it is taken and gains the offered element
      exactly when the pipe is ready; what is shown is the oldest element if it has reached the
      end. */
  lemma QueueStep<T>(ends: Ends, s: State<T>, d: Demand<T>)
    requires Possible(ends, s)
    ensures var o := Resolve(ends, s, d);
            && Queue(After(ends, s, d)) == (Queue(s) + if o.push then Offered(d) else [])[(if o.pop then 1 else 0)..]
            && (o.valid ==> Queue(s) != [] && o.shown == Some(Queue(s)[0]))
  {
    var o, s' := Resolve(ends, s, d), After(ends, s, d);
    var pushed := if o.push then Offered(d) else [];
    var items := Items(BusyPulled(s), s.regs, |s.busy|);
    PullKeepsOrder(s);
    StagesAfter(ends, s, d);
    assert Entering(ends, s, d) + s'.pending == s.pending + pushed;
    Chain(Shown(s), items, Entering(ends, s, d), s'.pending, s.pending, pushed, if o.pop then 1 else 0);
  }

  function Run<T>(ends: Ends, s: State<T>, ds: seq<Demand<T>>): (os: seq<Outcome<T>>)
    requires Possible(ends, s)
    ensures |os| == |ds|
    decreases |ds|
  {
    if ds == [] then [] else [Resolve(ends, s, ds[0])] + Run(ends, After(ends, s, ds[0]), ds[1..])
  }

  function Left<T>(ends: Ends, s: State<T>, ds: seq<Demand<T>>): (s': State<T>)
    requires Possible(ends, s)
    ensures Possible(ends, s') && |s'.busy| == |s.busy|
    decreases |ds|
  {
    if ds == [] then s else Left(ends, After(ends, s, ds[0]), ds[1..])
  }

  lemma StepConserves<T>(ends: Ends, s: State<T>, d: Demand<T>)
    requires Possible(ends, s)
    ensures var o := Resolve(ends, s, d);
            Queue(s) + (if o.push then Offered(d) else [])
            == (if o.pop then [o.shown.value] else []) + Queue(After(ends, s, d))
  {
    var o := Resolve(ends, s, d);
    QueueStep(ends, s, d);
    var all := Queue(s) + if o.push then Offered(d) else [];
    assert o.pop ==> all == [all[0]] + all[1..];
  }

  /** Over every run and for every number of stages the pipe delivers what was put, in order and
      exactly once. */
  lemma {:induction false} ConservedInOrder<T>(ends: Ends, s: State<T>, ds: seq<Demand<T>>)
    requires Possible(ends, s)
    ensures var os := Run(ends, s, ds);
            Queue(s) + Accepted(ds, os) == Taken(os) + Queue(Left(ends, s, ds))
    decreases |ds|
  {
    if ds != [] {
      var s' := After(ends, s, ds[0]);
      StepConserves(ends, s, ds[0]);
      ConservedInOrder(ends, s', ds[1..]);
      JoinRuns(Resolve(ends, s, ds[0]), Run(ends, s', ds[1..]), ds, Queue(s), Queue(s'), Queue(Left(ends, s', ds[1..])));
    }
  }

  /** The pipe refuses exactly when every stage is busy and the output register is still full. */
  lemma NotReadyIffFull<T>(s: State<T>)
    requires 0 < |s.busy|
    ensures !Ready(s) <==> s.out != [] && forall i :: 0 <= i < |s.busy| ==> s.busy[i]
  {
    HoleExists(BusyPulled(s), 0);
    if s.out == [] {
      assert !BusyPulled(s)[|s.busy| - 1];
    }
  }

  /** With a free output register every element moves up by one stage. */
  lemma FreeOutputShifts<T>(ends: Ends, s: State<T>, d: Demand<T>)
    requires Possible(ends, s) && s.out == []
    ensures Ready(s)
    ensures var s' := After(ends, s, d);
            forall i :: 0 < i < |s.busy| ==> s'.busy[i] == s.busy[i - 1] && (s.busy[i - 1] ==> s'.regs[i] == s.regs[i - 1])
  {
    var busy := BusyPulled(s);
    NotReadyIffFull(s);
    forall i | 0 <= i < |busy| ensures Hole(busy, i) {
      HoleExists(busy, i);
      assert !busy[|busy| - 1];
    }
    forall i | 0 < i < |busy|
      ensures After(ends, s, d).busy[i] == s.busy[i - 1]
    {
      assert Hole(busy, i) && (i + 1 < |busy| ==> Hole(busy, i + 1));
    }
  }

  /** A getting side that takes in every valid cycle keeps the pipe ready in every cycle. */
  lemma {:induction false} AlwaysReadyForTakers<T>(ends: Ends, s: State<T>, ds: seq<Demand<T>>)
    requires Possible(ends, s) && s.out == []
    requires forall i :: 0 <= i < |ds| ==> WantsGet(ds[i])
    ensures forall i :: 0 <= i < |ds| ==> Run(ends, s, ds)[i].ready
    ensures Left(ends, s, ds).out == []
    decreases |ds|
  {
    if ds != [] {
      var s' := After(ends, s, ds[0]);
      FreeOutputShifts(ends, s, ds[0]);
      AlwaysReadyForTakers(ends, s', ds[1..]);
      var os := Run(ends, s, ds);
      forall i | 0 <= i < |ds| ensures os[i].ready {
        if i != 0 { assert os[i] == Run(ends, s', ds[1..])[i - 1]; }
      }
    }
  }

  /** And then an element in stage i is shown exactly N - 1 - i cycles later: an element loaded
      into stage 0 appears at the output N - 1 clock edges after it was loaded. */
  lemma {:induction false} FixedDelayForTakers<T>(ends: Ends, s: State<T>, i: nat, ds: seq<Demand<T>>)
    requires Possible(ends, s) && s.out == [] && i < |s.busy| && s.busy[i]
    requires |ds| == |s.busy| - 1 - i
    requires forall k :: 0 <= k < |ds| ==> WantsGet(ds[k])
    ensures Shown(Left(ends, s, ds)) == [s.regs[i]]
    decreases |ds|
  {
    if ds != [] {
      var s' := After(ends, s, ds[0]);
      FreeOutputShifts(ends, s, ds[0]);
      assert s'.busy[i + 1] && s'.regs[i + 1] == s.regs[i];
      FixedDelayForTakers(ends, s', i + 1, ds[1..]);
    }
  }
}
