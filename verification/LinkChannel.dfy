/** What an initiator and a target connected by a ready/request handshake promise together: a queue
    spread over up to three registers. */
module LinkChannel {
  import opened QueueChannel

  /** Process kinds of the two ends, and whether the initiator has the extra register. */
  datatype Ends = Ends(threadPut: bool, threadGet: bool, sync: bool)

  /** One element at most in each place: kept in the target because it was not taken, being sent
      by the initiator, and waiting in the extra register. */
  datatype State<+T> = State(kept: seq<T>, sending: seq<T>, waiting: seq<T>)

  ghost predicate Possible<T>(ends: Ends, s: State<T>) {
    && |s.kept| <= 1 && |s.sending| <= 1 && |s.waiting| <= 1
    && (s.sending != [] ==> ends.sync || ends.threadPut)
    && (s.waiting != [] ==> ends.sync && ends.threadPut)
  }

  /** Everything accepted and not taken yet, oldest first. */
  function Queue<T>(s: State<T>): seq<T> {
    s.kept + s.sending + s.waiting
  }

  /** The initiator may put exactly while the target keeps nothing. */
  predicate Ready<T>(s: State<T>) {
    s.kept == []
  }

  /** The element offered in this cycle if the initiator is allowed to put it. */
  function Pushed<T>(s: State<T>, d: Demand<T>): seq<T> {
    if Ready(s) then Offered(d) else []
  }

  /** What the getting side can see in this cycle: the kept element, else the one being sent, else
      what a method puts right now. */
  function Head<T>(ends: Ends, s: State<T>, d: Demand<T>): seq<T> {
    if s.kept != [] then s.kept
    else if ends.sync || ends.threadPut then s.sending
    else Pushed(s, d)
  }

  function Resolve<T>(ends: Ends, s: State<T>, d: Demand<T>): (o: Outcome<T>) {
    var head := Head(ends, s, d);
    Outcome(Ready(s), head != [], Pushed(s, d) != [], head != [] && WantsGet(d),
            if head != [] then Some(head[0]) else None)
  }

  /** The registers after the clock edge. While the target keeps an element nothing moves. */
  function After<T>(ends: Ends, s: State<T>, d: Demand<T>, pop: bool): (s': State<T>)
    requires pop ==> Head(ends, s, d) != []
    requires Possible(ends, s)
    ensures Possible(ends, s')
  {
    var kept := Head(ends, s, d)[(if pop then 1 else 0)..];
    var pushed := Pushed(s, d);
    if s.kept != [] then s.(kept := kept)
    else if ends.sync && ends.threadPut then State(kept, s.waiting, pushed)
    else if ends.sync || ends.threadPut then State(kept, pushed, [])
    else State(kept, [], [])
  }

  /** The registers there are: the size the loosely timed target allocates instead. */
  function Capacity(ends: Ends): nat {
    (if ends.threadPut then 2 else 1) + (if ends.sync then 1 else 0)
  }

  /** The queue loses its head exactly when it is taken and gains the offered element exactly when
      the target is ready, and never outgrows the registers. */
  lemma QueueStep<T>(ends: Ends, s: State<T>, d: Demand<T>, pop: bool)
    requires Possible(ends, s) && (pop ==> Head(ends, s, d) != [])
    ensures Queue(After(ends, s, d, pop)) == (Queue(s) + Pushed(s, d))[(if pop then 1 else 0)..]
    ensures Head(ends, s, d) != [] ==> Head(ends, s, d)[0] == (Queue(s) + Pushed(s, d))[0]
    ensures |Queue(s)| <= Capacity(ends)
  {
    var all := Queue(s) + Pushed(s, d);
    var head := Head(ends, s, d);
    var after := After(ends, s, d, pop);
    assert head <= all;
    if pop {
      assert head[1..] == [];
      assert Queue(after) == all[1..];
    } else {
      assert Queue(after) == all;
    }
  }

  function Run<T>(ends: Ends, s: State<T>, ds: seq<Demand<T>>): (os: seq<Outcome<T>>)
    requires Possible(ends, s)
    ensures |os| == |ds|
    decreases |ds|
  {
    if ds == [] then [] else
      var o := Resolve(ends, s, ds[0]);
      [o] + Run(ends, After(ends, s, ds[0], o.pop), ds[1..])
  }

  function Left<T>(ends: Ends, s: State<T>, ds: seq<Demand<T>>): (s': State<T>)
    requires Possible(ends, s)
    ensures Possible(ends, s')
    decreases |ds|
  {
    if ds == [] then s else Left(ends, After(ends, s, ds[0], Resolve(ends, s, ds[0]).pop), ds[1..])
  }

  /** One cycle: what was in flight and what is accepted is what is taken and what stays. */
  lemma StepConserves<T>(ends: Ends, s: State<T>, d: Demand<T>)
    requires Possible(ends, s)
    ensures var o := Resolve(ends, s, d);
            && o.shown.Some? == o.valid
            && Queue(s) + (if o.push then Offered(d) else [])
               == (if o.pop then [o.shown.value] else []) + Queue(After(ends, s, d, o.pop))
  {
    var o := Resolve(ends, s, d);
    QueueStep(ends, s, d, o.pop);
    var all := Queue(s) + Pushed(s, d);
    assert o.pop ==> all == [all[0]] + all[1..];
  }

  /** Exactly once and in order, over every run, for all process kinds and both settings of the
      extra register; never more in flight than the registers. */
  lemma {:induction false} ConservedInOrder<T>(ends: Ends, s: State<T>, ds: seq<Demand<T>>)
    requires Possible(ends, s)
    ensures var os := Run(ends, s, ds);
            Queue(s) + Accepted(ds, os) == Taken(os) + Queue(Left(ends, s, ds))
    ensures |Queue(Left(ends, s, ds))| <= Capacity(ends)
    decreases |ds|
  {
    if ds == [] {
      QueueStep(ends, s, Demand(NoPut, NoGet), false);
    } else {
      var o := Resolve(ends, s, ds[0]);
      var s' := After(ends, s, ds[0], o.pop);
      StepConserves(ends, s, ds[0]);
      ConservedInOrder(ends, s', ds[1..]);
      JoinRuns(o, Run(ends, s', ds[1..]), ds, Queue(s), Queue(s'), Queue(Left(ends, s', ds[1..])));
    }
  }

  /** The bound is tight: as many puts as there are registers, and no get, fill them all. */
  lemma CapacityReached<T>(ends: Ends, x: T)
    ensures var put := Demand(TryPut(x, true), NoGet);
            |Queue(Left(ends, State([], [], []), seq(Capacity(ends), _ => put)))| == Capacity(ends)
  {
    var put := Demand(TryPut(x, true), NoGet);
    var s0 := State([], [], []);
    var s1 := After(ends, s0, put, false);
    var s2 := After(ends, s1, put, false);
    var s3 := After(ends, s2, put, false);
    var ds := seq(Capacity(ends), _ => put);
    assert Left(ends, s0, ds) == Left(ends, s1, ds[1..]);
    if Capacity(ends) == 1 {
      assert ds[1..] == [];
    } else {
      assert Left(ends, s1, ds[1..]) == Left(ends, s2, ds[1..][1..]);
      if Capacity(ends) == 2 {
        assert ds[1..][1..] == [];
      } else {
        assert Left(ends, s2, ds[1..][1..]) == Left(ends, s3, ds[1..][1..][1..]);
        assert ds[1..][1..][1..] == [];
      }
    }
  }

  /** Nothing gets stuck: an element in flight is visible to the getting side now or, if it has just
      left the extra register, one cycle later; whatever is put meanwhile. */
  lemma VisibleWithinOneCycle<T>(ends: Ends, s: State<T>, d: Demand<T>, d': Demand<T>)
    requires Possible(ends, s) && Queue(s) != [] && Head(ends, s, d) == []
    ensures Head(ends, After(ends, s, d, false), d')
            == [Queue(s)[0]]
  {
  }

  /** A getting side that always takes keeps the link at full rate: it stays ready in every cycle. */
  lemma {:induction false} AlwaysReadyForTakers<T>(ends: Ends, s: State<T>, ds: seq<Demand<T>>)
    requires Possible(ends, s) && Ready(s)
    requires forall i :: 0 <= i < |ds| ==> WantsGet(ds[i])
    ensures forall i :: 0 <= i < |ds| ==> Run(ends, s, ds)[i].ready
    decreases |ds|
  {
    if ds != [] {
      var s' := After(ends, s, ds[0], Resolve(ends, s, ds[0]).pop);
      AlwaysReadyForTakers(ends, s', ds[1..]);
      var os := Run(ends, s, ds);
      forall i | 0 <= i < |ds| ensures os[i].ready {
        if i != 0 { assert os[i] == Run(ends, s', ds[1..])[i - 1]; }
      }
    }
  }

  /** How long an element put into an empty link takes to show: no cycle for a method without the extra
      register, one for a thread or for the extra register, two for both. */
  lemma LatencyIs<T>(ends: Ends, x: T)
    ensures var put, idle := Demand(TryPut(x, true), NoGet), Demand(NoPut, NoGet);
            var os := Run(ends, State([], [], []), [put, idle, idle]);
            |os| == 3 && forall i :: 0 <= i < 3 ==>
              (os[i].valid <==> (if ends.threadPut then 1 else 0) + (if ends.sync then 1 else 0) <= i)
  {
    var put, idle := Demand(TryPut(x, true), NoGet), Demand(NoPut, NoGet);
    var s0 := State([], [], []);
    var s1 := After(ends, s0, put, false);
    var s2 := After(ends, s1, idle, false);
    assert [put, idle, idle][1..] == [idle, idle] && [idle, idle][1..] == [idle];
    assert Run(ends, s2, [idle]) == [Resolve(ends, s2, idle)];
    assert Run(ends, s1, [idle, idle]) == [Resolve(ends, s1, idle)] + Run(ends, s2, [idle]);
    assert Run(ends, s0, [put, idle, idle]) == [Resolve(ends, s0, put)] + Run(ends, s1, [idle, idle]);
  }
}
