/** What the FIFO of the shared memory design promises: a queue whose element can pass through in
    the cycle it is pushed, and a flag that announces a nearly full queue. */
module AdvChannel {
  import opened QueueChannel

  /** The asynchronous valid, ready and almost-full options, the slots, and how many of them are
      free when the queue counts as almost full. */
  datatype Config = Config(asyncValid: bool, asyncReady: bool, asyncAfull: bool, length: nat, afull: nat)

  /** What the constructor demands. */
  predicate Allowed(cfg: Config) {
    cfg.afull < cfg.length && (cfg.asyncAfull ==> cfg.asyncValid || cfg.length > 1)
  }

  /** The queue, and whether a clock edge has passed since reset. */
  datatype State<T> = State(q: seq<T>, started: bool)

  ghost predicate Valid<T>(cfg: Config, s: State<T>) {
    Allowed(cfg) && |s.q| <= cfg.length && (!s.started ==> s.q == [])
  }

  /** The inputs at a clock edge. */
  datatype Inputs<T> = Inputs(push: bool, data: T, pop: bool)

  predicate ReadyFlag<T>(cfg: Config, s: State<T>, i: Inputs<T>) {
    (s.started && |s.q| < cfg.length) || (cfg.asyncReady && i.pop && s.q != [])
  }

  predicate ValidFlag<T>(cfg: Config, s: State<T>, i: Inputs<T>) {
    s.q != [] || (cfg.asyncValid && i.push)
  }

  function Shown<T>(cfg: Config, s: State<T>, i: Inputs<T>): T
    requires ValidFlag(cfg, s, i)
  {
    if s.q != [] then s.q[0] else i.data
  }

  predicate AlmostFullFlag<T>(cfg: Config, s: State<T>, i: Inputs<T>)
    requires Allowed(cfg)
  {
    || |s.q| >= cfg.length - cfg.afull
    || (cfg.asyncAfull && i.push && !i.pop && |s.q| == cfg.length - cfg.afull - 1)
  }

  /** The element accepted in a cycle, and the one taken. */
  function In<T>(cfg: Config, s: State<T>, i: Inputs<T>): seq<T> {
    if i.push && ReadyFlag(cfg, s, i) then [i.data] else []
  }

  function Out<T>(cfg: Config, s: State<T>, i: Inputs<T>): seq<T> {
    if i.pop && ValidFlag(cfg, s, i) then [Shown(cfg, s, i)] else []
  }

  /** The state after the edge. An element that passes through an empty queue is not stored. */
  function After<T>(cfg: Config, s: State<T>, i: Inputs<T>): (s': State<T>)
    requires Valid(cfg, s)
    ensures Valid(cfg, s')
  {
    var rest := if i.pop && s.q != [] then s.q[1..] else s.q;
    var through := cfg.asyncValid && s.q == [] && i.pop;
    State(rest + if i.push && !through && ReadyFlag(cfg, s, i) then [i.data] else [], true)
  }

  /** The element is handed on although the FIFO is not ready for it. */
  predicate TakenUnaccepted<T>(cfg: Config, s: State<T>, i: Inputs<T>) {
    !s.started && cfg.asyncValid && i.push && i.pop
  }

  /** One cycle is a step of a queue, whenever push is raised, except exactly when push is raised
      right after reset, before the FIFO is ready, and the element is taken at once. */
  lemma StepIsQueueIff<T>(cfg: Config, s: State<T>, i: Inputs<T>)
    requires Valid(cfg, s)
    ensures s.q + In(cfg, s, i) == Out(cfg, s, i) + After(cfg, s, i).q <==> !TakenUnaccepted(cfg, s, i)
    ensures TakenUnaccepted(cfg, s, i) ==> |s.q + In(cfg, s, i)| != |Out(cfg, s, i) + After(cfg, s, i).q|
  {
    if s.q != [] {
      assert s.q == [s.q[0]] + s.q[1..];
    }
  }

  /** A producer that pushes only while the FIFO is ready never gets there. */
  lemma ReadyPushIsSafe<T>(cfg: Config, s: State<T>, i: Inputs<T>)
    requires Valid(cfg, s) && (i.push ==> ReadyFlag(cfg, s, i))
    ensures !TakenUnaccepted(cfg, s, i)
  {
  }

  /** Once started, a pushed element is refused exactly if the queue is full and ready is registered
      or nothing is popped; before, always. */
  lemma RefusedIff<T>(cfg: Config, s: State<T>, i: Inputs<T>)
    requires Valid(cfg, s) && i.push
    ensures In(cfg, s, i) == (if !s.started || (|s.q| == cfg.length && !(cfg.asyncReady && i.pop)) then [] else [i.data])
  {
  }

  /** A pop takes the head, or the element pushed in the same cycle if valid is asynchronous. */
  lemma TakenIs<T>(cfg: Config, s: State<T>, i: Inputs<T>)
    requires Valid(cfg, s)
    ensures Out(cfg, s, i) == if !i.pop then [] else if s.q != [] then [s.q[0]]
                              else if cfg.asyncValid && i.push then [i.data] else []
  {
  }

  /** What is left: the queue with the element pushed, where there is room for it or a pop makes room
      in time, without the head that is popped. */
  lemma LeftIs<T>(cfg: Config, s: State<T>, i: Inputs<T>)
    requires Valid(cfg, s) && s.started
    ensures var all := s.q + if i.push && (|s.q| < cfg.length || (cfg.asyncReady && i.pop)) then [i.data] else [];
            After(cfg, s, i).q == if i.pop && (s.q != [] || (cfg.asyncValid && i.push)) then all[1..] else all
  {
  }

  function Left<T>(cfg: Config, s: State<T>, ins: seq<Inputs<T>>): (s': State<T>)
    requires Valid(cfg, s)
    ensures Valid(cfg, s')
    decreases |ins|
  {
    if ins == [] then s else Left(cfg, After(cfg, s, ins[0]), ins[1..])
  }

  function Accepted<T>(cfg: Config, s: State<T>, ins: seq<Inputs<T>>): seq<T>
    requires Valid(cfg, s)
    decreases |ins|
  {
    if ins == [] then [] else In(cfg, s, ins[0]) + Accepted(cfg, After(cfg, s, ins[0]), ins[1..])
  }

  function Taken<T>(cfg: Config, s: State<T>, ins: seq<Inputs<T>>): seq<T>
    requires Valid(cfg, s)
    decreases |ins|
  {
    if ins == [] then [] else Out(cfg, s, ins[0]) + Taken(cfg, After(cfg, s, ins[0]), ins[1..])
  }

  /** A run hands on every element exactly once and in order, exactly if the first cycle after
      reset is not that exception. No later cycle can be. */
  lemma {:induction false} RunIsQueueIff<T>(cfg: Config, s: State<T>, ins: seq<Inputs<T>>)
    requires Valid(cfg, s)
    ensures s.q + Accepted(cfg, s, ins) == Taken(cfg, s, ins) + Left(cfg, s, ins).q
            <==> ins == [] || !TakenUnaccepted(cfg, s, ins[0])
    decreases |ins|
  {
    if ins != [] {
      var s' := After(cfg, s, ins[0]);
      StepIsQueueIff(cfg, s, ins[0]);
      RunIsQueueIff(cfg, s', ins[1..]);
      if TakenUnaccepted(cfg, s, ins[0]) {
        assert |s'.q + Accepted(cfg, s', ins[1..])| == |Taken(cfg, s', ins[1..]) + Left(cfg, s', ins[1..]).q|;
        assert |s.q + Accepted(cfg, s, ins)| != |Taken(cfg, s, ins) + Left(cfg, s, ins).q|;
      } else {
        Regroup(s.q, In(cfg, s, ins[0]), Accepted(cfg, s', ins[1..]),
                Out(cfg, s, ins[0]), s'.q, Taken(cfg, s', ins[1..]), Left(cfg, s', ins[1..]).q);
      }
    }
  }

  /** The flag is up in time: before each edge after which the queue is almost full. */
  ghost predicate InTime<T>(cfg: Config, s: State<T>, i: Inputs<T>)
    requires Valid(cfg, s)
  {
    |After(cfg, s, i).q| >= cfg.length - cfg.afull ==> AlmostFullFlag(cfg, s, i)
  }

  /** The asynchronous flag is always in time exactly with an asynchronous valid, or if more than one
      element is needed to make the queue almost full. The constructor also admits a longer FIFO
      that is almost full with one element. */
  lemma AlwaysInTimeIff<T>(cfg: Config, x: T)
    requires Allowed(cfg) && cfg.asyncAfull
    ensures (forall s: State<T>, i: Inputs<T> :: Valid(cfg, s) ==> InTime(cfg, s, i))
            <==> cfg.asyncValid || cfg.length - cfg.afull > 1
  {
    if !cfg.asyncValid && cfg.length - cfg.afull == 1 {
      var s, i := State<T>.State([], true), Inputs(true, x, true);
      assert !InTime(cfg, s, i);
    }
  }

  /** And it is never up without reason once the FIFO is ready for what is pushed: the queue is
      almost full before or after the edge. */
  lemma AlmostFullIff<T>(cfg: Config, s: State<T>, i: Inputs<T>)
    requires Valid(cfg, s) && cfg.asyncAfull && (cfg.asyncValid || cfg.length - cfg.afull > 1)
    requires i.push ==> s.started
    ensures AlmostFullFlag(cfg, s, i)
            <==> |s.q| >= cfg.length - cfg.afull || |After(cfg, s, i).q| >= cfg.length - cfg.afull
  {
  }

  /** The registered flag is up exactly if the queue was almost full at the last edge. */
  lemma RegisteredAlmostFullIff<T>(cfg: Config, s: State<T>, i: Inputs<T>, next: Inputs<T>)
    requires Valid(cfg, s) && !cfg.asyncAfull
    ensures AlmostFullFlag(cfg, After(cfg, s, i), next) <==> |After(cfg, s, i).q| + cfg.afull >= cfg.length
  {
  }

  function Data<T>(ins: seq<Inputs<T>>): (data: seq<T>)
    ensures |data| == |ins|
  {
    if ins == [] then [] else [ins[0].data] + Data(ins[1..])
  }

  ghost predicate PushAndPop<T>(ins: seq<Inputs<T>>) {
    forall k :: 0 <= k < |ins| ==> ins[k].push && ins[k].pop
  }

  /** A full FIFO that is pushed and popped in every cycle accepts every element, hands one on in each
      cycle and stays full, if and only if ready is asynchronous. */
  lemma {:induction false} StaysFullIff<T>(cfg: Config, s: State<T>, ins: seq<Inputs<T>>)
    requires Valid(cfg, s) && s.started && |s.q| == cfg.length && ins != [] && PushAndPop(ins)
    ensures Accepted(cfg, s, ins) == Data(ins) && |Left(cfg, s, ins).q| == cfg.length <==> cfg.asyncReady
    ensures cfg.asyncReady ==> |Taken(cfg, s, ins)| == |ins|
    decreases |ins|
  {
    var s' := After(cfg, s, ins[0]);
    assert ins[0].push && ins[0].pop;
    if !cfg.asyncReady {
      AtMostOneEach(cfg, s', ins[1..]);
    } else if ins[1..] != [] {
      StaysFullIff(cfg, s', ins[1..]);
    }
  }

  lemma {:induction false} AtMostOneEach<T>(cfg: Config, s: State<T>, ins: seq<Inputs<T>>)
    requires Valid(cfg, s)
    ensures |Accepted(cfg, s, ins)| <= |ins|
    decreases |ins|
  {
    if ins != [] { AtMostOneEach(cfg, After(cfg, s, ins[0]), ins[1..]); }
  }

  /** Pushes alone fill it up to its length, and no further. */
  lemma {:induction false} PushesFill<T>(cfg: Config, s: State<T>, ins: seq<Inputs<T>>)
    requires Valid(cfg, s) && s.started && forall k :: 0 <= k < |ins| ==> ins[k].push && !ins[k].pop
    ensures |Left(cfg, s, ins).q| == (if |s.q| + |ins| < cfg.length then |s.q| + |ins| else cfg.length)
    ensures Left(cfg, s, ins).started
    decreases |ins|
  {
    if ins != [] {
      assert ins[0].push && !ins[0].pop;
      PushesFill(cfg, After(cfg, s, ins[0]), ins[1..]);
    }
  }
}
