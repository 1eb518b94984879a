/** What a clocked FIFO channel promises: a queue, and each cycle a ready flag for the putting
    process and a valid flag for the getting one. Every FIFO of the library is proved to be
    this machine, so two of them that share a configuration behave alike. */
module QueueChannel {

  datatype Option<+T> = None | Some(value: T)

  /** Process kinds on both sides (thread or method) and the two synchronisation flags. */
  datatype Config = Config(threadPut: bool, threadGet: bool, syncValid: bool, syncReady: bool)

  /** The configurations without a thread on a side whose own flag is registered once more. The
      library prints a warning for the others. */
  predicate Covered(cfg: Config) {
    !(cfg.threadPut && cfg.syncValid) && !(cfg.threadGet && cfg.syncReady)
  }

  /** What the putting process does in one cycle. A try with the mask off puts nothing. */
  datatype PutCall<+T> = NoPut | ClearPut | TryPut(data: T, mask: bool)

  /** What the getting process does in one cycle. A try with enable off takes nothing. */
  datatype GetCall = NoGet | ClearGet | TryGet(enable: bool)

  datatype Demand<+T> = Demand(put: PutCall<T>, get: GetCall)

  /** What one cycle shows to both processes: the two flags, whether an element was accepted
      and taken, and the data shown while valid. */
  datatype Outcome<+T> = Outcome(ready: bool, valid: bool, push: bool, pop: bool, shown: Option<T>)

  predicate WantsPut<T>(d: Demand<T>) {
    d.put.TryPut? && d.put.mask
  }

  predicate WantsGet<T>(d: Demand<T>) {
    d.get.TryGet? && d.get.enable
  }

  /** The element offered in this cycle, if any. */
  function Offered<T>(d: Demand<T>): seq<T> {
    if WantsPut(d) then [d.put.data] else []
  }

  /** A non-empty queue is valid; an empty one is valid only through the combinational path
      from a method put. */
  predicate ValidFlag<T>(cfg: Config, q: seq<T>, push: bool) {
    q != [] || (!cfg.threadPut && !cfg.syncValid && push)
  }

  /** A queue with room is ready; a full one is ready only through the combinational path from
      a method get. */
  predicate ReadyFlag<T>(cfg: Config, length: nat, q: seq<T>, pop: bool) {
    |q| < length || (!cfg.threadGet && !cfg.syncReady && pop)
  }

  /** The combinational network of one cycle is settled: flags and requests agree. */
  ghost predicate Settled<T>(cfg: Config, length: nat, q: seq<T>, d: Demand<T>, o: Outcome<T>) {
    && o.ready == ReadyFlag(cfg, length, q, o.pop)
    && o.valid == ValidFlag(cfg, q, o.push)
    && o.push == (o.ready && WantsPut(d))
    && o.pop == (o.valid && WantsGet(d))
    && (o.valid ==> o.shown == Some((q + Offered(d))[0]))
    && (!o.valid ==> o.shown == None)
  }

  /** The settled outcome of a cycle. */
  function Resolve<T>(cfg: Config, length: nat, q: seq<T>, d: Demand<T>): (o: Outcome<T>)
    requires 0 < length
    ensures Settled(cfg, length, q, d, o)
  {
    if q == [] then
      var push := WantsPut(d);
      var valid := ValidFlag(cfg, q, push);
      Outcome(true, valid, push, valid && WantsGet(d), if valid then Some(d.put.data) else None)
    else
      var pop := WantsGet(d);
      var ready := ReadyFlag(cfg, length, q, pop);
      Outcome(ready, true, ready && WantsPut(d), pop, Some(q[0]))
  }

  /** Whatever order the processes are evaluated in, they settle to the same outcome. */
  lemma SettledIsUnique<T>(cfg: Config, length: nat, q: seq<T>, d: Demand<T>, o: Outcome<T>)
    requires 0 < length && Settled(cfg, length, q, d, o)
    ensures o == Resolve(cfg, length, q, d)
  {
    if q == [] {
      assert o.ready;
    } else {
      assert o.valid;
    }
  }

  /** The queue after the clock edge that ends a cycle. */
  function After<T>(q: seq<T>, d: Demand<T>, o: Outcome<T>): seq<T>
    requires o.push ==> WantsPut(d)
    requires o.pop ==> q != [] || o.push
  {
    (q + if o.push then Offered(d) else [])[(if o.pop then 1 else 0)..]
  }

  /** All outcomes of a run. */
  function Run<T>(cfg: Config, length: nat, q: seq<T>, ds: seq<Demand<T>>): (os: seq<Outcome<T>>)
    requires 0 < length
    ensures |os| == |ds|
    decreases |ds|
  {
    if ds == [] then [] else
      var o := Resolve(cfg, length, q, ds[0]);
      [o] + Run(cfg, length, After(q, ds[0], o), ds[1..])
  }

  /** The queue left by a run. */
  function Left<T>(cfg: Config, length: nat, q: seq<T>, ds: seq<Demand<T>>): seq<T>
    requires 0 < length
    decreases |ds|
  {
    if ds == [] then q else
      Left(cfg, length, After(q, ds[0], Resolve(cfg, length, q, ds[0])), ds[1..])
  }

  /** The elements accepted during a run, in order. */
  function Accepted<T>(ds: seq<Demand<T>>, os: seq<Outcome<T>>): seq<T>
    requires |ds| == |os|
  {
    if ds == [] then [] else (if os[0].push then Offered(ds[0]) else []) + Accepted(ds[1..], os[1..])
  }

  /** The elements taken during a run, in order. */
  function Taken<T>(os: seq<Outcome<T>>): seq<T> {
    if os == [] then [] else
      (if os[0].pop && os[0].shown.Some? then [os[0].shown.value] else []) + Taken(os[1..])
  }

  lemma Regroup<T>(q: seq<T>, a: seq<T>, aRest: seq<T>, t: seq<T>, q': seq<T>, tRest: seq<T>, left: seq<T>)
    requires q + a == t + q' && q' + aRest == tRest + left
    ensures q + (a + aRest) == (t + tRest) + left
  {
    assert q + (a + aRest) == (q + a) + aRest == t + (q' + aRest);
  }

  /** If one cycle and the run after it each conserve the elements in order, so does the whole. */
  lemma JoinRuns<T>(o: Outcome<T>, rest: seq<Outcome<T>>, ds: seq<Demand<T>>, q: seq<T>, q': seq<T>, left: seq<T>)
    requires |ds| == 1 + |rest| && (o.pop ==> o.shown.Some?)
    requires q + (if o.push then Offered(ds[0]) else []) == (if o.pop then [o.shown.value] else []) + q'
    requires q' + Accepted(ds[1..], rest) == Taken(rest) + left
    ensures q + Accepted(ds, [o] + rest) == Taken([o] + rest) + left
  {
    assert ([o] + rest)[1..] == rest;
    Regroup(q, if o.push then Offered(ds[0]) else [], Accepted(ds[1..], rest),
            if o.pop then [o.shown.value] else [], q', Taken(rest), left);
  }

  /** Exactly once and in order: at any time, what was in the queue and what has been accepted
      is what has been taken followed by what the queue still holds; and it never holds more
      than the channel has slots. */
  lemma {:induction false} ConservedInOrder<T>(cfg: Config, length: nat, q: seq<T>, ds: seq<Demand<T>>)
    requires 0 < length && |q| <= length
    ensures var os := Run(cfg, length, q, ds);
            q + Accepted(ds, os) == Taken(os) + Left(cfg, length, q, ds)
    ensures |Left(cfg, length, q, ds)| <= length
    decreases |ds|
  {
    if ds != [] {
      var o := Resolve(cfg, length, q, ds[0]);
      var q' := After(q, ds[0], o);
      ConservedInOrder(cfg, length, q', ds[1..]);
      JoinRuns(o, Run(cfg, length, q', ds[1..]), ds, q, q', Left(cfg, length, q', ds[1..]));
    }
  }

  /** A run can be cut anywhere: the second part starts from the queue the first one leaves. */
  lemma {:induction false} RunAppend<T>(cfg: Config, length: nat, q: seq<T>, ds: seq<Demand<T>>, es: seq<Demand<T>>)
    requires 0 < length
    ensures var left := Left(cfg, length, q, ds);
            && Run(cfg, length, q, ds + es) == Run(cfg, length, q, ds) + Run(cfg, length, left, es)
            && Left(cfg, length, q, ds + es) == Left(cfg, length, left, es)
    decreases |ds|
  {
    if ds == [] {
      assert ds + es == es;
    } else {
      assert (ds + es)[1..] == ds[1..] + es;
      RunAppend(cfg, length, After(q, ds[0], Resolve(cfg, length, q, ds[0])), ds[1..], es);
    }
  }

  /** One cycle more. */
  lemma RunOneMore<T>(cfg: Config, length: nat, q: seq<T>, ds: seq<Demand<T>>, d: Demand<T>)
    requires 0 < length
    ensures var left := Left(cfg, length, q, ds);
            var o := Resolve(cfg, length, left, d);
            && Run(cfg, length, q, ds + [d]) == Run(cfg, length, q, ds) + [o]
            && Left(cfg, length, q, ds + [d]) == After(left, d, o)
  {
    RunAppend(cfg, length, q, ds, [d]);
    assert [d][1..] == [];
  }

  /** The flags by what the two sides want: ready with a free slot, or if a method gets in the same cycle;
      valid with an element, or if a method puts in the same cycle. A full queue always lets a get
      through and an empty one a put, so no request waits for the other one in a circle. */
  lemma FlagsByDemand<T>(cfg: Config, length: nat, q: seq<T>, d: Demand<T>)
    requires 0 < length && |q| <= length
    ensures var o := Resolve(cfg, length, q, d);
            && (o.ready <==> |q| < length || (!cfg.threadGet && !cfg.syncReady && WantsGet(d)))
            && (o.valid <==> q != [] || (!cfg.threadPut && !cfg.syncValid && WantsPut(d)))
            && (o.push <==> o.ready && d.put.TryPut? && d.put.mask)
            && (o.pop <==> o.valid && d.get.TryGet? && d.get.enable)
            && (o.valid ==> o.shown == Some(if q != [] then q[0] else d.put.data))
  {
  }

  ghost predicate PutAndGet<T>(ds: seq<Demand<T>>) {
    forall i :: 0 <= i < |ds| ==> WantsPut(ds[i]) && WantsGet(ds[i])
  }

  /** A full queue whose user puts and gets in every cycle accepts in every cycle and stays full, if and
      only if the getting side is a method and ready is not registered. */
  lemma {:induction false} StaysFullIff<T>(cfg: Config, length: nat, q: seq<T>, ds: seq<Demand<T>>)
    requires 0 < length == |q| && ds != [] && PutAndGet(ds)
    ensures |Accepted(ds, Run(cfg, length, q, ds))| == |ds| && |Left(cfg, length, q, ds)| == length
            <==> !cfg.threadGet && !cfg.syncReady
    decreases |ds|
  {
    assert WantsPut(ds[0]) && WantsGet(ds[0]);
    var o := Resolve(cfg, length, q, ds[0]);
    if o.push {
      if ds[1..] != [] { StaysFullIff(cfg, length, After(q, ds[0], o), ds[1..]); }
    } else {
      AtMostOneEach(cfg, length, After(q, ds[0], o), ds[1..]);
    }
  }

  lemma {:induction false} AtMostOneEach<T>(cfg: Config, length: nat, q: seq<T>, ds: seq<Demand<T>>)
    requires 0 < length
    ensures |Accepted(ds, Run(cfg, length, q, ds))| <= |ds|
    decreases |ds|
  {
    if ds != [] { AtMostOneEach(cfg, length, After(q, ds[0], Resolve(cfg, length, q, ds[0])), ds[1..]); }
  }
}
