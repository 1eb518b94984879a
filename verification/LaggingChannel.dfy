/** The queue channel as a simulation sees it: requests from threads are carried out one clock
    edge late, so each side sees the queue with only its own part of the pending requests. */
module LaggingChannel {
  import opened QueueChannel

  /** What the getting side sees, the element of a pending thread put, and whether a thread get
      is pending (its element is gone from `visible` but still occupies a slot). */
  datatype State<+T> = State(visible: seq<T>, coming: seq<T>, taken: bool)

  function Occupied<T>(s: State<T>): nat {
    |s.visible| + if s.taken then 1 else 0
  }

  /** The true queue: both pending requests carried out. */
  function Queue<T>(s: State<T>): seq<T> {
    s.visible + s.coming
  }

  ghost predicate Possible<T>(cfg: Config, length: nat, s: State<T>) {
    && |s.coming| <= 1
    && (s.coming != [] ==> cfg.threadPut && Occupied(s) < length)
    && (s.taken ==> cfg.threadGet)
    && Occupied(s) <= length
  }

  predicate Valid<T>(cfg: Config, s: State<T>, push: bool) {
    s.visible != [] || (!cfg.syncValid && if cfg.threadPut then s.coming != [] else push)
  }

  predicate Ready<T>(cfg: Config, length: nat, s: State<T>, pop: bool) {
    Occupied(s) + |s.coming| < length || (!cfg.syncReady && if cfg.threadGet then s.taken else pop)
  }

  /** The combinational network of one cycle is settled. */
  ghost predicate Settled<T>(cfg: Config, length: nat, s: State<T>, d: Demand<T>, o: Outcome<T>) {
    && o.ready == Ready(cfg, length, s, o.pop)
    && o.valid == Valid(cfg, s, o.push)
    && o.push == (o.ready && WantsPut(d))
    && o.pop == (o.valid && WantsGet(d))
    && (o.valid ==> Queue(s) + Offered(d) != [] && o.shown == Some((Queue(s) + Offered(d))[0]))
    && (!o.valid ==> o.shown == None)
  }

  function Resolve<T>(cfg: Config, length: nat, s: State<T>, d: Demand<T>): (o: Outcome<T>)
    requires 0 < length && Possible(cfg, length, s)
    ensures Settled(cfg, length, s, d, o)
  {
    if cfg.threadGet || Ready(cfg, length, s, false) then
      var ready := Ready(cfg, length, s, false);
      var push := ready && WantsPut(d);
      var valid := Valid(cfg, s, push);
      Outcome(ready, valid, push, valid && WantsGet(d),
              if valid then Some((Queue(s) + Offered(d))[0]) else None)
    else
      // no room without the pop, so there is something to pop unless only a put is pending
      var valid := Valid(cfg, s, false);
      var pop := valid && WantsGet(d);
      var ready := Ready(cfg, length, s, pop);
      Outcome(ready, valid, ready && WantsPut(d), pop,
              if valid then Some((Queue(s) + Offered(d))[0]) else None)
  }

  lemma SettledIsUnique<T>(cfg: Config, length: nat, s: State<T>, d: Demand<T>, o: Outcome<T>)
    requires 0 < length && Possible(cfg, length, s) && Settled(cfg, length, s, d, o)
    ensures o == Resolve(cfg, length, s, d)
  {
  }

  /** What the ring holds after a clock edge: pending thread requests and settled method requests
      are carried out. */
  function RingAfter<T>(cfg: Config, s: State<T>, d: Demand<T>, o: Outcome<T>): (ring: seq<T>)
    requires o.pop && !cfg.threadGet ==> s.visible != [] || s.coming != [] || (o.push && !cfg.threadPut && WantsPut(d))
  {
    (Queue(s) + if o.push && !cfg.threadPut then Offered(d) else [])[(if o.pop && !cfg.threadGet then 1 else 0)..]
  }

  /** The settled requests of threads become pending. */
  function Pend<T>(cfg: Config, ring: seq<T>, d: Demand<T>, o: Outcome<T>): State<T>
    requires o.pop && cfg.threadGet ==> ring != []
  {
    var taken := o.pop && cfg.threadGet;
    State(if taken then ring[1..] else ring, if o.push && cfg.threadPut then Offered(d) else [], taken)
  }

  /** The state after the clock edge. */
  function After<T>(cfg: Config, length: nat, s: State<T>, d: Demand<T>): (s': State<T>)
    requires 0 < length && Possible(cfg, length, s)
    ensures Possible(cfg, length, s')
  {
    var o := Resolve(cfg, length, s, d);
    Pend(cfg, RingAfter(cfg, s, d, o), d, o)
  }

  function Run<T>(cfg: Config, length: nat, s: State<T>, ds: seq<Demand<T>>): (os: seq<Outcome<T>>)
    requires 0 < length && Possible(cfg, length, s)
    ensures |os| == |ds|
    decreases |ds|
  {
    if ds == [] then [] else
      [Resolve(cfg, length, s, ds[0])] + Run(cfg, length, After(cfg, length, s, ds[0]), ds[1..])
  }

  function Left<T>(cfg: Config, length: nat, s: State<T>, ds: seq<Demand<T>>): (s': State<T>)
    requires 0 < length && Possible(cfg, length, s)
    ensures Possible(cfg, length, s')
    decreases |ds|
  {
    if ds == [] then s else Left(cfg, length, After(cfg, length, s, ds[0]), ds[1..])
  }

  /** The flags by what is stored and pending: a thread sees the pending request of the other side at
      once through a flag that is not registered, a method the other method's one. */
  lemma FlagsByDemand<T>(cfg: Config, length: nat, s: State<T>, d: Demand<T>)
    requires 0 < length && Possible(cfg, length, s)
    ensures var o := Resolve(cfg, length, s, d);
            var shows := s.visible != [] || (!cfg.syncValid && cfg.threadPut && s.coming != []);
            var free := |s.visible| + (if s.taken then 1 else 0) + |s.coming| < length || (!cfg.syncReady && s.taken);
            && (o.valid <==> shows || (!cfg.syncValid && !cfg.threadPut && WantsPut(d) && free))
            && (o.ready <==> free || (!cfg.syncReady && !cfg.threadGet && WantsGet(d) && shows))
            && (o.push <==> o.ready && WantsPut(d)) && (o.pop <==> o.valid && WantsGet(d))
  {
  }
}
