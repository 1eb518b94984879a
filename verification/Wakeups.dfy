/** When the approximate-time FIFO wakes a process, and why that is enough. A thread is woken for the
    next tick, a method for the next delta cycle. */
module Wakeups {
  import opened QueueChannel
  import L = LaggingChannel

  /** The get that this cycle carries out: a thread's pending one, or the one of a method. */
  predicate CarriesGet<T>(cfg: Config, s: L.State<T>, o: Outcome<T>) {
    if cfg.threadGet then s.taken else o.pop
  }

  predicate CarriesPut<T>(cfg: Config, s: L.State<T>, o: Outcome<T>) {
    if cfg.threadPut then s.coming != [] else o.push
  }

  /** A cycle that wakes the putting process: it has just put; or a get of a thread freed a slot of a
      channel without room, or any slot where the element number is used; or a get is carried out,
      which a thread with an asynchronous ready has been told before. */
  predicate WakesPut<T>(cfg: Config, useElemNum: bool, length: nat, s: L.State<T>, o: Outcome<T>) {
    || o.push
    || (cfg.threadGet && o.pop && !cfg.syncReady && (useElemNum || L.Occupied(s) + |s.coming| == length))
    || (CarriesGet(cfg, s, o) && (cfg.syncReady || !cfg.threadPut))
  }

  /** A cycle that wakes the getting process: it has just got; or a put of a thread was made to a
      channel that showed nothing, or to any where the element number is used; or a put is carried out. */
  predicate WakesGet<T>(cfg: Config, useElemNum: bool, s: L.State<T>, o: Outcome<T>) {
    || o.pop
    || (cfg.threadPut && o.push && !cfg.syncValid && (useElemNum || s.visible == []))
    || (CarriesPut(cfg, s, o) && (cfg.syncValid || !cfg.threadGet))
  }

  /** Two methods that see each other's requests. */
  predicate Looped(cfg: Config) {
    !cfg.threadPut && !cfg.threadGet && !cfg.syncValid && !cfg.syncReady
  }

  /** The delta cycles of a clock cycle with this demand come to rest. */
  predicate Rests<T>(cfg: Config, useElemNum: bool, d: Demand<T>) {
    !(Looped(cfg) && useElemNum && WantsPut(d) && WantsGet(d))
  }

  /** A process that tries whenever it is woken is never left asleep while it could act: if the
      channel is ready after a cycle, that cycle has woken it. The other side may do anything. */
  lemma PutterIsWoken<T>(cfg: Config, useElemNum: bool, length: nat, s: L.State<T>, d: Demand<T>)
    requires 0 < length && L.Possible(cfg, length, s) && WantsPut(d)
    ensures L.Ready(cfg, length, L.After(cfg, length, s, d), false)
            ==> WakesPut(cfg, useElemNum, length, s, L.Resolve(cfg, length, s, d))
  {
    var s' := L.After(cfg, length, s, d);
    assert cfg.threadGet ==> L.Occupied(s') <= |s.visible| + |s.coming| + 1;
  }

  lemma GetterIsWoken<T>(cfg: Config, useElemNum: bool, length: nat, s: L.State<T>, d: Demand<T>)
    requires 0 < length && L.Possible(cfg, length, s) && WantsGet(d)
    ensures L.Valid(cfg, L.After(cfg, length, s, d), false)
            ==> WakesGet(cfg, useElemNum, s, L.Resolve(cfg, length, s, d))
  {
    var o, s' := L.Resolve(cfg, length, s, d), L.After(cfg, length, s, d);
    assert cfg.threadPut && !o.pop ==> s'.visible == s.visible + s.coming;
  }

  /** What keeps the putting thread from sleeping in front of a channel that is ready after a cycle,
      by what it sees at the start of the cycle. Facing a thread: it tries; or there is nothing to
      try for; or a pending get wakes it; or a get does that follows a pending one in a channel
      without room, or any get where the element number is used. Facing a method: it tries; or the
      get of the method wakes it; or there is none and nothing to try for. */
  predicate PutterKept<T>(cfg: Config, useElemNum: bool, length: nat, s: L.State<T>, d: Demand<T>, o: Outcome<T>) {
    if cfg.threadGet then
      || WantsPut(d) || !L.Ready(cfg, length, s, false) || (s.taken && cfg.syncReady)
      || (o.pop && !cfg.syncReady && (useElemNum || (s.taken && L.Occupied(s) + |s.coming| == length)))
    else
      WantsPut(d) || (o.pop && cfg.syncReady) || (!o.pop && !L.Ready(cfg, length, s, false))
  }

  predicate GetterKept<T>(cfg: Config, useElemNum: bool, s: L.State<T>, d: Demand<T>, o: Outcome<T>) {
    if cfg.threadPut then
      || WantsGet(d) || !L.Valid(cfg, s, false) || (s.coming != [] && cfg.syncValid)
      || (o.push && !cfg.syncValid && (useElemNum || (s.coming != [] && s.visible == [])))
    else
      WantsGet(d) || (o.push && cfg.syncValid) || (!o.push && !L.Valid(cfg, s, false))
  }

  /** Exactly when a channel that is ready after a cycle has its putting thread woken, whatever the
      kind of the other side and whatever either does. */
  lemma PutterWokenIff<T>(cfg: Config, useElemNum: bool, length: nat, s: L.State<T>, d: Demand<T>)
    requires 0 < length && cfg.threadPut && L.Possible(cfg, length, s)
    ensures var o := L.Resolve(cfg, length, s, d);
            (L.Ready(cfg, length, L.After(cfg, length, s, d), false) ==> WakesPut(cfg, useElemNum, length, s, o))
            <==> PutterKept(cfg, useElemNum, length, s, d, o)
  {
    var s' := L.After(cfg, length, s, d);
    assert cfg.threadGet ==> L.Occupied(s') == |s.visible| + |s.coming|;
  }

  lemma GetterWokenIff<T>(cfg: Config, useElemNum: bool, length: nat, s: L.State<T>, d: Demand<T>)
    requires 0 < length && cfg.threadGet && L.Possible(cfg, length, s)
    ensures var o := L.Resolve(cfg, length, s, d);
            (L.Valid(cfg, L.After(cfg, length, s, d), false) ==> WakesGet(cfg, useElemNum, s, o))
            <==> GetterKept(cfg, useElemNum, s, d, o)
  {
    var o, s' := L.Resolve(cfg, length, s, d), L.After(cfg, length, s, d);
    assert cfg.threadPut && !o.pop ==> s'.visible == s.visible + s.coming;
  }

  /** So with no request of the other side pending or made, a ready channel keeps its putting thread
      awake exactly if the thread tries: one that passes it up sleeps, and the channel stays ready. */
  lemma PutterWokenIffTries<T>(cfg: Config, useElemNum: bool, length: nat, s: L.State<T>, d: Demand<T>)
    requires 0 < length && cfg.threadPut && L.Possible(cfg, length, s)
    requires L.Ready(cfg, length, s, false) && !s.taken
    requires (cfg.threadGet && !useElemNum) || !L.Resolve(cfg, length, s, d).pop
    ensures (L.Ready(cfg, length, L.After(cfg, length, s, d), false)
             ==> WakesPut(cfg, useElemNum, length, s, L.Resolve(cfg, length, s, d))) <==> WantsPut(d)
  {
    PutterWokenIff(cfg, useElemNum, length, s, d);
  }

  lemma GetterWokenIffTries<T>(cfg: Config, useElemNum: bool, length: nat, s: L.State<T>, d: Demand<T>)
    requires 0 < length && cfg.threadGet && L.Possible(cfg, length, s)
    requires L.Valid(cfg, s, false) && s.coming == []
    requires (cfg.threadPut && !useElemNum) || !L.Resolve(cfg, length, s, d).push
    ensures (L.Valid(cfg, L.After(cfg, length, s, d), false)
             ==> WakesGet(cfg, useElemNum, s, L.Resolve(cfg, length, s, d))) <==> WantsGet(d)
  {
    GetterWokenIff(cfg, useElemNum, length, s, d);
  }
}
