/** A target with a FIFO attached: the FIFO takes from the handshake what it has room for, and the
    two make one longer queue. */
module TargetFifo {
  import opened QueueChannel
  import L = LinkChannel
  import F = LaggingChannel
  import LagTheorems

  datatype State<+T> = State(link: L.State<T>, fifo: F.State<T>)

  ghost predicate Possible<T>(ends: L.Ends, cfg: Config, length: nat, s: State<T>) {
    0 < length && !cfg.threadPut && L.Possible(ends, s.link) && F.Possible(cfg, length, s.fifo)
  }

  /** The FIFO's contents are older than anything still in the handshake. */
  function Queue<T>(s: State<T>): seq<T> {
    F.Queue(s.fifo) + L.Queue(s.link)
  }

  /** What the FIFO is asked in a cycle: to store the head of the handshake, if there is one. */
  function FifoDemand<T>(ends: L.Ends, s: L.State<T>, d: Demand<T>): Demand<T> {
    var head := L.Head(ends, s, d);
    Demand(if head != [] then TryPut(head[0], true) else ClearPut, d.get)
  }

  /** The initiator sees the handshake's ready flag, the getting side the FIFO's outputs. */
  function Resolve<T>(ends: L.Ends, cfg: Config, length: nat, s: State<T>, d: Demand<T>): Outcome<T>
    requires Possible(ends, cfg, length, s)
  {
    var fo := F.Resolve(cfg, length, s.fifo, FifoDemand(ends, s.link, d));
    Outcome(L.Ready(s.link), fo.valid, L.Pushed(s.link, d) != [], fo.pop, fo.shown)
  }

  /** The handshake gives up its head exactly when the FIFO accepts it. */
  function After<T>(ends: L.Ends, cfg: Config, length: nat, s: State<T>, d: Demand<T>): (s': State<T>)
    requires Possible(ends, cfg, length, s)
    ensures Possible(ends, cfg, length, s')
  {
    var fd := FifoDemand(ends, s.link, d);
    State(L.After(ends, s.link, d, F.Resolve(cfg, length, s.fifo, fd).push), F.After(cfg, length, s.fifo, fd))
  }

  /** A cycle of each part is a cycle of the whole. */
  lemma Compose<T>(ends: L.Ends, cfg: Config, length: nat, s: State<T>, d: Demand<T>, fo: Outcome<T>, s': State<T>, o: Outcome<T>)
    requires Possible(ends, cfg, length, s) && fo == F.Resolve(cfg, length, s.fifo, FifoDemand(ends, s.link, d))
    requires s'.link == L.After(ends, s.link, d, fo.push)
    requires s'.fifo == F.After(cfg, length, s.fifo, FifoDemand(ends, s.link, d))
    requires o == Outcome(L.Ready(s.link), fo.valid, L.Ready(s.link) && WantsPut(d), fo.pop, fo.shown)
    ensures o == Resolve(ends, cfg, length, s, d) && s' == After(ends, cfg, length, s, d)
  {
  }

  /** Handing elements from one queue to the next leaves their concatenation alone, also when one is
      put into the second and one is taken out of the first at the same time. */
  lemma HandOver<T>(f: seq<T>, l: seq<T>, put: seq<T>, moved: nat, popped: nat, f': seq<T>, l': seq<T>)
    requires moved <= |l + put| && popped <= |f| + moved
    requires f' == (f + (l + put)[..moved])[popped..] && l' == (l + put)[moved..]
    ensures f' + l' == (f + l + put)[popped..]
    ensures 0 < popped ==> f + l + put != [] && (f + l + put)[0] == (f + (l + put)[..moved])[0]
  {
    assert f + l + put == f + (l + put)[..moved] + (l + put)[moved..];
  }

  /** The FIFO moves as many elements as it accepts from the head of the handshake. */
  lemma PartsStep<T>(ends: L.Ends, cfg: Config, length: nat, s: State<T>, d: Demand<T>, fo: Outcome<T>)
    requires Possible(ends, cfg, length, s) && fo == F.Resolve(cfg, length, s.fifo, FifoDemand(ends, s.link, d))
    ensures var s', all := After(ends, cfg, length, s, d), L.Queue(s.link) + L.Pushed(s.link, d);
            var moved, popped := if fo.push then 1 else 0, if fo.pop then 1 else 0;
            && moved <= |all| && popped <= |F.Queue(s.fifo)| + moved
            && F.Queue(s'.fifo) == (F.Queue(s.fifo) + all[..moved])[popped..] && L.Queue(s'.link) == all[moved..]
            && (fo.pop ==> fo.shown == Some((F.Queue(s.fifo) + all[..moved])[0]))
  {
    var fd := FifoDemand(ends, s.link, d);
    var all := L.Queue(s.link) + L.Pushed(s.link, d);
    LagTheorems.QueueStep(cfg, length, s.fifo, fd);
    L.QueueStep(ends, s.link, d, fo.push);
    assert fo.push ==> all[..1] == Offered(fd);
  }

  /** In every cycle, whether the FIFO accepts or refuses: the whole queue loses its head exactly
      when it is taken and gains the offered element exactly when the initiator may put it. */
  lemma OneQueue<T>(ends: L.Ends, cfg: Config, length: nat, s: State<T>, d: Demand<T>)
    requires Possible(ends, cfg, length, s)
    ensures var o := Resolve(ends, cfg, length, s, d);
            && Queue(After(ends, cfg, length, s, d)) == (Queue(s) + L.Pushed(s.link, d))[(if o.pop then 1 else 0)..]
            && (o.pop ==> Queue(s) + L.Pushed(s.link, d) != []
                          && o.shown == Some((Queue(s) + L.Pushed(s.link, d))[0]))
  {
    var fo := F.Resolve(cfg, length, s.fifo, FifoDemand(ends, s.link, d));
    var s' := After(ends, cfg, length, s, d);
    PartsStep(ends, cfg, length, s, d, fo);
    HandOver(F.Queue(s.fifo), L.Queue(s.link), L.Pushed(s.link, d), if fo.push then 1 else 0, if fo.pop then 1 else 0,
             F.Queue(s'.fifo), L.Queue(s'.link));
  }

  /** The whole never holds more than the FIFO's slots and the handshake's registers. */
  lemma Bounded<T>(ends: L.Ends, cfg: Config, length: nat, s: State<T>)
    requires Possible(ends, cfg, length, s)
    ensures |Queue(s)| <= length + L.Capacity(ends)
  {
  }

  function Run<T>(ends: L.Ends, cfg: Config, length: nat, s: State<T>, ds: seq<Demand<T>>): (os: seq<Outcome<T>>)
    requires Possible(ends, cfg, length, s)
    ensures |os| == |ds|
    decreases |ds|
  {
    if ds == [] then [] else
      [Resolve(ends, cfg, length, s, ds[0])] + Run(ends, cfg, length, After(ends, cfg, length, s, ds[0]), ds[1..])
  }

  function Left<T>(ends: L.Ends, cfg: Config, length: nat, s: State<T>, ds: seq<Demand<T>>): (s': State<T>)
    requires Possible(ends, cfg, length, s)
    ensures Possible(ends, cfg, length, s')
    decreases |ds|
  {
    if ds == [] then s else Left(ends, cfg, length, After(ends, cfg, length, s, ds[0]), ds[1..])
  }

  lemma StepConserves<T>(ends: L.Ends, cfg: Config, length: nat, s: State<T>, d: Demand<T>)
    requires Possible(ends, cfg, length, s)
    ensures var o := Resolve(ends, cfg, length, s, d);
            && (o.pop ==> o.shown.Some?)
            && Queue(s) + (if o.push then Offered(d) else [])
               == (if o.pop then [o.shown.value] else []) + Queue(After(ends, cfg, length, s, d))
  {
    OneQueue(ends, cfg, length, s, d);
    var o := Resolve(ends, cfg, length, s, d);
    var all := Queue(s) + L.Pushed(s.link, d);
    assert o.pop ==> all == [all[0]] + all[1..];
  }

  /** Over every run: what is taken from the FIFO is what was put into the initiator, in order and
      exactly once; and no more is held than the FIFO and the handshake have slots. */
  lemma {:induction false} ConservedInOrder<T>(ends: L.Ends, cfg: Config, length: nat, s: State<T>, ds: seq<Demand<T>>)
    requires Possible(ends, cfg, length, s)
    ensures var os := Run(ends, cfg, length, s, ds);
            Queue(s) + Accepted(ds, os) == Taken(os) + Queue(Left(ends, cfg, length, s, ds))
    ensures |Queue(Left(ends, cfg, length, s, ds))| <= length + L.Capacity(ends)
    decreases |ds|
  {
    if ds == [] {
      Bounded(ends, cfg, length, s);
    } else {
      var s' := After(ends, cfg, length, s, ds[0]);
      StepConserves(ends, cfg, length, s, ds[0]);
      ConservedInOrder(ends, cfg, length, s', ds[1..]);
      JoinRuns(Resolve(ends, cfg, length, s, ds[0]), Run(ends, cfg, length, s', ds[1..]), ds,
               Queue(s), Queue(s'), Queue(Left(ends, cfg, length, s', ds[1..])));
    }
  }

  /** There is room in the FIFO: for the elements it has and the one whose get is pending, or because a
      get makes room in time. */
  predicate HasRoom<T>(cfg: Config, length: nat, s: State<T>, gets: bool) {
    || |s.fifo.visible| + (if s.fifo.taken then 1 else 0) < length
    || (!cfg.syncReady && (if cfg.threadGet then s.fifo.taken else gets && s.fifo.visible != []))
  }

  /** The same sequence, or without its first element. */
  predicate AtMostOneOff<T(==)>(q: seq<T>, q': seq<T>) {
    q' == q || (q != [] && q' == q[1..])
  }

  /** In any cycle in which the FIFO has room, the handshake loses the head it shows, kept or just sent,
      and the FIFO gains it; without room the head is kept and the FIFO gains nothing. */
  lemma HeadMovesIff<T>(ends: L.Ends, cfg: Config, length: nat, s: State<T>, d: Demand<T>)
    requires Possible(ends, cfg, length, s)
    ensures var s', all, head := After(ends, cfg, length, s, d), L.Queue(s.link) + L.Pushed(s.link, d), L.Head(ends, s.link, d);
            var moved := if HasRoom(cfg, length, s, WantsGet(d)) then head else [];
            && s'.link.kept == (if moved != [] then [] else head)
            && |head| <= |all| && L.Queue(s'.link) == all[|moved|..]
            && AtMostOneOff(F.Queue(s.fifo) + moved, F.Queue(s'.fifo))
  {
    var fo := F.Resolve(cfg, length, s.fifo, FifoDemand(ends, s.link, d));
    PartsStep(ends, cfg, length, s, d, fo);
    L.QueueStep(ends, s.link, d, fo.push);
    var head := L.Head(ends, s.link, d);
    assert fo.push <==> head != [] && HasRoom(cfg, length, s, WantsGet(d));
    assert |head| <= 1 && head <= L.Queue(s.link) + L.Pushed(s.link, d);
    assert fo.push ==> (L.Queue(s.link) + L.Pushed(s.link, d))[..1] == head;
    assert After(ends, cfg, length, s, d).link.kept == head[(if fo.push then 1 else 0)..];
  }
}
