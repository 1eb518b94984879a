/** What the thread buffers promise: a queue whose puts and gets are collected during a delta cycle
    and committed together by `Update`. Each side either collects any number of requests (multi)
    or only one, a later request replacing an earlier one. */
module BufferQueue {
  import opened QueueChannel

  datatype Mode = Mode(multiPut: bool, multiGet: bool)

  /** The committed elements, how many of them are requested, and the elements put. */
  datatype State<T> = State(stored: seq<T>, gets: nat, puts: seq<T>)

  function Empty<T>(): State<T> {
    State([], 0, [])
  }

  ghost predicate Valid<T>(m: Mode, size: nat, s: State<T>) {
    && s.gets <= |s.stored| && |s.stored| + |s.puts| <= size
    && (!m.multiPut ==> |s.puts| <= 1) && (!m.multiGet ==> s.gets <= 1)
  }

  predicate CanPut<T>(m: Mode, size: nat, s: State<T>) {
    size - |s.stored| > if m.multiPut then |s.puts| else 0
  }

  predicate CanGet<T>(m: Mode, s: State<T>) {
    |s.stored| > if m.multiGet then s.gets else 0
  }

  /** The element a get returns. */
  function Head<T>(m: Mode, s: State<T>): T
    requires CanGet(m, s)
  {
    s.stored[if m.multiGet then s.gets else 0]
  }

  datatype Op<T> = Get(enable: bool) | Put(data: T, mask: bool) | ClearGet | ClearPut | Update

  /** The library has no clear for a side with multiple requests: it stops there. */
  predicate Allowed<T>(m: Mode, op: Op<T>) {
    (op.ClearGet? ==> !m.multiGet) && (op.ClearPut? ==> !m.multiPut)
  }

  predicate Takes<T>(m: Mode, s: State<T>, op: Op<T>) {
    op.Get? && op.enable && CanGet(m, s)
  }

  predicate Accepts<T>(m: Mode, size: nat, s: State<T>, op: Op<T>) {
    op.Put? && op.mask && CanPut(m, size, s)
  }

  function Committed<T>(s: State<T>): State<T>
    requires s.gets <= |s.stored|
  {
    State(s.stored[s.gets..] + s.puts, 0, [])
  }

  function Step<T>(m: Mode, size: nat, s: State<T>, op: Op<T>): (s': State<T>)
    requires Valid(m, size, s)
    ensures Valid(m, size, s')
  {
    match op
    case Get(_) => if Takes(m, s, op) then s.(gets := if m.multiGet then s.gets + 1 else 1) else s
    case Put(x, _) => if Accepts(m, size, s, op) then s.(puts := if m.multiPut then s.puts + [x] else [x]) else s
    case ClearGet => s.(gets := 0)
    case ClearPut => s.(puts := [])
    case Update => Committed(s)
  }

  /** What a buffer holds once its pending requests are committed. */
  function View<T>(m: Mode, size: nat, s: State<T>): seq<T>
    requires Valid(m, size, s)
  {
    Committed(s).stored
  }

  function In<T>(m: Mode, size: nat, s: State<T>, op: Op<T>): seq<T> {
    if Accepts(m, size, s, op) then [op.data] else []
  }

  function Out<T>(m: Mode, s: State<T>, op: Op<T>): seq<T> {
    if Takes(m, s, op) then [Head(m, s)] else []
  }

  /** The step throws away a pending request: a clear, or a second request of a single side. */
  predicate Discards<T>(m: Mode, size: nat, s: State<T>, op: Op<T>) {
    || (Accepts(m, size, s, op) && !m.multiPut && s.puts != [])
    || (Takes(m, s, op) && !m.multiGet && s.gets != 0)
    || (op.ClearPut? && s.puts != [])
    || (op.ClearGet? && s.gets != 0)
  }

  /** A step keeps every element exactly once and in order, unless and only unless it throws a
      pending request away. */
  lemma StepConservesIff<T>(m: Mode, size: nat, s: State<T>, op: Op<T>)
    requires Valid(m, size, s)
    ensures View(m, size, s) + In(m, size, s, op) == Out(m, s, op) + View(m, size, Step(m, size, s, op))
            <==> !Discards(m, size, s, op)
  {
    var s' := Step(m, size, s, op);
    if Accepts(m, size, s, op) {
      assert m.multiPut ==> s.stored[s.gets..] + s.puts + [op.data] == s.stored[s.gets..] + (s.puts + [op.data]);
      assert |View(m, size, s')| == |s.stored| - s.gets + |s'.puts|;
    } else if Takes(m, s, op) {
      assert m.multiGet || s.gets == 0 ==> s.stored[s.gets..] == [s.stored[s.gets]] + s.stored[s.gets + 1..];
      assert |View(m, size, s')| == |s.stored| - s'.gets + |s.puts|;
    } else if op.Update? {
      assert View(m, size, s') == View(m, size, s);
    } else {
      assert |View(m, size, s')| == |s.stored| - s'.gets + |s'.puts|;
    }
  }

  function Left<T>(m: Mode, size: nat, s: State<T>, ops: seq<Op<T>>): (s': State<T>)
    requires Valid(m, size, s)
    ensures Valid(m, size, s')
    decreases |ops|
  {
    if ops == [] then s else Left(m, size, Step(m, size, s, ops[0]), ops[1..])
  }

  function Ins<T>(m: Mode, size: nat, s: State<T>, ops: seq<Op<T>>): seq<T>
    requires Valid(m, size, s)
    decreases |ops|
  {
    if ops == [] then [] else In(m, size, s, ops[0]) + Ins(m, size, Step(m, size, s, ops[0]), ops[1..])
  }

  function Outs<T>(m: Mode, size: nat, s: State<T>, ops: seq<Op<T>>): seq<T>
    requires Valid(m, size, s)
    decreases |ops|
  {
    if ops == [] then [] else Out(m, s, ops[0]) + Outs(m, size, Step(m, size, s, ops[0]), ops[1..])
  }

  /** No step of a run throws a pending request away. */
  ghost predicate Keeps<T>(m: Mode, size: nat, s: State<T>, ops: seq<Op<T>>)
    requires Valid(m, size, s)
    decreases |ops|
  {
    ops == [] || (!Discards(m, size, s, ops[0]) && Keeps(m, size, Step(m, size, s, ops[0]), ops[1..]))
  }

  /** Over such a run, however gets, puts and updates mix: exactly once and in order. */
  lemma {:induction false} RunConserves<T>(m: Mode, size: nat, s: State<T>, ops: seq<Op<T>>)
    requires Valid(m, size, s) && Keeps(m, size, s, ops)
    ensures View(m, size, s) + Ins(m, size, s, ops) == Outs(m, size, s, ops) + View(m, size, Left(m, size, s, ops))
    decreases |ops|
  {
    if ops != [] {
      var s' := Step(m, size, s, ops[0]);
      StepConservesIff(m, size, s, ops[0]);
      RunConserves(m, size, s', ops[1..]);
      Regroup(View(m, size, s), In(m, size, s, ops[0]), Ins(m, size, s', ops[1..]),
              Out(m, s, ops[0]), View(m, size, s'), Outs(m, size, s', ops[1..]), View(m, size, Left(m, size, s, ops)));
    }
  }

  /** With multiple requests on both sides every run is such a run. */
  lemma {:induction false} MultiKeeps<T>(size: nat, s: State<T>, ops: seq<Op<T>>)
    requires Valid(Mode(true, true), size, s)
    requires forall i :: 0 <= i < |ops| ==> Allowed(Mode(true, true), ops[i])
    ensures Keeps(Mode(true, true), size, s, ops)
    decreases |ops|
  {
    if ops != [] {
      assert Allowed(Mode(true, true), ops[0]);
      MultiKeeps(size, Step(Mode(true, true), size, s, ops[0]), ops[1..]);
    }
  }

  /** So such a buffer can be read as a queue that is updated at once: the only delay is that an
      element cannot be taken before it is committed. */
  lemma MultiIsQueue<T>(size: nat, ops: seq<Op<T>>)
    requires forall i :: 0 <= i < |ops| ==> Allowed(Mode(true, true), ops[i])
    ensures var m, start := Mode(true, true), Empty<T>();
            Outs(m, size, start, ops) <= Ins(m, size, start, ops)
  {
    var m, start := Mode(true, true), Empty<T>();
    MultiKeeps(size, start, ops);
    RunConserves(m, size, start, ops);
    assert View(m, size, start) == [];
    assert Ins(m, size, start, ops) == Outs(m, size, start, ops) + View(m, size, Left(m, size, start, ops));
  }

  function Least(a: int, b: int): int {
    if a < b then a else b
  }

  predicate AllGets<T>(ops: seq<Op<T>>) {
    forall k :: 0 <= k < |ops| ==> ops[k] == Get(true)
  }

  /** Gets of one delta cycle with multiple requests return the committed elements one after the other,
      as long as there are any, and nothing then. */
  lemma {:induction false} GetsReturn<T>(m: Mode, size: nat, s: State<T>, ops: seq<Op<T>>)
    requires Valid(m, size, s) && m.multiGet && AllGets(ops)
    ensures Outs(m, size, s, ops) == s.stored[s.gets..Least(s.gets + |ops|, |s.stored|)]
    ensures Left(m, size, s, ops) == s.(gets := Least(s.gets + |ops|, |s.stored|))
    decreases |ops|
  {
    if ops != [] {
      assert ops[0] == Op<T>.Get(true);
      GetsReturn(m, size, Step(m, size, s, ops[0]), ops[1..]);
    }
  }

  /** With single requests each of them returns the head again, which is removed once. */
  lemma {:induction false} SingleGetsReturn<T>(m: Mode, size: nat, s: State<T>, ops: seq<Op<T>>)
    requires Valid(m, size, s) && !m.multiGet && AllGets(ops)
    ensures |Outs(m, size, s, ops)| == (if s.stored == [] then 0 else |ops|)
    ensures forall k :: 0 <= k < |Outs(m, size, s, ops)| ==> s.stored != [] && Outs(m, size, s, ops)[k] == s.stored[0]
    ensures Left(m, size, s, ops) == if s.stored == [] || ops == [] then s else s.(gets := 1)
    decreases |ops|
  {
    if ops != [] {
      assert ops[0] == Op<T>.Get(true);
      SingleGetsReturn(m, size, Step(m, size, s, ops[0]), ops[1..]);
    }
  }

  /** The puts of these elements, none masked. */
  function PutsOf<T>(xs: seq<T>): (ops: seq<Op<T>>)
    ensures |ops| == |xs|
  {
    if xs == [] then [] else [Put(xs[0], true)] + PutsOf(xs[1..])
  }

  lemma {:induction false} FullAcceptsNone<T>(m: Mode, size: nat, s: State<T>, xs: seq<T>)
    requires Valid(m, size, s) && m.multiPut && |s.stored| + |s.puts| == size
    ensures Ins(m, size, s, PutsOf(xs)) == [] && Left(m, size, s, PutsOf(xs)) == s
    decreases |xs|
  {
    if xs != [] { FullAcceptsNone(m, size, s, xs[1..]); }
  }

  lemma TakeFirst<T>(xs: seq<T>, n: nat, puts: seq<T>)
    requires 0 < n <= |xs|
    ensures xs[..n] == [xs[0]] + xs[1..][..n - 1] && puts + xs[..n] == puts + [xs[0]] + xs[1..][..n - 1]
  {
    assert xs[..n] == [xs[0]] + xs[1..][..n - 1];
  }

  /** Puts of one delta cycle with multiple requests are accepted exactly while the committed elements and
      those put are fewer than the size. */
  lemma {:induction false} PutsAccepted<T>(m: Mode, size: nat, s: State<T>, xs: seq<T>)
    requires Valid(m, size, s) && m.multiPut
    ensures var n := Least(|xs|, size - |s.stored| - |s.puts|);
            Ins(m, size, s, PutsOf(xs)) == xs[..n] && Left(m, size, s, PutsOf(xs)) == s.(puts := s.puts + xs[..n])
    decreases |xs|
  {
    var n := Least(|xs|, size - |s.stored| - |s.puts|);
    if n == 0 {
      assert xs[..0] == [] && s.puts + [] == s.puts;
      if xs != [] { FullAcceptsNone(m, size, s, xs); }
    } else {
      TakeFirst(xs, n, s.puts);
      PutsAccepted(m, size, s.(puts := s.puts + [xs[0]]), xs[1..]);
    }
  }

  /** With single requests all of them are accepted where a slot is left, and the last one stays. */
  lemma {:induction false} SinglePutsAccepted<T>(m: Mode, size: nat, s: State<T>, xs: seq<T>)
    requires Valid(m, size, s) && !m.multiPut
    ensures Ins(m, size, s, PutsOf(xs)) == if |s.stored| < size then xs else []
    ensures Left(m, size, s, PutsOf(xs)) == if |s.stored| < size && xs != [] then s.(puts := [xs[|xs| - 1]]) else s
    decreases |xs|
  {
    if xs != [] {
      SinglePutsAccepted(m, size, Step(m, size, s, PutsOf(xs)[0]), xs[1..]);
    }
  }

  /** A masked put or a disabled get does nothing. */
  lemma Disabled<T>(m: Mode, size: nat, s: State<T>, x: T)
    requires Valid(m, size, s)
    ensures Step(m, size, s, Put(x, false)) == s && In(m, size, s, Put(x, false)) == []
    ensures Step(m, size, s, Get(false)) == s && Out(m, s, Get(false)) == []
  {
  }

  /** After an update the queue is without the requested elements and with those put, all of them for
      the next delta cycle. */
  lemma UpdateCommits<T>(m: Mode, size: nat, s: State<T>)
    requires Valid(m, size, s)
    ensures var s' := Step(m, size, s, Update);
            s'.stored == s.stored[s.gets..] + s.puts && s'.gets == 0 && s'.puts == []
  {
  }
}
