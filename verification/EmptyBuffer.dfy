/** What a get from an empty buffer returns. The comment beside it promises the last data; the code
    returns the slot at the pop index. */
module EmptyBuffer {
  import opened Ring
  import opened BufferQueue
  import opened Buffer
  import Q = QueueChannel

  const SINGLE := Mode(false, false)

  /** The last `size` elements written since construction, the oldest first; before them the slots
      hold what they were created with. */
  function Recent<T>(zero: T, size: nat, written: seq<T>): (r: seq<T>)
    ensures |r| == size
  {
    (seq(size, _ => zero) + written)[|written|..]
  }

  /** The slot at the push index: the last element put into it since the index came there, taken back or
      not; without one the element written `size` elements ago, or the initial value. */
  function Shown<T>(zero: T, size: nat, written: seq<T>, stray: Q.Option<T>): (x: T)
    requires 0 < size
    ensures stray == Q.None ==> x == Recent(zero, size, written)[0]
  {
    match stray
    case Some(y) => y
    case None => if |written| < size then zero else written[|written| - size]
  }

  /** Read from the push index on, the slots hold the last elements written; the element put last has
      already replaced the oldest of them. */
  ghost predicate Remembers<T>(slots: seq<T>, push: nat, s: State<T>, zero: T, written: seq<T>, stray: Q.Option<T>) {
    && push < |slots|
    && slots[push] == Shown(zero, |slots|, written, stray)
    && Contents(slots, push, |slots|)[1..] == Recent(zero, |slots|, written)[1..]
    && (s.puts != [] ==> stray == Q.Some(s.puts[0]))
  }

  /** A slot behind the elements read does not matter. */
  lemma {:induction false} WriteBehind<T>(slots: seq<T>, start: nat, count: nat, distance: nat, x: T)
    requires start < |slots| && count <= distance < |slots|
    ensures Contents(slots[Wrap(start + distance, |slots|) := x], start, count) == Contents(slots, start, count)
    decreases count
  {
    if count != 0 {
      assert Wrap(Next(start, |slots|) + (distance - 1), |slots|) == Wrap(start + distance, |slots|);
      WriteBehind(slots, Next(start, |slots|), count - 1, distance - 1, x);
    }
  }

  /** Writing the slot at the push index leaves the younger elements alone. */
  lemma WriteOldest<T>(slots: seq<T>, push: nat, x: T)
    requires push < |slots|
    ensures Contents(slots[push := x], push, |slots|)[1..] == Contents(slots, push, |slots|)[1..]
  {
    var next := Next(push, |slots|);
    WriteBehind(slots, next, |slots| - 1, |slots| - 1, x);
    assert Wrap(next + (|slots| - 1), |slots|) == push;
  }

  lemma {:induction false} LastOfContents<T>(slots: seq<T>, start: nat, count: nat)
    requires start < |slots| && count < |slots|
    ensures Contents(slots, start, count + 1) == Contents(slots, start, count) + [slots[Wrap(start + count, |slots|)]]
    decreases count
  {
    if count != 0 {
      LastOfContents(slots, Next(start, |slots|), count - 1);
      assert Wrap(Next(start, |slots|) + (count - 1), |slots|) == Wrap(start + count, |slots|);
    }
  }

  lemma Around(push: nat, n: nat)
    requires push < n
    ensures Wrap(Next(push, n) + (n - 1), n) == push
  {
  }

  lemma TailOfContents<T>(slots: seq<T>, start: nat, count: nat)
    requires start < |slots| && 0 < count
    ensures Contents(slots, start, count)[1..] == Contents(slots, Next(start, |slots|), count - 1)
  {
  }

  /** Moving on makes the slot just written the youngest one. */
  lemma MoveOn<T>(slots: seq<T>, push: nat, next: nat, n: nat)
    requires push < n == |slots| && next == Next(push, n)
    ensures Contents(slots, next, n) == Contents(slots, push, n)[1..] + [slots[push]]
  {
    Around(push, n);
    TailOfContents(slots, push, n);
    LastOfContents(slots, next, n - 1);
  }

  lemma RecentNext<T>(zero: T, size: nat, written: seq<T>, x: T)
    requires 0 < size
    ensures Recent(zero, size, written + [x]) == Recent(zero, size, written)[1..] + [x]
  {
    assert seq(size, _ => zero) + (written + [x]) == seq(size, _ => zero) + written + [x];
  }

  /** What a step adds to the elements written. */
  function WrittenBy<T>(s: State<T>, op: Op<T>): seq<T> {
    if op.Update? then s.puts else []
  }

  /** The element put last and not written, after a step. */
  function StrayAfter<T>(size: nat, s: State<T>, op: Op<T>, stray: Q.Option<T>): Q.Option<T> {
    if Accepts(SINGLE, size, s, op) then Q.Some(op.data) else if op.Update? && s.puts != [] then Q.None else stray
  }

  lemma StepRemembers<T>(op: Op<T>, seen: Seen<T>, slots: seq<T>, slots': seq<T>, pop: nat, pop': nat,
                         push: nat, push': nat, s: State<T>, zero: T, written: seq<T>, stray: Q.Option<T>)
    requires BufferQueue.Valid(SINGLE, |slots|, s) && Remembers(slots, push, s, zero, written, stray)
    requires SameView(op, seen, |slots|, slots, slots', pop, pop', push, push', s)
    ensures Remembers(slots', push', Step(SINGLE, |slots|, s, op), zero, written + WrittenBy(s, op),
                      StrayAfter(|slots|, s, op, stray))
  {
    assert written + [] == written;
    if Accepts(SINGLE, |slots|, s, op) {
      WriteOldest(slots, push, op.data);
    } else if op.Update? && s.puts != [] {
      assert s.puts == [slots[push]];
      MoveOn(slots, push, Next(push, |slots|), |slots|);
      RecentNext(zero, |slots|, written, slots[push]);
      FirstOfContents(slots, Next(push, |slots|));
    }
  }

  lemma FirstOfContents<T>(slots: seq<T>, push: nat)
    requires push < |slots|
    ensures Contents(slots, push, |slots|)[0] == slots[push]
  {
  }

  /** All elements written by a run, and what is put last and not written. */
  function Written<T>(size: nat, s: State<T>, ops: seq<Op<T>>): seq<T>
    requires BufferQueue.Valid(SINGLE, size, s)
    decreases |ops|
  {
    if ops == [] then [] else WrittenBy(s, ops[0]) + Written(size, Step(SINGLE, size, s, ops[0]), ops[1..])
  }

  function Stray<T>(size: nat, s: State<T>, ops: seq<Op<T>>, stray: Q.Option<T>): Q.Option<T>
    requires BufferQueue.Valid(SINGLE, size, s)
    decreases |ops|
  {
    if ops == [] then stray else
      Stray(size, Step(SINGLE, size, s, ops[0]), ops[1..], StrayAfter(size, s, ops[0], stray))
  }

  method Run<T>(b: BufferImpl<T>, ops: seq<Op<T>>, ghost zero: T, ghost written: seq<T>, ghost stray: Q.Option<T>)
    requires b.Valid() && Remembers(b.buffer[..], b.pushIndx, b.state, zero, written, stray)
    modifies b, b.buffer
    ensures b.Valid() && b.state == Left(SINGLE, b.length, old(b.state), ops)
    ensures Remembers(b.buffer[..], b.pushIndx, b.state, zero, written + Written(b.length, old(b.state), ops),
                      Stray(b.length, old(b.state), ops, stray))
    decreases |ops|
  {
    if ops == [] {
      assert written + [] == written;
    } else {
      ghost var s, slots, pop, push, size := b.state, b.buffer[..], b.popIndx, b.pushIndx, b.length;
      var seen := ApplyImpl(b, ops[0]);
      StepRemembers(ops[0], seen, slots, b.buffer[..], pop, b.popIndx, push, b.pushIndx, s, zero, written, stray);
      Run(b, ops[1..], zero, written + WrittenBy(s, ops[0]), StrayAfter(size, s, ops[0], stray));
      assert written + WrittenBy(s, ops[0]) + Written(size, Step(SINGLE, size, s, ops[0]), ops[1..])
             == written + (WrittenBy(s, ops[0]) + Written(size, Step(SINGLE, size, s, ops[0]), ops[1..]));
    }
  }

  method GetShown<T>(b: BufferImpl<T>, ghost zero: T, ghost written: seq<T>, ghost stray: Q.Option<T>) returns (data: T, ok: bool)
    requires b.Valid() && Remembers(b.buffer[..], b.pushIndx, b.state, zero, written, stray)
    requires b.state.stored == b.state.puts == []
    modifies b`getReq, b`state
    ensures !ok && data == Shown(zero, b.length, written, stray)
  {
    data, ok := b.Get(true);
  }

  /** The buffer is empty at the end of a run from construction. */
  predicate EndsEmpty<T>(size: nat, ops: seq<Op<T>>) {
    var s := Left(SINGLE, size, Empty<T>(), ops);
    s.stored == [] && s.puts == []
  }

  /** What a get returns then. */
  function Returns<T>(zero: T, size: nat, ops: seq<Op<T>>): T
    requires 0 < size
  {
    Shown(zero, size, Written(size, Empty<T>(), ops), Stray(size, Empty<T>(), ops, Q.None))
  }

  /** The buffer itself, after any run that leaves it empty. */
  method GetFromEmpty<T>(size: nat, zero: T, ops: seq<Op<T>>) returns (data: T, ok: bool)
    requires 0 < size && EndsEmpty(size, ops)
    ensures !ok && data == Returns(zero, size, ops)
  {
    ghost var w := Written(size, Empty<T>(), ops);
    var b := Create(size, zero);
    Run(b, ops, zero, [], Q.None);
    assert [] + w == w;
    data, ok := GetShown(b, zero, w, Stray(size, Empty<T>(), ops, Q.None));
  }

  method Create<T>(size: nat, zero: T) returns (b: BufferImpl<T>)
    requires 0 < size
    ensures b.Valid() && fresh(b) && fresh(b.buffer) && b.length == size && b.state == Empty()
    ensures Remembers(b.buffer[..], b.pushIndx, b.state, zero, [], Q.None)
  {
    b := new BufferImpl(size, zero);
    AllInitial(b.buffer[..], 0, size, zero);
    assert Recent(zero, size, []) == seq(size, _ => zero);
  }

  lemma {:induction false} AllInitial<T>(slots: seq<T>, start: nat, count: nat, zero: T)
    requires start < |slots| && slots == seq(|slots|, _ => zero)
    ensures Contents(slots, start, count) == seq(count, _ => zero)
    decreases count
  {
    if count != 0 {
      AllInitial(slots, Next(start, |slots|), count - 1, zero);
    }
  }

  /** The promise for one run: the data returned by an empty buffer is the last written. */
  predicate ReturnsLast<T(==)>(zero: T, size: nat, ops: seq<Op<T>>)
    requires 0 < size
  {
    var w := Written(size, Empty<T>(), ops);
    w != [] ==> Returns(zero, size, ops) == w[|w| - 1]
  }

  /** One element written and taken. */
  function PutAndGet<T>(x: T): seq<Op<T>> {
    [Put(x, true), Update, Get(true), Update]
  }

  lemma PutAndGetIs<T>(size: nat, x: T)
    requires 0 < size
    ensures EndsEmpty(size, PutAndGet(x)) && Written(size, Empty(), PutAndGet(x)) == [x]
    ensures Stray(size, Empty(), PutAndGet(x), Q.None) == Q.None
  {
    var s0, ops := Empty<T>(), PutAndGet(x);
    var s1 := Step(SINGLE, size, s0, ops[0]);
    var s2 := Step(SINGLE, size, s1, ops[1]);
    var s3 := Step(SINGLE, size, s2, ops[2]);
    assert ops[1..] == [Update, Get(true), Update] && ops[1..][1..] == [Get(true), Update];
    assert ops[1..][1..][1..] == [Update];
    assert s1.puts == [x] && s2.stored == [x] && s3.gets == 1;
    assert Written(size, s3, [Update]) == [] && Written(size, s2, [Get(true), Update]) == [];
    assert Written(size, s1, [Update, Get(true), Update]) == [x];
  }

  /** On the runs that leave no put element unwritten the promise is kept exactly by a buffer with a
      single slot. */
  lemma LastDataIff<T(!new)>(zero: T, size: nat, x: T)
    requires 0 < size && x != zero
    ensures (forall ops: seq<Op<T>> :: EndsEmpty(size, ops) && Stray(size, Empty(), ops, Q.None) == Q.None ==>
               ReturnsLast(zero, size, ops)) <==> size == 1
  {
    if size != 1 {
      PutAndGetIs(size, x);
      assert !ReturnsLast(zero, size, PutAndGet(x));
    }
  }

  /** A put that is taken back before it is written breaks it for every size: its element is returned. */
  lemma TakenBackIsReturned<T>(zero: T, size: nat, ops: seq<Op<T>>, y: T)
    requires 0 < size && EndsEmpty(size, ops)
    ensures EndsEmpty(size, ops + [Put(y, true)] + [ClearPut])
    ensures Written(size, Empty(), ops + [Put(y, true)] + [ClearPut]) == Written(size, Empty(), ops)
    ensures Returns(zero, size, ops + [Put(y, true)] + [ClearPut]) == y
  {
    var s := Left(SINGLE, size, Empty<T>(), ops);
    OneMore(size, Empty(), ops, Put(y, true), Q.None);
    OneMore(size, Empty(), ops + [Put(y, true)], ClearPut, Q.None);
    assert Step(SINGLE, size, s, Put(y, true)).puts == [y];
  }

  lemma {:induction false} OneMore<T>(size: nat, s: State<T>, ops: seq<Op<T>>, op: Op<T>, stray: Q.Option<T>)
    requires BufferQueue.Valid(SINGLE, size, s)
    ensures var left := Left(SINGLE, size, s, ops);
            && Left(SINGLE, size, s, ops + [op]) == Step(SINGLE, size, left, op)
            && Written(size, s, ops + [op]) == Written(size, s, ops) + WrittenBy(left, op)
            && Stray(size, s, ops + [op], stray) == StrayAfter(size, left, op, Stray(size, s, ops, stray))
    decreases |ops|
  {
    if ops == [] {
      assert ops + [op] == [op] && [op][1..] == [];
      assert WrittenBy(s, op) + [] == WrittenBy(s, op);
    } else {
      assert (ops + [op])[1..] == ops[1..] + [op];
      OneMore(size, Step(SINGLE, size, s, ops[0]), ops[1..], op, StrayAfter(size, s, ops[0], stray));
    }
  }

  /** Two slots: the element taken last is not the one an empty buffer then returns. */
  method LastDataIsGone<T>(zero: T, x: T) returns (taken: T, again: T)
    ensures taken == x && again == zero
  {
    var b := new PrimBuffer(SINGLE, 2, zero);
    var ok := b.Put(x, true);
    b.Update();
    taken, ok := b.Get(true);
    b.Update();
    again, ok := b.Get(true);
  }
}
