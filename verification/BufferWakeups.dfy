/** Which calls of the loosely timed buffer wake which thread, and whether that is enough. A side with
    single requests is woken when the buffer stops being empty, or full; a side with multiple ones
    only when at most one slot, or one element, is left. */
module BufferWakeups {
  import opened BufferQueue

  /** What an accepted put notifies. */
  predicate PutWakesGet<T>(m: Mode, size: nat, s: State<T>) {
    if m.multiGet then |s.stored| >= size - |s.puts| - 2 else s.puts == [] && s.stored == []
  }

  predicate PutWakesPut<T>(m: Mode, s: State<T>) {
    s.puts == [] && (!m.multiPut || m.multiGet)
  }

  /** What a successful get notifies. */
  predicate GetWakesPut<T>(m: Mode, size: nat, s: State<T>) {
    if m.multiPut then |s.stored| <= s.gets + 2 else s.gets == 0 && |s.stored| == size
  }

  predicate GetWakesGet<T>(m: Mode, s: State<T>) {
    s.gets == 0 && (!m.multiGet || m.multiPut)
  }

  predicate WakesGet<T>(m: Mode, size: nat, s: State<T>, op: Op<T>) {
    (Accepts(m, size, s, op) && PutWakesGet(m, size, s)) || (Takes(m, s, op) && GetWakesGet(m, s))
  }

  predicate WakesPut<T>(m: Mode, size: nat, s: State<T>, op: Op<T>) {
    (Accepts(m, size, s, op) && PutWakesPut(m, s)) || (Takes(m, s, op) && GetWakesPut(m, size, s))
  }

  /** Some call of a run wakes the getting thread, or the putting one. */
  predicate RunWakesGet<T>(m: Mode, size: nat, s: State<T>, ops: seq<Op<T>>)
    requires Valid(m, size, s)
    decreases |ops|
  {
    ops != [] && (WakesGet(m, size, s, ops[0]) || RunWakesGet(m, size, Step(m, size, s, ops[0]), ops[1..]))
  }

  predicate RunWakesPut<T>(m: Mode, size: nat, s: State<T>, ops: seq<Op<T>>)
    requires Valid(m, size, s)
    decreases |ops|
  {
    ops != [] && (WakesPut(m, size, s, ops[0]) || RunWakesPut(m, size, Step(m, size, s, ops[0]), ops[1..]))
  }

  predicate OnlyPuts<T>(ops: seq<Op<T>>) {
    forall i :: 0 <= i < |ops| ==> ops[i].Put?
  }

  predicate OnlyGets<T>(ops: seq<Op<T>>) {
    forall i :: 0 <= i < |ops| ==> ops[i].Get?
  }

  /** The pending puts as the last accepted one of n more finds them. */
  function PutsBefore(m: Mode, pending: nat, n: nat): int {
    if m.multiPut then pending + n - 1 else if n > 1 then 1 else pending
  }

  function GetsBefore(m: Mode, pending: nat, n: nat): int {
    if m.multiGet then pending + n - 1 else if n > 1 then 1 else pending
  }

  /** The elements accepted, and taken, by a run. */
  function Puts<T>(m: Mode, size: nat, s: State<T>, ops: seq<Op<T>>): nat
    requires Valid(m, size, s)
  {
    |Ins(m, size, s, ops)|
  }

  function Gets<T>(m: Mode, size: nat, s: State<T>, ops: seq<Op<T>>): nat
    requires Valid(m, size, s)
  {
    |Outs(m, size, s, ops)|
  }

  /** Exactly when the puts of a delta cycle wake a getting thread that does nothing in it. */
  lemma {:induction false} PutsWakeGetIff<T>(m: Mode, size: nat, s: State<T>, ops: seq<Op<T>>)
    requires Valid(m, size, s) && OnlyPuts(ops)
    ensures var n := Puts(m, size, s, ops);
            RunWakesGet(m, size, s, ops) <==>
              n != 0 && (if m.multiGet then |s.stored| + PutsBefore(m, |s.puts|, n) + 2 >= size
                         else s.puts == [] && s.stored == [])
    decreases |ops|
  {
    if ops != [] {
      assert ops[0].Put?;
      PutsWakeGetIff(m, size, Step(m, size, s, ops[0]), ops[1..]);
    }
  }

  lemma {:induction false} GetsWakePutIff<T>(m: Mode, size: nat, s: State<T>, ops: seq<Op<T>>)
    requires Valid(m, size, s) && OnlyGets(ops)
    ensures var n := Gets(m, size, s, ops);
            RunWakesPut(m, size, s, ops) <==>
              n != 0 && (if m.multiPut then |s.stored| <= GetsBefore(m, s.gets, n) + 2
                         else s.gets == 0 && |s.stored| == size)
    decreases |ops|
  {
    if ops != [] {
      assert ops[0].Get?;
      GetsWakePutIff(m, size, Step(m, size, s, ops[0]), ops[1..]);
    }
  }

  lemma {:induction false} PutsAreStored<T>(m: Mode, size: nat, s: State<T>, ops: seq<Op<T>>)
    requires Valid(m, size, s) && OnlyPuts(ops)
    ensures var left := Left(m, size, s, ops);
            && left.stored == s.stored && left.gets == s.gets
            && (Puts(m, size, s, ops) == 0 ==> left == s) && (Puts(m, size, s, ops) != 0 ==> left.puts != [])
    decreases |ops|
  {
    if ops != [] {
      assert ops[0].Put?;
      PutsAreStored(m, size, Step(m, size, s, ops[0]), ops[1..]);
    }
  }

  lemma {:induction false} GetsAreTaken<T>(m: Mode, size: nat, s: State<T>, ops: seq<Op<T>>)
    requires Valid(m, size, s) && OnlyGets(ops)
    ensures var left := Left(m, size, s, ops);
            && left.stored == s.stored && left.puts == s.puts
            && (Gets(m, size, s, ops) == 0 ==> left == s) && (Gets(m, size, s, ops) != 0 ==> left.gets != 0)
    decreases |ops|
  {
    if ops != [] {
      assert ops[0].Get?;
      GetsAreTaken(m, size, Step(m, size, s, ops[0]), ops[1..]);
    }
  }

  /** A thread that has put in a delta cycle is woken for its next turn by its own puts exactly if it
      makes single requests or both sides make multiple ones. */
  lemma {:induction false} OwnPutsWakeIff<T>(m: Mode, size: nat, s: State<T>, ops: seq<Op<T>>)
    requires Valid(m, size, s) && OnlyPuts(ops) && s.puts == []
    ensures RunWakesPut(m, size, s, ops) <==> Puts(m, size, s, ops) != 0 && (!m.multiPut || m.multiGet)
    decreases |ops|
  {
    if ops != [] {
      assert ops[0].Put?;
      var s' := Step(m, size, s, ops[0]);
      if s'.puts == [] {
        OwnPutsWakeIff(m, size, s', ops[1..]);
      } else {
        LaterPutsDoNot(m, size, s', ops[1..]);
      }
    }
  }

  lemma {:induction false} LaterPutsDoNot<T>(m: Mode, size: nat, s: State<T>, ops: seq<Op<T>>)
    requires Valid(m, size, s) && OnlyPuts(ops) && s.puts != []
    ensures !RunWakesPut(m, size, s, ops)
    decreases |ops|
  {
    if ops != [] {
      assert ops[0].Put?;
      LaterPutsDoNot(m, size, Step(m, size, s, ops[0]), ops[1..]);
    }
  }

  /** The same for a thread that has got. */
  lemma {:induction false} OwnGetsWakeIff<T>(m: Mode, size: nat, s: State<T>, ops: seq<Op<T>>)
    requires Valid(m, size, s) && OnlyGets(ops) && s.gets == 0
    ensures RunWakesGet(m, size, s, ops) <==> Gets(m, size, s, ops) != 0 && (!m.multiGet || m.multiPut)
    decreases |ops|
  {
    if ops != [] {
      assert ops[0].Get?;
      var s' := Step(m, size, s, ops[0]);
      if s'.gets == 0 {
        OwnGetsWakeIff(m, size, s', ops[1..]);
      } else {
        LaterGetsDoNot(m, size, s', ops[1..]);
      }
    }
  }

  lemma {:induction false} LaterGetsDoNot<T>(m: Mode, size: nat, s: State<T>, ops: seq<Op<T>>)
    requires Valid(m, size, s) && OnlyGets(ops) && s.gets != 0
    ensures !RunWakesGet(m, size, s, ops)
    decreases |ops|
  {
    if ops != [] {
      assert ops[0].Get?;
      LaterGetsDoNot(m, size, Step(m, size, s, ops[0]), ops[1..]);
    }
  }

  /** A getting thread asleep at an empty buffer: after the puts of a delta cycle, whenever there is an
      element then it has been woken, if and only if nothing was put, or it makes single requests, or
      the last put found at most two free slots. */
  lemma SleepingGetterWokenIff<T>(m: Mode, size: nat, ops: seq<Op<T>>)
    requires OnlyPuts(ops)
    ensures var s, n := Empty<T>(), Puts(m, size, Empty<T>(), ops);
            (Committed(Left(m, size, s, ops)).stored != [] ==> RunWakesGet(m, size, s, ops))
            <==> n == 0 || !m.multiGet || size <= PutsBefore(m, 0, n) + 2
  {
    PutsWakeGetIff(m, size, Empty<T>(), ops);
    PutsAreStored(m, size, Empty<T>(), ops);
  }

  /** A putting thread asleep at a full buffer. */
  lemma SleepingPutterWokenIff<T>(m: Mode, size: nat, s: State<T>, ops: seq<Op<T>>)
    requires Valid(m, size, s) && OnlyGets(ops) && |s.stored| == size && s.gets == 0 && s.puts == []
    ensures var n := Gets(m, size, s, ops);
            (|Committed(Left(m, size, s, ops)).stored| < size ==> RunWakesPut(m, size, s, ops))
            <==> n == 0 || !m.multiPut || size <= GetsBefore(m, 0, n) + 2
  {
    GetsWakePutIff(m, size, s, ops);
    GetsAreTaken(m, size, s, ops);
  }
}
