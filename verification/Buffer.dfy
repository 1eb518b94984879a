/** The two thread buffers over one ring each: the loosely timed one with multiple requests per
    delta cycle, and the one used for cycle accurate and approximate-time simulation. */
module Buffer {
  import opened Ring
  import opened BufferQueue
  import opened BufferWakeups

  /** The slots hold the committed elements and those put, oldest first. */
  ghost predicate Holds<T>(slots: seq<T>, head: nat, s: State<T>) {
    head < |slots| && Contents(slots, head, |s.stored| + |s.puts|) == s.stored + s.puts
  }

  lemma HoldsHead<T>(slots: seq<T>, head: nat, s: State<T>, k: nat)
    requires Holds(slots, head, s) && k < |s.stored| && |s.stored| + |s.puts| <= |slots|
    ensures slots[Wrap(head + k, |slots|)] == s.stored[k]
  {
    ContentsAt(slots, head, |s.stored| + |s.puts|, k);
    assert (s.stored + s.puts)[k] == s.stored[k];
  }

  /** A put goes behind the puts that are kept. */
  lemma HoldsPut<T>(slots: seq<T>, head: nat, s: State<T>, kept: nat, x: T)
    requires Holds(slots, head, s) && kept <= |s.puts| && |s.stored| + kept < |slots|
    ensures Holds(slots[Wrap(head + |s.stored| + kept, |slots|) := x], head, s.(puts := s.puts[..kept] + [x]))
  {
    HoldsKept(slots, head, s, kept);
    PushBack(slots, head, |s.stored| + kept, x);
    assert s.stored + (s.puts[..kept] + [x]) == s.stored + s.puts[..kept] + [x];
  }

  lemma HoldsKept<T>(slots: seq<T>, head: nat, s: State<T>, kept: nat)
    requires Holds(slots, head, s) && kept <= |s.puts|
    ensures Holds(slots, head, s.(puts := s.puts[..kept]))
  {
    ContentsTake(slots, head, |s.stored| + |s.puts|, |s.stored| + kept);
    assert s.stored + s.puts[..kept] == (s.stored + s.puts)[..|s.stored| + kept];
  }

  lemma HoldsCommitted<T>(slots: seq<T>, head: nat, s: State<T>)
    requires Holds(slots, head, s) && s.gets <= |s.stored| && |s.stored| + |s.puts| <= |slots|
    ensures Holds(slots, Wrap(head + s.gets, |slots|), Committed(s))
  {
    ContentsDrop(slots, head, |s.stored| + |s.puts|, s.gets);
    assert s.stored[s.gets..] + s.puts == (s.stored + s.puts)[s.gets..];
    assert Committed(s).stored + [] == Committed(s).stored;
  }

  /** The indices of a buffer whose oldest committed element is at `head`: those of a multiple side
      move with each request, those of a single side only when it is committed. */
  ghost predicate Placed<T>(m: Mode, size: nat, s: State<T>, head: nat, pop: nat, push: nat) {
    && head < size && BufferQueue.Valid(m, size, s)
    && pop == (if m.multiGet then Wrap(head + s.gets, size) else head)
    && push == Wrap(head + |s.stored| + (if m.multiPut then |s.puts| else 0), size)
  }

  lemma PlacedCommitted<T>(m: Mode, size: nat, s: State<T>, head: nat, pop: nat, push: nat)
    requires Placed(m, size, s, head, pop, push)
    ensures var pop' := if !m.multiGet && s.gets != 0 then Next(pop, size) else pop;
            var push' := if !m.multiPut && |s.puts| != 0 then Next(push, size) else push;
            Placed(m, size, Committed(s), Wrap(head + s.gets, size), pop', push')
  {
  }

  lemma PlacedPut<T>(m: Mode, size: nat, s: State<T>, head: nat, pop: nat, push: nat, x: T)
    requires Placed(m, size, s, head, pop, push) && CanPut(m, size, s)
    ensures Placed(m, size, Step(m, size, s, Op.Put(x, true)), head, pop, if m.multiPut then Next(push, size) else push)
  {
  }

  class PrimBuffer<T> {
    const mode: Mode
    const bufSize: nat
    const buffer: array<T>
    var popIndx: nat
    var getNum: nat
    var pushIndx: nat
    var putNum: nat
    var elementNum: nat

    // Events: scheduled for the next clock tick
    var putEvent: bool
    var getEvent: bool

    /** The committed elements and the requests of this delta cycle. */
    ghost var state: State<T>
    /** The slot of the oldest committed element. */
    ghost var head: nat

    ghost predicate Indices()
      reads `popIndx, `getNum, `pushIndx, `putNum, `elementNum, `head, `state
    {
      && 1 < bufSize < 0x1_0000
      && elementNum == |state.stored| && getNum == state.gets && putNum == |state.puts|
      && Placed(mode, bufSize, state, head, popIndx, pushIndx)
    }

    ghost predicate Valid()
      reads this, buffer
    {
      && Indices() && buffer.Length == bufSize
      && Holds(buffer[..], head, state)
    }

    constructor (mode: Mode, size: nat, zero: T)
      requires 1 < size < 0x1_0000
      ensures Valid() && this.mode == mode && bufSize == size && state == Empty()
      ensures fresh(buffer) && buffer[..] == seq(size, _ => zero)
      ensures popIndx == pushIndx == 0 && !putEvent && !getEvent
    {
      this.mode, bufSize := mode, size;
      buffer := new T[size](_ => zero);
      popIndx, getNum, pushIndx, putNum, elementNum := 0, 0, 0, 0, 0;
      putEvent, getEvent := false, false;
      state, head := Empty(), 0;
    }

    method Ready() returns (r: bool)
      requires Valid()
      ensures r == CanPut(mode, bufSize, state)
    {
      r := bufSize - elementNum > if mode.multiPut then putNum else 0;
    }

    method Request() returns (r: bool)
      requires Valid()
      ensures r == CanGet(mode, state)
    {
      r := elementNum > if mode.multiGet then getNum else 0;
    }

    /** The element shown is the next one to get; without one it is whatever the slot holds. */
    method Peek() returns (data: T)
      requires Valid()
      ensures data == buffer[popIndx]
      ensures CanGet(mode, state) ==> data == Head(mode, state)
    {
      data := buffer[popIndx];
      if CanGet(mode, state) {
        HoldsHead(buffer[..], head, state, if mode.multiGet then getNum else 0);
      }
    }

    method DoGet()
      requires Valid() && CanGet(mode, state)
      modifies `popIndx, `getNum, `state, `putEvent, `getEvent
      ensures Valid() && state == Step(mode, bufSize, old(state), Op.Get(true))
      ensures mode.multiGet || popIndx == old(popIndx)
      ensures putEvent == (old(putEvent) || GetWakesPut(mode, bufSize, old(state)))
      ensures getEvent == (old(getEvent) || GetWakesGet(mode, old(state)))
    {
      if mode.multiGet {
        popIndx := if popIndx == bufSize - 1 then 0 else popIndx + 1;
      }
      NotifyByGet();
      getNum := if mode.multiGet then getNum + 1 else 1;
      state := Step(mode, bufSize, state, Op.Get(true));
    }

    method NotifyByGet()
      modifies `putEvent, `getEvent
      ensures putEvent == (old(putEvent) || (if mode.multiPut then elementNum <= getNum + 2 else getNum == 0 && elementNum == bufSize))
      ensures getEvent == (old(getEvent) || (getNum == 0 && (!mode.multiGet || mode.multiPut)))
    {
      if mode.multiPut && elementNum <= getNum + 2 { putEvent := true; }
      if getNum == 0 {
        if !mode.multiPut && elementNum == bufSize { putEvent := true; }
        if !mode.multiGet { getEvent := true; }
        if mode.multiPut && mode.multiGet { getEvent := true; }
      }
    }

    /** A further put of a single side goes to the same slot: it replaces the former one. */
    method DoPut(data: T)
      requires Valid() && CanPut(mode, bufSize, state)
      modifies `pushIndx, `putNum, `state, `putEvent, `getEvent, buffer
      ensures Valid() && state == Step(mode, bufSize, old(state), Op.Put(data, true))
      ensures buffer[..] == old(buffer[..])[old(pushIndx) := data]
      ensures mode.multiPut || pushIndx == old(pushIndx)
      ensures putEvent == (old(putEvent) || PutWakesPut(mode, old(state)))
      ensures getEvent == (old(getEvent) || PutWakesGet(mode, bufSize, old(state)))
    {
      NotifyByPut();
      PlacePut(data);
    }

    method PlacePut(data: T)
      requires Valid() && CanPut(mode, bufSize, state)
      modifies `pushIndx, `putNum, `state, buffer
      ensures Valid() && state == Step(mode, bufSize, old(state), Op.Put(data, true))
      ensures buffer[..] == old(buffer[..])[old(pushIndx) := data]
      ensures mode.multiPut || pushIndx == old(pushIndx)
    {
      HoldsPut(buffer[..], head, state, if mode.multiPut then putNum else 0, data);
      PlacedPut(mode, bufSize, state, head, popIndx, pushIndx, data);
      buffer[pushIndx] := data;
      if mode.multiPut {
        pushIndx := if pushIndx == bufSize - 1 then 0 else pushIndx + 1;
      }
      putNum := if mode.multiPut then putNum + 1 else 1;
      state := Step(mode, bufSize, state, Op.Put(data, true));
    }

    method NotifyByPut()
      modifies `putEvent, `getEvent
      ensures getEvent == (old(getEvent) || (if mode.multiGet then elementNum >= bufSize - putNum - 2 else putNum == 0 && elementNum == 0))
      ensures putEvent == (old(putEvent) || (putNum == 0 && (!mode.multiPut || mode.multiGet)))
    {
      if mode.multiGet && elementNum >= bufSize - putNum - 2 { getEvent := true; }
      if putNum == 0 {
        if !mode.multiGet && elementNum == 0 { getEvent := true; }
        if !mode.multiPut { putEvent := true; }
        if mode.multiPut && mode.multiGet { putEvent := true; }
      }
    }

    method Get(enable: bool) returns (data: T, ok: bool)
      requires Valid()
      modifies `popIndx, `getNum, `state, `putEvent, `getEvent
      ensures Valid() && state == Step(mode, bufSize, old(state), Op.Get(enable))
      ensures putEvent == (old(putEvent) || WakesPut(mode, bufSize, old(state), Op.Get(enable)))
      ensures getEvent == (old(getEvent) || WakesGet(mode, bufSize, old(state), Op.Get(enable)))
      ensures ok == Takes(mode, old(state), Op<T>.Get(enable))
      ensures ok ==> data == Head(mode, old(state))
      ensures data == buffer[old(popIndx)]
      ensures mode.multiGet || popIndx == old(popIndx)
    {
      data := Peek();
      ok := enable && elementNum > if mode.multiGet then getNum else 0;
      if ok { DoGet(); }
    }

    method Put(data: T, mask: bool) returns (ok: bool)
      requires Valid()
      modifies `pushIndx, `putNum, `state, `putEvent, `getEvent, buffer
      ensures Valid() && state == Step(mode, bufSize, old(state), Op.Put(data, mask))
      ensures putEvent == (old(putEvent) || WakesPut(mode, bufSize, old(state), Op.Put(data, mask)))
      ensures getEvent == (old(getEvent) || WakesGet(mode, bufSize, old(state), Op.Put(data, mask)))
      ensures ok == Accepts(mode, bufSize, old(state), Op.Put(data, mask))
      ensures buffer[..] == if ok then old(buffer[..])[old(pushIndx) := data] else old(buffer[..])
      ensures mode.multiPut || pushIndx == old(pushIndx)
    {
      ok := mask && bufSize - elementNum > if mode.multiPut then putNum else 0;
      if ok { DoPut(data); }
    }

    method ClearGet()
      requires Valid() && Allowed<T>(mode, Op.ClearGet)
      modifies `getNum, `state
      ensures Valid() && state == Step(mode, bufSize, old(state), Op.ClearGet)
    {
      getNum := 0;
      state := Step(mode, bufSize, state, Op.ClearGet);
    }

    method ClearPut()
      requires Valid() && Allowed<T>(mode, Op.ClearPut)
      modifies `putNum, `state
      ensures Valid() && state == Step(mode, bufSize, old(state), Op.ClearPut)
    {
      HoldsKept(buffer[..], head, state, 0);
      putNum := 0;
      state := Step(mode, bufSize, state, Op.ClearPut);
    }

    /** The update phase: what was requested is committed, and indices that did not move with the
        requests move now. */
    method Update()
      requires Valid()
      modifies `popIndx, `getNum, `pushIndx, `putNum, `elementNum, `state, `head
      ensures Valid() && state == Step(mode, bufSize, old(state), Op.Update)
      ensures !mode.multiGet ==> popIndx == if old(state).gets != 0 then Next(old(popIndx), bufSize) else old(popIndx)
      ensures !mode.multiPut ==> pushIndx == if old(state).puts != [] then Next(old(pushIndx), bufSize) else old(pushIndx)
    {
      HoldsCommitted(buffer[..], head, state);
      PlacedCommitted(mode, bufSize, state, head, popIndx, pushIndx);
      head := Wrap(head + getNum, bufSize);
      MoveIndices();
      state := Step(mode, bufSize, state, Op.Update);
    }

    method MoveIndices()
      requires popIndx < bufSize && pushIndx < bufSize && getNum <= elementNum
      modifies `popIndx, `getNum, `pushIndx, `putNum, `elementNum
      ensures popIndx == if !mode.multiGet && old(getNum) != 0 then Next(old(popIndx), bufSize) else old(popIndx)
      ensures pushIndx == if !mode.multiPut && old(putNum) != 0 then Next(old(pushIndx), bufSize) else old(pushIndx)
      ensures elementNum == old(elementNum) - old(getNum) + old(putNum) && getNum == putNum == 0
    {
      if !mode.multiGet && getNum != 0 {
        popIndx := if popIndx == bufSize - 1 then 0 else popIndx + 1;
      }
      elementNum := elementNum - getNum;
      getNum := 0;
      if !mode.multiPut && putNum != 0 {
        pushIndx := if pushIndx == bufSize - 1 then 0 else pushIndx + 1;
      }
      elementNum := elementNum + putNum;
      putNum := 0;
    }

    /** The clock tick: the threads whose events were scheduled are woken. */
    method Trigger() returns (wakePut: bool, wakeGet: bool)
      modifies `putEvent, `getEvent
      ensures wakePut == old(putEvent) && wakeGet == old(getEvent) && !putEvent && !getEvent
    {
      wakePut, wakeGet := putEvent, getEvent;
      putEvent, getEvent := false, false;
    }

    /** Both resets, as at the start of the process that uses both sides. */
    method Reset(zero: T)
      requires Valid()
      modifies this, buffer
      ensures Valid() && state == Empty() && putEvent == old(putEvent) && getEvent == old(getEvent)
      ensures popIndx == pushIndx == 0 && buffer[..] == old(buffer[..])[0 := zero]
    {
      popIndx, getNum := 0, 0;
      pushIndx, elementNum, putNum := 0, 0, 0;
      buffer[0] := zero;
      state, head := Empty(), 0;
    }
  }

  class BufferImpl<T> {
    const length: nat
    const buffer: array<T>
    var popIndx: nat
    var pushIndx: nat
    var elementNum: nat
    var putReq: bool
    var getReq: bool

    ghost var state: State<T>

    ghost predicate Valid()
      reads this, buffer
    {
      && 0 < length == buffer.Length && popIndx < length && BufferQueue.Valid(Mode(false, false), length, state)
      && elementNum == |state.stored|
      && state.gets == (if getReq then 1 else 0) && |state.puts| == (if putReq then 1 else 0)
      && pushIndx == Wrap(popIndx + elementNum, length)
      && Holds(buffer[..], popIndx, state)
    }

    constructor (length: nat, zero: T)
      requires 0 < length
      ensures Valid() && this.length == length && state == Empty()
      ensures fresh(buffer) && buffer[..] == seq(length, _ => zero)
      ensures popIndx == pushIndx == 0
    {
      this.length := length;
      buffer := new T[length](_ => zero);
      popIndx, pushIndx, elementNum, putReq, getReq := 0, 0, 0, false, false;
      state := Empty();
    }

    method Get(enable: bool) returns (data: T, ok: bool)
      requires Valid()
      modifies `getReq, `state
      ensures Valid() && state == Step(Mode(false, false), length, old(state), Op.Get(enable))
      ensures ok == Takes(Mode(false, false), old(state), Op<T>.Get(enable))
      ensures ok ==> data == Head(Mode(false, false), old(state))
      ensures data == buffer[popIndx]
    {
      data := buffer[popIndx];
      ok := enable && elementNum != 0;
      if ok {
        getReq := true;
        HoldsHead(buffer[..], popIndx, state, 0);
      }
      state := Step(Mode(false, false), length, state, Op.Get(enable));
    }

    method Put(data: T, mask: bool) returns (ok: bool)
      requires Valid()
      modifies `putReq, `state, buffer
      ensures Valid() && state == Step(Mode(false, false), length, old(state), Op.Put(data, mask))
      ensures ok == Accepts(Mode(false, false), length, old(state), Op.Put(data, mask))
      ensures buffer[..] == if ok then old(buffer[..])[pushIndx := data] else old(buffer[..])
    {
      ok := mask && elementNum != length;
      if ok {
        HoldsPut(buffer[..], popIndx, state, 0, data);
        putReq := true;
        buffer[pushIndx] := data;
      }
      state := Step(Mode(false, false), length, state, Op.Put(data, mask));
    }

    method ClearGet()
      requires Valid()
      modifies `getReq, `state
      ensures Valid() && state == Step(Mode(false, false), length, old(state), Op.ClearGet)
    {
      getReq := false;
      state := Step(Mode(false, false), length, state, Op.ClearGet);
    }

    method ClearPut()
      requires Valid()
      modifies `putReq, `state
      ensures Valid() && state == Step(Mode(false, false), length, old(state), Op.ClearPut)
    {
      HoldsKept(buffer[..], popIndx, state, 0);
      putReq := false;
      state := Step(Mode(false, false), length, state, Op.ClearPut);
    }

    method Update()
      requires Valid()
      modifies `popIndx, `pushIndx, `elementNum, `putReq, `getReq, `state
      ensures Valid() && state == Step(Mode(false, false), length, old(state), Op.Update)
      ensures popIndx == if old(state).gets != 0 then Next(old(popIndx), length) else old(popIndx)
      ensures pushIndx == if old(state).puts != [] then Next(old(pushIndx), length) else old(pushIndx)
    {
      HoldsCommitted(buffer[..], popIndx, state);
      MoveIndices();
      state := Step(Mode(false, false), length, state, Op.Update);
    }

    method MoveIndices()
      requires popIndx < length && pushIndx < length && (getReq ==> 0 < elementNum)
      modifies `popIndx, `pushIndx, `elementNum, `putReq, `getReq
      ensures popIndx == if old(getReq) then Next(old(popIndx), length) else old(popIndx)
      ensures pushIndx == if old(putReq) then Next(old(pushIndx), length) else old(pushIndx)
      ensures elementNum == old(elementNum) - (if old(getReq) then 1 else 0) + (if old(putReq) then 1 else 0)
      ensures !getReq && !putReq
    {
      if getReq {
        popIndx := if popIndx == length - 1 then 0 else popIndx + 1;
        elementNum := elementNum - 1;
        getReq := false;
      }
      if putReq {
        pushIndx := if pushIndx == length - 1 then 0 else pushIndx + 1;
        elementNum := elementNum + 1;
        putReq := false;
      }
    }

    method Reset(zero: T)
      requires Valid()
      modifies this, buffer
      ensures Valid() && state == Empty()
      ensures popIndx == pushIndx == 0 && buffer[..] == old(buffer[..])[0 := zero]
    {
      popIndx, getReq := 0, false;
      pushIndx, putReq, elementNum := 0, false, 0;
      buffer[0] := zero;
      state := Empty();
    }
  }

  /** What a process sees of a call: the data returned by a get, and whether a request succeeded. */
  datatype Seen<T> = Shown(data: T, ok: bool) | Replied(ok: bool) | Nothing

  method Apply<T>(b: PrimBuffer<T>, op: Op<T>) returns (seen: Seen<T>)
    requires b.Valid() && Allowed(b.mode, op)
    modifies b, b.buffer
    ensures b.Valid() && b.state == Step(b.mode, b.bufSize, old(b.state), op)
    ensures seen.Shown? == op.Get? && (op.Get? ==> seen.ok == Takes(b.mode, old(b.state), op))
    ensures op.Get? && seen.ok ==> seen.data == Head(b.mode, old(b.state))
    ensures seen.Replied? == op.Put? && (op.Put? ==> seen.ok == Accepts(b.mode, b.bufSize, old(b.state), op))
    ensures b.putEvent == (old(b.putEvent) || WakesPut(b.mode, b.bufSize, old(b.state), op))
    ensures b.getEvent == (old(b.getEvent) || WakesGet(b.mode, b.bufSize, old(b.state), op))
    ensures !b.mode.multiGet && !b.mode.multiPut ==> SameView(op, seen, b.bufSize, old(b.buffer[..]), b.buffer[..],
      old(b.popIndx), b.popIndx, old(b.pushIndx), b.pushIndx, old(b.state))
  {
    match op
    case Get(enable) => var x, ok := b.Get(enable); seen := Shown(x, ok);
    case Put(x, mask) => var ok := b.Put(x, mask); seen := Replied(ok);
    case ClearGet => b.ClearGet(); seen := Nothing;
    case ClearPut => b.ClearPut(); seen := Nothing;
    case Update => b.Update(); seen := Nothing;
  }

  method ApplyImpl<T>(b: BufferImpl<T>, op: Op<T>) returns (seen: Seen<T>)
    requires b.Valid()
    modifies b, b.buffer
    ensures b.Valid() && b.state == Step(Mode(false, false), b.length, old(b.state), op)
    ensures SameView(op, seen, b.length, old(b.buffer[..]), b.buffer[..],
      old(b.popIndx), b.popIndx, old(b.pushIndx), b.pushIndx, old(b.state))
  {
    match op
    case Get(enable) => var x, ok := b.Get(enable); seen := Shown(x, ok);
    case Put(x, mask) => var ok := b.Put(x, mask); seen := Replied(ok);
    case ClearGet => b.ClearGet(); seen := Nothing;
    case ClearPut => b.ClearPut(); seen := Nothing;
    case Update => b.Update(); seen := Nothing;
  }

  /** What one call on a single-request buffer shows and does to the slots and indices. */
  ghost predicate SameView<T>(op: Op<T>, seen: Seen<T>, size: nat, slots: seq<T>, slots': seq<T>,
                              pop: nat, pop': nat, push: nat, push': nat, s: State<T>)
  {
    && pop < size == |slots| && push < size
    && var m := Mode(false, false);
    && slots' == (if Accepts(m, size, s, op) then slots[push := op.data] else slots)
    && pop' == (if op.Update? && s.gets != 0 then Next(pop, size) else pop)
    && push' == (if op.Update? && s.puts != [] then Next(push, size) else push)
    && seen == match op
       case Get(_) => Shown(slots[pop], Takes(m, s, op))
       case Put(_, _) => Replied(Accepts(m, size, s, op))
       case _ => Nothing
  }

  /** Buffers of the same size in the same state, down to what the unused slots hold. */
  ghost predicate InStep<T>(a: PrimBuffer<T>, b: BufferImpl<T>)
    reads a, a.buffer, b, b.buffer
  {
    && a.Valid() && b.Valid() && {a, a.buffer} !! {b, b.buffer}
    && a.mode == Mode(false, false) && a.bufSize == b.length
    && a.state == b.state && a.popIndx == b.popIndx && a.pushIndx == b.pushIndx && a.buffer[..] == b.buffer[..]
  }

  /** With single requests both buffers are the same on every run, including the data a get returns
      from an empty buffer. */
  method RunBoth<T>(a: PrimBuffer<T>, b: BufferImpl<T>, ops: seq<Op<T>>) returns (loose: seq<Seen<T>>, accurate: seq<Seen<T>>)
    requires InStep(a, b)
    modifies a, a.buffer, b, b.buffer
    ensures loose == accurate && |loose| == |ops|
    ensures InStep(a, b) && b.state == Left(Mode(false, false), b.length, old(b.state), ops)
    decreases |ops|
  {
    if ops == [] {
      loose, accurate := [], [];
    } else {
      var x := Apply(a, ops[0]);
      var y := ApplyImpl(b, ops[0]);
      loose, accurate := RunBoth(a, b, ops[1..]);
      loose, accurate := [x] + loose, [y] + accurate;
    }
  }

  /** From construction on. */
  method RunFromReset<T>(size: nat, zero: T, ops: seq<Op<T>>) returns (loose: seq<Seen<T>>, accurate: seq<Seen<T>>)
    requires 1 < size < 0x1_0000
    ensures loose == accurate && |loose| == |ops|
  {
    var a := new PrimBuffer(Mode(false, false), size, zero);
    var b := new BufferImpl(size, zero);
    loose, accurate := RunBoth(a, b, ops);
  }

  /** The elements a sequence of calls got from the buffer, and those it put into it. */
  function Got<T>(seen: seq<Seen<T>>): seq<T> {
    if seen == [] then [] else (if seen[0].Shown? && seen[0].ok then [seen[0].data] else []) + Got(seen[1..])
  }

  function Stored<T>(ops: seq<Op<T>>, seen: seq<Seen<T>>): seq<T>
    requires |ops| == |seen|
  {
    if ops == [] then [] else
      (if ops[0].Put? && seen[0].Replied? && seen[0].ok then [ops[0].data] else []) + Stored(ops[1..], seen[1..])
  }

  /** Any sequence of calls on the buffer itself: what they return, and which events are scheduled. */
  method ApplyAll<T>(b: PrimBuffer<T>, ops: seq<Op<T>>) returns (seen: seq<Seen<T>>)
    requires b.Valid() && forall i :: 0 <= i < |ops| ==> Allowed(b.mode, ops[i])
    modifies b, b.buffer
    ensures b.Valid() && b.state == Left(b.mode, b.bufSize, old(b.state), ops)
    ensures |seen| == |ops| && Got(seen) == Outs(b.mode, b.bufSize, old(b.state), ops)
    ensures Stored(ops, seen) == Ins(b.mode, b.bufSize, old(b.state), ops)
    ensures b.putEvent == (old(b.putEvent) || RunWakesPut(b.mode, b.bufSize, old(b.state), ops))
    ensures b.getEvent == (old(b.getEvent) || RunWakesGet(b.mode, b.bufSize, old(b.state), ops))
    decreases |ops|
  {
    if ops == [] {
      seen := [];
    } else {
      var first := Apply(b, ops[0]);
      seen := ApplyAll(b, ops[1..]);
      seen := [first] + seen;
    }
  }

  /** On the buffer itself: gets of one delta cycle, with multiple requests. */
  method GetMany<T>(b: PrimBuffer<T>, ops: seq<Op<T>>) returns (data: seq<T>)
    requires b.Valid() && b.mode.multiGet && b.state.gets == 0 && AllGets(ops)
    modifies b, b.buffer
    ensures b.Valid() && data == old(b.state).stored[..Least(|ops|, |old(b.state).stored|)]
  {
    GetsReturn(b.mode, b.bufSize, b.state, ops);
    var seen := ApplyAll(b, ops);
    data := Got(seen);
  }

  /** And puts. */
  method PutMany<T>(b: PrimBuffer<T>, xs: seq<T>) returns (accepted: seq<T>)
    requires b.Valid() && b.mode.multiPut && b.state.puts == []
    modifies b, b.buffer
    ensures b.Valid() && accepted == xs[..Least(|xs|, b.bufSize - |old(b.state).stored|)] && b.state.puts == accepted
  {
    PutsAccepted(b.mode, b.bufSize, b.state, xs);
    OnlyPutsOf(xs);
    var seen := ApplyAll(b, PutsOf(xs));
    accepted := Stored(PutsOf(xs), seen);
  }

  lemma {:induction false} OnlyPutsOf<T>(xs: seq<T>)
    ensures OnlyPuts(PutsOf(xs))
    decreases |xs|
  {
    if xs != [] { OnlyPutsOf(xs[1..]); }
  }

  /** From construction, with the getting thread asleep: the puts of one delta cycle leave an element it
      does not learn of exactly if it makes multiple requests and more than two slots were free. */
  method PutToSleeper<T>(mode: Mode, size: nat, zero: T, ops: seq<Op<T>>) returns (stuck: bool)
    requires 1 < size < 0x1_0000 && OnlyPuts(ops)
    ensures var n := Puts(mode, size, Empty<T>(), ops);
            stuck <==> n != 0 && mode.multiGet && PutsBefore(mode, 0, n) + 2 < size
  {
    SleepingGetterWokenIff(mode, size, ops);
    var b := new PrimBuffer(mode, size, zero);
    var seen := ApplyAll(b, ops);
    b.Update();
    var wakePut, wakeGet := b.Trigger();
    var there := b.Request();
    stuck := there && !wakeGet;
  }

  /** So a single put into an empty buffer of three slots or more stays unnoticed by such a thread,
      however many delta cycles pass. */
  method NeverNoticed<T>(multiPut: bool, size: nat, zero: T, x: T, n: nat) returns (b: PrimBuffer<T>)
    requires 2 < size < 0x1_0000
    ensures b.Valid() && b.mode == Mode(multiPut, true) && b.state.stored == [x] && !b.getEvent
  {
    b := new PrimBuffer(Mode(multiPut, true), size, zero);
    var ok := b.Put(x, true);
    for i := 0 to n + 1
      invariant b.Valid() && b.mode == Mode(multiPut, true) && fresh(b) && !b.getEvent && b.state.gets == 0
      invariant if i == 0 then b.state.stored == [] && b.state.puts == [x] else b.state.stored == [x] && b.state.puts == []
    {
      b.Update();
    }
  }
}
