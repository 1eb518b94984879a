/** The payload event queue as it is: a heap list for timed payloads, three growing arrays read
    through a cursor for the others, and loops that call back what is due. */
module Peq {
  import M = PeqMachine
  import R = PeqReactions
  import TimeOrder
  import TimeOrderedList

  /** A list that is filled, read once from the front and reset. */
  class DeltaList<P> {
    const blank: P
    var entries: seq<P>
    var size: nat
    var out: nat

    /** What was inserted since the last reset. */
    ghost var items: seq<P>

    ghost predicate Valid()
      reads this
    {
      out <= size <= |entries| && 0 < |entries| && items == entries[..size]
    }

    constructor (blank: P)
      ensures Valid() && items == [] && out == 0
    {
      this.blank, entries, size, out, items := blank, seq(100, _ => blank), 0, 0, [];
    }

    method Insert(p: P)
      requires Valid()
      modifies this
      ensures Valid() && items == old(items) + [p] && out == old(out)
    {
      if size == |entries| {
        entries := entries + seq(|entries|, _ => blank);
      }
      entries := entries[size := p];
      size := size + 1;
      items := items + [p];
    }

    predicate Next()
      reads `out, `size
    {
      out < size
    }

    method Get() returns (p: P)
      requires Valid() && Next()
      modifies `out
      ensures Valid() && out == old(out) + 1 <= |items| && p == items[old(out)]
    {
      p := entries[out];
      out := out + 1;
    }

    method Reset()
      requires Valid()
      modifies `size, `out, `items
      ensures Valid() && items == [] && out == 0
    {
      size, out, items := 0, 0, [];
    }
  }

  class Queue<P> {
    const ppq: TimeOrderedList.OrderedList<P>
    const uneven: DeltaList<P>
    const even: DeltaList<P>
    const immediate: DeltaList<P>

    // The kernel's part
    var now: nat
    var deltaCount: nat
    var pending: M.Pending
    var runnable: bool

    // The owner's callbacks
    var timedLog: seq<M.TimedCall<P>>
    var deltaLog: seq<M.DeltaCall<P>>
    var immediateLog: seq<P>

    /** The machine state this object stands for, and all elements of the list so far. */
    ghost var model: M.Queue<P>
    ghost var nodes: set<TimeOrderedList.Element<P>>

    ghost predicate Mirrors()
      reads this, ppq`contents, uneven`items, even`items, immediate`items
    {
      model == M.Queue(ppq.contents, uneven.items, even.items, immediate.items,
                       now, deltaCount, pending, runnable, timedLog, deltaLog, immediateLog)
    }

    /** The lists are in order; one of them may be being read. */
    ghost predicate Lists()
      reads `nodes, ppq, ppq.live, ppq.free, uneven, even, immediate
    {
      && ppq.Valid() && uneven.Valid() && even.Valid() && immediate.Valid()
      && uneven != even && even != immediate && immediate != uneven
      && ppq.Nodes() <= nodes
    }

    ghost predicate Wired()
      reads this, ppq, ppq.live, ppq.free, uneven, even, immediate
    {
      Lists() && Mirrors()
    }

    ghost predicate Valid()
      reads this, ppq, ppq.live, ppq.free, uneven, even, immediate
    {
      Wired() && uneven.out == even.out == immediate.out == 0
    }

    constructor (blank: P)
      ensures Valid() && model == M.Start() && fresh(ppq) && fresh(uneven) && fresh(even) && fresh(immediate)
      ensures nodes == {}
    {
      ppq := new TimeOrderedList.OrderedList(blank);
      uneven := new DeltaList(blank);
      even := new DeltaList(blank);
      immediate := new DeltaList(blank);
      now, deltaCount, pending, runnable := 0, 0, M.NotPending, false;
      timedLog, deltaLog, immediateLog := [], [], [];
      model, nodes := M.Start(), {};
    }

    /** Notification for the next delta cycle: payloads notified in an even cycle go to the list for
        uneven ones and the other way round. */
    method NotifyDelta(p: P)
      requires Wired()
      modifies this`pending, this`model, uneven, even
      ensures Wired() && model == M.NotifyNext(old(model), p)
      ensures uneven.out == old(uneven.out) && even.out == old(even.out)
    {
      if deltaCount % 2 == 1 {
        even.Insert(p);
      } else {
        uneven.Insert(p);
      }
      pending := M.NextDelta;
      model := M.NotifyNext(model, p);
    }

    /** Notification with a delay. */
    method NotifyTimed(e: TimeOrder.Entry<P>)
      requires Wired() && e.d == deltaCount
      modifies this`pending, this`model, this`nodes, ppq, nodes
      ensures Wired() && model == M.NotifyLater(old(model), e)
      ensures old(nodes) <= nodes && fresh(nodes - old(nodes))
    {
      AddTimed(e);
      pending := M.NotifyAt(pending, e.t);
      model := M.NotifyLater(model, e);
    }

    method NotifyAfter(p: P, delay: nat)
      requires Wired()
      modifies this`pending, this`model, this`nodes, ppq, nodes
      ensures Wired() && model == R.NotifyTimed(old(model), p, delay)
      ensures old(nodes) <= nodes && fresh(nodes - old(nodes))
    {
      ghost var q, e := model, TimeOrder.Entry(p, now + delay, deltaCount);
      assert R.NotifyTimed(q, p, delay) == M.NotifyLater(q, e);
      NotifyTimed(TimeOrder.Entry(p, now + delay, deltaCount));
    }

    method AddTimed(e: TimeOrder.Entry<P>)
      requires Lists()
      modifies this`nodes, ppq, nodes
      ensures Lists() && ppq.contents == TimeOrder.Insert(old(ppq.contents), e)
      ensures old(nodes) <= nodes && fresh(nodes - old(nodes))
    {
      AddEntry(e);
      nodes := nodes + ppq.Nodes();
    }

    method AddEntry(e: TimeOrder.Entry<P>)
      requires ppq.Valid() && ppq.Nodes() <= nodes
      modifies ppq, nodes
      ensures ppq.Valid() && ppq.contents == TimeOrder.Insert(old(ppq.contents), e)
      ensures fresh(ppq.Nodes() - nodes)
    {
      ppq.Add(e.p, e.t, e.d);
    }

    /** A notification, made by the user or by a callback. */
    method Notify(p: P, delay: nat)
      requires Wired()
      modifies this`pending, this`model, this`nodes, ppq, nodes, uneven, even
      ensures Wired()
      ensures delay == 0 ==> model == M.NotifyNext(old(model), p)
      ensures delay != 0 ==> model == R.NotifyTimed(old(model), p, delay)
      ensures uneven.out == old(uneven.out) && even.out == old(even.out)
      ensures old(nodes) <= nodes && fresh(nodes - old(nodes))
    {
      if delay == 0 {
        NotifyDelta(p);
      } else {
        NotifyAfter(p, delay);
      }
    }

    method ReactOnce(n: R.Notice<P>)
      requires Wired()
      modifies this`pending, this`model, this`nodes, ppq, nodes, uneven, even
      ensures Wired() && model == R.NotifyOne(old(model), n)
      ensures uneven.out == old(uneven.out) && even.out == old(even.out)
      ensures old(nodes) <= nodes && fresh(nodes - old(nodes))
    {
      ghost var q := model;
      Notify(n.p, n.delay);
      R.NotifyOneIs(q, n, model);
    }

    /** What a callback notifies. */
    method React(notices: seq<R.Notice<P>>)
      requires Wired()
      modifies this`pending, this`model, this`nodes, ppq, nodes, uneven, even
      ensures Wired() && model == R.NotifyAll(old(model), notices)
      ensures uneven.out == old(uneven.out) && even.out == old(even.out)
      ensures old(nodes) <= nodes && fresh(nodes - old(nodes))
      decreases |notices|
    {
      if notices != [] {
        ReactOnce(notices[0]);
        React(notices[1..]);
      }
    }

    method NotifyNow(p: P)
      requires Valid()
      modifies this`pending, this`runnable, this`model, immediate
      ensures Valid() && model == M.Do(old(model), M.NotifyNow(p))
    {
      immediate.Insert(p);
      pending, runnable := M.NotPending, true;
      model := model.(immediate := model.immediate + [p], pending := M.NotPending, runnable := true);
    }

    method CancelAll()
      requires Valid()
      modifies this`pending, this`model, ppq, nodes, uneven, even, immediate
      ensures Valid() && model == M.Do(old(model), M.CancelAll)
    {
      ClearLists();
      pending := M.NotPending;
      model := model.(timed := [], uneven := [], even := [], immediate := [], pending := M.NotPending);
    }

    method ClearLists()
      requires Lists()
      modifies ppq, nodes, uneven, even, immediate
      ensures Lists() && ppq.contents == [] && uneven.items == even.items == immediate.items == []
      ensures uneven.out == even.out == immediate.out == 0
    {
      ppq.Reset();
      uneven.Reset();
      even.Reset();
      immediate.Reset();
    }

    function Calls(): nat
      reads `timedLog, `deltaLog, `immediateLog
    {
      |timedLog| + |deltaLog| + |immediateLog|
    }

    /** Takes the next immediate payload. */
    method TakeImmediate() returns (p: P, count: nat)
      requires Wired() && immediate.Next()
      modifies this`immediateLog, this`model, immediate`out
      ensures Wired() && immediate.out == old(immediate.out) + 1 <= |old(model).immediate|
      ensures p == old(model).immediate[old(immediate.out)] && count == R.Count(old(model))
      ensures model == R.LogImmediate(old(model), p)
    {
      count := Calls();
      p := immediate.Get();
      immediateLog := immediateLog + [p];
      model := R.LogImmediate(model, p);
    }

    /** Calls back the next immediate payload; the callback may notify. */
    method CallOneImmediate(react: (P, nat) -> seq<R.Notice<P>>)
      requires Wired() && immediate.Next()
      modifies this, immediate`out, ppq, nodes, uneven, even
      ensures Wired() && immediate.out == old(immediate.out) + 1 <= |immediate.items| && runnable == old(runnable)
      ensures immediate.items == old(immediate.items) && uneven.out == old(uneven.out) && even.out == old(even.out)
      ensures old(nodes) <= nodes && fresh(nodes - old(nodes))
      ensures var q, p := old(model), immediate.items[old(immediate.out)];
              model == R.NotifyAll(R.LogImmediate(q, p), react(p, R.Count(q)))
    {
      var x, count := TakeImmediate();
      React(react(x, count));
    }

    /** The immediate part of the callback process. */
    method RunImmediate(react: (P, nat) -> seq<R.Notice<P>>)
      requires Valid()
      modifies this, immediate, ppq, nodes, uneven, even
      ensures Valid() && old(nodes) <= nodes && fresh(nodes - old(nodes))
      ensures model == R.AfterImmediate(old(model), react)
    {
      R.ImmediatePartReacts(model, react);
      LoopImmediate(react);
      EndImmediate();
    }

    method LoopImmediate(react: (P, nat) -> seq<R.Notice<P>>)
      requires Valid()
      modifies this, immediate`out, ppq, nodes, uneven, even
      ensures Wired() && uneven.out == even.out == 0
      ensures old(nodes) <= nodes && fresh(nodes - old(nodes))
      ensures model == R.CallImmediates(old(model), react, old(model).immediate)
    {
      ghost var goal, all := R.CallImmediates(model, react, model.immediate), immediate.items;
      assert all[0..] == all;
      while immediate.Next()
        invariant Wired() && uneven.out == even.out == 0 && immediate.items == all
        invariant old(nodes) <= nodes && fresh(nodes - old(nodes))
        invariant R.CallImmediates(model, react, all[immediate.out..]) == goal
        decreases |all| - immediate.out
      {
        R.FromNext(all, immediate.out);
        CallOneImmediate(react);
      }
    }

    method EndImmediate()
      requires Wired() && uneven.out == even.out == 0
      modifies this`runnable, this`model, immediate
      ensures Valid() && model == old(model).(immediate := [], runnable := false)
    {
      immediate.Reset();
      runnable := false;
      model := model.(immediate := [], runnable := false);
    }

    /** The lists for this delta cycle and for the next one. */
    ghost predicate Lined(due: DeltaList<P>, coming: DeltaList<P>)
      reads `deltaCount
    {
      if M.Odd(deltaCount) then due == uneven && coming == even else due == even && coming == uneven
    }

    /** Takes the next payload of this delta cycle. */
    method TakeDelta(due: DeltaList<P>) returns (p: P, count: nat)
      requires Wired() && due in {uneven, even} && due.items == M.Due(model) && due.Next()
      modifies this`deltaLog, this`model, due`out
      ensures Wired() && due.out == old(due.out) + 1 <= |due.items|
      ensures p == due.items[old(due.out)] && count == R.Count(old(model)) && model == R.LogOneDelta(old(model), p)
    {
      count := Calls();
      p := due.Get();
      deltaLog := deltaLog + [M.DeltaCall(p, deltaCount)];
      model := R.LogOneDelta(model, p);
    }

    /** The list is being read, and calling back the rest of it leads to the goal. */
    ghost predicate Reading(due: DeltaList<P>, coming: DeltaList<P>, react: (P, nat) -> seq<R.Notice<P>>, goal: M.Queue<P>)
      reads this, ppq, ppq.live, ppq.free, uneven, even, immediate
    {
      Wired() && Lined(due, coming) && coming.out == 0 && R.CallDeltas(model, react, due.items[due.out..]) == goal
    }

    method CallOneDelta(due: DeltaList<P>, ghost coming: DeltaList<P>, react: (P, nat) -> seq<R.Notice<P>>,
                        ghost goal: M.Queue<P>)
      requires Reading(due, coming, react, goal) && due.Next()
      modifies this, ppq, nodes, uneven, even
      ensures Reading(due, coming, react, goal) && due.out == old(due.out) + 1 <= |due.items|
      ensures due.items == old(due.items) && old(nodes) <= nodes && fresh(nodes - old(nodes))
    {
      R.FromNext(due.items, due.out);
      var x, count := TakeDelta(due);
      R.NotifyKeeps(model, react(x, count));
      React(react(x, count));
    }

    /** The delta part of the callback process. */
    method RunDelta(react: (P, nat) -> seq<R.Notice<P>>)
      requires Valid()
      modifies this, ppq, nodes, uneven, even
      ensures Valid() && old(nodes) <= nodes && fresh(nodes - old(nodes))
      ensures model == R.AfterDelta(old(model), react)
    {
      R.DeltaPartReacts(model, react);
      if deltaCount % 2 == 1 {
        LoopDelta(uneven, even, react);
        EndDeltaPart(uneven, even);
      } else {
        LoopDelta(even, uneven, react);
        EndDeltaPart(even, uneven);
      }
    }

    method LoopDelta(due: DeltaList<P>, ghost coming: DeltaList<P>, react: (P, nat) -> seq<R.Notice<P>>)
      requires Valid() && Lined(due, coming)
      modifies this, ppq, nodes, uneven, even
      ensures Wired() && Lined(due, coming) && coming.out == 0
      ensures old(nodes) <= nodes && fresh(nodes - old(nodes))
      ensures model == R.CallDeltas(old(model), react, old(due.items))
    {
      ghost var goal, all := R.CallDeltas(model, react, due.items), due.items;
      assert all[0..] == all;
      while due.Next()
        invariant Reading(due, coming, react, goal) && due.items == all
        invariant old(nodes) <= nodes && fresh(nodes - old(nodes))
        decreases |all| - due.out
      {
        CallOneDelta(due, coming, react, goal);
      }
    }

    method EndDeltaPart(due: DeltaList<P>, coming: DeltaList<P>)
      requires Wired() && immediate.out == 0 && Lined(due, coming) && coming.out == 0
      modifies this`pending, this`model, due
      ensures Valid() && model == R.RearmDelta(R.ClearDue(old(model)))
    {
      due.Reset();
      model := R.ClearDue(model);
      NotifyComing(coming);
    }

    /** The event is notified for the payloads of the next delta cycle. */
    method NotifyComing(coming: DeltaList<P>)
      requires Valid() && coming in {uneven, even} && coming.items == M.Coming(model)
      modifies this`pending, this`model
      ensures Valid() && model == R.RearmDelta(old(model))
    {
      if coming.size != 0 { pending := M.NextDelta; }
      model := R.RearmDelta(model);
    }

    /** Some timed payload is due. */
    method TopIsDue(time: nat) returns (due: bool)
      requires Wired() && time == now
      ensures due == R.IsDue(model)
    {
      due := false;
      if ppq.size != 0 {
        var e := ppq.Top();
        due := e.t == time;
      }
    }

    /** Calls back the first timed payload, which stays in the list meanwhile. */
    method CallTop() returns (p: P, count: nat)
      requires Wired() && R.IsDue(model)
      modifies this`timedLog, this`model
      ensures Wired() && p == old(model).timed[0].p && count == R.Count(old(model)) && model == R.LogTop(old(model))
    {
      count := Calls();
      var e := ppq.Top();
      timedLog := timedLog + [M.TimedCall(e, now)];
      model := R.LogTop(model);
      p := e.p;
    }

    method DropTop()
      requires Wired() && model.timed != []
      modifies this`model, ppq, nodes
      ensures Wired() && model == R.DropTop(old(model))
    {
      ppq.DeleteTop();
      model := R.DropTop(model);
    }

    method CallOneTimed(react: (P, nat) -> seq<R.Notice<P>>)
      requires Valid() && R.IsDue(model)
      modifies this, ppq, nodes, uneven, even
      ensures Valid() && model == R.CallTopReacting(old(model), react)
      ensures now == old(now) && |R.DuePayloads(model)| + 1 == |R.DuePayloads(old(model))|
      ensures old(nodes) <= nodes && fresh(nodes - old(nodes))
    {
      R.CallTopReactingDoes(model, react);
      var p, count := CallTop();
      React(react(p, count));
      DropTop();
    }

    /** The timed part of the callback process, which notifies the event again for what is left. */
    method RunTimed(react: (P, nat) -> seq<R.Notice<P>>)
      requires Valid()
      modifies this, ppq, nodes, uneven, even
      ensures Valid() && old(nodes) <= nodes && fresh(nodes - old(nodes))
      ensures model == R.AfterTimed(old(model), react)
    {
      R.TimedPartReacts(model, react);
      if ppq.size == 0 { return; }
      LoopTimed(react);
      NotifyRest();
    }

    method LoopTimed(react: (P, nat) -> seq<R.Notice<P>>)
      requires Valid()
      modifies this, ppq, nodes, uneven, even
      ensures Valid() && old(nodes) <= nodes && fresh(nodes - old(nodes))
      ensures model == R.CallTops(old(model), react, |R.DuePayloads(old(model))|)
    {
      var time := now;
      ghost var goal := R.CallTops(model, react, |R.DuePayloads(model)|);
      var due := TopIsDue(time);
      while due
        invariant Valid() && now == time && due == R.IsDue(model)
        invariant old(nodes) <= nodes && fresh(nodes - old(nodes))
        invariant R.CallTops(model, react, |R.DuePayloads(model)|) == goal
        decreases |R.DuePayloads(model)|
      {
        CallOneTimed(react);
        due := TopIsDue(time);
      }
    }

    method NotifyRest()
      requires Valid()
      modifies this`pending, this`model
      ensures Valid() && model == M.Rearm(old(model))
    {
      if ppq.size != 0 {
        var top := ppq.Top();
        pending := M.NotifyAt(pending, top.t);
      }
      model := M.Rearm(model);
    }

    /** The callback process. */
    method Fec(react: (P, nat) -> seq<R.Notice<P>>)
      requires Valid()
      modifies this, ppq, nodes, uneven, even, immediate
      ensures Valid() && model == R.CallbackReacting(old(model), react)
      ensures old(nodes) <= nodes && fresh(nodes - old(nodes))
    {
      ghost var q := model;
      RunImmediate(react);
      RunQueued(react);
      R.PartsReact(q, react);
    }

    /** The parts of it for payloads that wait for their delta cycle or their time. */
    method RunQueued(react: (P, nat) -> seq<R.Notice<P>>)
      requires Valid()
      modifies this, ppq, nodes, uneven, even
      ensures Valid() && model == R.AfterTimed(R.AfterDelta(old(model), react), react)
      ensures old(nodes) <= nodes && fresh(nodes - old(nodes))
    {
      RunDelta(react);
      RunTimed(react);
    }

    /** The kernel ends a delta cycle: a notification for the next one triggers. */
    method EndDelta()
      requires Valid() && M.Enabled(model, M.EndDelta)
      modifies `deltaCount, `pending, `runnable, `model
      ensures Valid() && model == M.Do(old(model), M.EndDelta)
    {
      deltaCount := deltaCount + 1;
      if pending == M.NextDelta {
        pending, runnable := M.NotPending, true;
      }
      model := M.Do(model, M.EndDelta);
    }

    /** The kernel advances time to the next pending notification, or less far. */
    method Advance(to: nat)
      requires Valid() && M.Enabled(model, M.Advance(to))
      modifies `now, `pending, `runnable, `model
      ensures Valid() && model == M.Do(old(model), M.Advance(to))
    {
      now := to;
      if pending == M.AtTime(to) {
        pending, runnable := M.NotPending, true;
      }
      model := M.Do(model, M.Advance(to));
    }
  }
}
