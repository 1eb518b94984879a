/** The payload event queue together with the part of the kernel it depends on, as a state machine:
    the queues, the one pending notification of its event, and the callbacks made so far. */
module PeqMachine {
  import opened TimeOrder

  /** The one pending notification of an event. */
  datatype Pending = NotPending | NextDelta | AtTime(at: nat)

  /** A callback of a timed payload and the time it happened; of a delta payload and the delta count
      it happened in. */
  datatype TimedCall<+P> = TimedCall(entry: Entry<P>, at: nat)
  datatype DeltaCall<+P> = DeltaCall(p: P, at: nat)

  datatype Queue<+P> = Queue(
    timed: seq<Entry<P>>, uneven: seq<P>, even: seq<P>, immediate: seq<P>,
    now: nat, deltaCount: nat, pending: Pending, runnable: bool,
    timedLog: seq<TimedCall<P>>, deltaLog: seq<DeltaCall<P>>, immediateLog: seq<P>)

  /** What was notified and not cancelled: timed payloads in the order of notification, delta
      payloads with the delta count they are expected in, immediate payloads. */
  datatype History<+P> = History(timed: seq<Entry<P>>, delta: seq<DeltaCall<P>>, immediate: seq<P>)

  datatype Step<+P> =
    | Notify(p: P, delay: nat)
    | NotifyNow(p: P)
    | CancelAll
    | RunCallback
    | EndDelta
    | Advance(to: nat)

  function Start<P>(): Queue<P> {
    Queue([], [], [], [], 0, 0, NotPending, false, [], [], [])
  }

  predicate Odd(n: nat) { n % 2 == 1 }

  /** The delta payloads due in this delta cycle, and those due in the next one. */
  function Due<P>(q: Queue<P>): seq<P> {
    if Odd(q.deltaCount) then q.uneven else q.even
  }

  function Coming<P>(q: Queue<P>): seq<P> {
    if Odd(q.deltaCount) then q.even else q.uneven
  }

  /** Notification with a delay: an earlier pending notification stays, a later one is replaced. */
  function NotifyAt(pending: Pending, at: nat): Pending {
    match pending
    case NotPending => AtTime(at)
    case NextDelta => NextDelta
    case AtTime(before) => if before <= at then pending else AtTime(at)
  }

  /** How many entries at the front are due at this time. */
  function DueCount<P>(timed: seq<Entry<P>>, now: nat): (k: nat)
    ensures k <= |timed|
    ensures forall i :: 0 <= i < k ==> timed[i].t == now
    ensures k < |timed| ==> timed[k].t != now
  {
    if timed == [] || timed[0].t != now then 0 else 1 + DueCount(timed[1..], now)
  }

  function TimedCalls<P>(timed: seq<Entry<P>>, at: nat): (calls: seq<TimedCall<P>>)
    ensures |calls| == |timed| && forall i :: 0 <= i < |calls| ==> calls[i] == TimedCall(timed[i], at)
  {
    seq(|timed|, i requires 0 <= i < |timed| => TimedCall(timed[i], at))
  }

  function DeltaCalls<P>(ps: seq<P>, at: nat): (calls: seq<DeltaCall<P>>)
    ensures |calls| == |ps| && forall i :: 0 <= i < |calls| ==> calls[i] == DeltaCall(ps[i], at)
  {
    seq(|ps|, i requires 0 <= i < |ps| => DeltaCall(ps[i], at))
  }

  function Entries<P>(calls: seq<TimedCall<P>>): (q: seq<Entry<P>>)
    ensures |q| == |calls| && forall i :: 0 <= i < |q| ==> q[i] == calls[i].entry
  {
    seq(|calls|, i requires 0 <= i < |calls| => calls[i].entry)
  }

  /** The callback process calls back the immediate payloads, */
  function CallImmediate<P>(q: Queue<P>): Queue<P> {
    q.(immediate := [], runnable := false, immediateLog := q.immediateLog + q.immediate)
  }

  /** then those due in this delta cycle, and notifies the event for those due in the next one, */
  function CallDelta<P>(q: Queue<P>): Queue<P> {
    q.(uneven := if Odd(q.deltaCount) then [] else q.uneven,
       even := if Odd(q.deltaCount) then q.even else [],
       deltaLog := q.deltaLog + DeltaCalls(Due(q), q.deltaCount),
       pending := if Coming(q) != [] then NextDelta else q.pending)
  }

  /** then the timed ones that are due now, */
  function CallDue<P>(q: Queue<P>): Queue<P> {
    var k := DueCount(q.timed, q.now);
    q.(timed := q.timed[k..], timedLog := q.timedLog + TimedCalls(q.timed[..k], q.now))
  }

  /** and notifies the event for the first one left. */
  function Rearm<P>(q: Queue<P>): Queue<P> {
    if q.timed != [] then q.(pending := NotifyAt(q.pending, q.timed[0].t)) else q
  }

  function CallTimed<P>(q: Queue<P>): Queue<P> {
    Rearm(CallDue(q))
  }

  function Callback<P>(q: Queue<P>): Queue<P> {
    CallTimed(CallDelta(CallImmediate(q)))
  }

  /** When the kernel takes a step: processes run before a delta cycle ends, and time advances only
      when nothing is left for it, never past a pending notification. */
  predicate Enabled<P>(q: Queue<P>, step: Step<P>) {
    match step
    case RunCallback => q.runnable
    case EndDelta => !q.runnable
    case Advance(to) => !q.runnable && q.pending != NextDelta && q.now < to && (q.pending.AtTime? ==> to <= q.pending.at)
    case _ => true
  }

  /** A payload for the next delta cycle is queued: in an uneven cycle in the list for even ones and
      the other way round. */
  function NotifyNext<P>(q: Queue<P>, p: P): Queue<P> {
    if Odd(q.deltaCount) then q.(even := q.even + [p], pending := NextDelta)
    else q.(uneven := q.uneven + [p], pending := NextDelta)
  }

  /** A timed payload is queued, and the event notified for its due time. */
  function NotifyLater<P>(q: Queue<P>, e: Entry<P>): Queue<P> {
    q.(timed := Insert(q.timed, e), pending := NotifyAt(q.pending, e.t))
  }

  function Do<P>(q: Queue<P>, step: Step<P>): Queue<P> {
    match step
    case Notify(p, delay) =>
      if delay == 0 then NotifyNext(q, p) else NotifyLater(q, Entry(p, q.now + delay, q.deltaCount))
    case NotifyNow(p) => q.(immediate := q.immediate + [p], pending := NotPending, runnable := true)
    case CancelAll => q.(timed := [], uneven := [], even := [], immediate := [], pending := NotPending)
    case RunCallback => Callback(q)
    case EndDelta =>
      if q.pending == NextDelta then q.(deltaCount := q.deltaCount + 1, pending := NotPending, runnable := true)
      else q.(deltaCount := q.deltaCount + 1)
    case Advance(to) =>
      if q.pending == AtTime(to) then q.(now := to, pending := NotPending, runnable := true) else q.(now := to)
  }

  /** The history after a step; cancelling strikes out everything not called back yet. */
  function Record<P>(h: History<P>, q: Queue<P>, step: Step<P>): History<P> {
    match step
    case Notify(p, delay) =>
      if delay == 0 then h.(delta := h.delta + [DeltaCall(p, q.deltaCount + 1)])
      else h.(timed := h.timed + [Entry(p, q.now + delay, q.deltaCount)])
    case NotifyNow(p) => h.(immediate := h.immediate + [p])
    case CancelAll => History(Entries(q.timedLog), q.deltaLog, q.immediateLog)
    case _ => h
  }

  /** Whenever something is queued, the callback process is going to run no later than it is due. */
  ghost predicate Armed<P>(q: Queue<P>) {
    && (Due(q) != [] || q.immediate != [] ==> q.runnable)
    && (Coming(q) != [] ==> q.runnable || q.pending == NextDelta)
    && (q.timed != [] ==>
          && q.now <= q.timed[0].t
          && (q.runnable || q.now < q.timed[0].t)
          && (q.runnable || q.pending == NextDelta || (q.pending.AtTime? && q.pending.at <= q.timed[0].t)))
    && (q.pending.AtTime? ==> q.now < q.pending.at)
  }

  /** Timed payloads: each callback came exactly at its due time; followed by what is still queued,
      the callbacks are the stable sort by due time of all that was notified. */
  ghost predicate TimedOk<P>(q: Queue<P>, h: History<P>) {
    InTime(q.timedLog, q.now) && Entries(q.timedLog) + q.timed == InsertAll(h.timed)
  }

  ghost predicate InTime<P>(log: seq<TimedCall<P>>, now: nat) {
    forall i :: 0 <= i < |log| ==> log[i].at == log[i].entry.t <= now
  }

  /** Delta payloads: the callbacks so far, those due and those coming are the expected ones, each in
      the delta cycle after its notification. Immediate payloads likewise. */
  ghost predicate DeltaOk<P>(q: Queue<P>, h: History<P>) {
    && q.deltaLog + DeltaCalls(Due(q), q.deltaCount) + DeltaCalls(Coming(q), q.deltaCount + 1) == h.delta
    && q.immediateLog + q.immediate == h.immediate
  }

  ghost predicate Inv<P>(q: Queue<P>, h: History<P>) {
    Armed(q) && TimedOk(q, h) && DeltaOk(q, h)
  }

  /** The queued entries are sorted, and so are the ones called back. */
  lemma BothSorted<P>(log: seq<Entry<P>>, timed: seq<Entry<P>>, all: seq<Entry<P>>)
    requires log + timed == InsertAll(all)
    ensures Sorted(log) && Sorted(timed)
    ensures forall i, j :: 0 <= i < |log| && 0 <= j < |timed| ==> log[i].t <= timed[j].t
  {
    var whole := InsertAll(all);
    InsertAllIsStableSort(all, 0);
    assert forall i :: 0 <= i < |log| ==> log[i] == whole[i];
    assert forall i :: 0 <= i < |timed| ==> timed[i] == whole[|log| + i];
  }

  lemma NotifyStaysArmed<P>(q: Queue<P>, p: P, delay: nat)
    requires Armed(q)
    ensures Armed(Do(q, Notify(p, delay)))
  {
  }

  lemma CallbackStaysArmed<P>(q: Queue<P>)
    requires Armed(q) && Sorted(q.timed)
    ensures Armed(Callback(q))
  {
    var k := DueCount(q.timed, q.now);
    if k < |q.timed| {
      assert q.timed[0].t <= q.timed[k].t;
      assert q.now < q.timed[k..][0].t;
    }
  }

  lemma KernelStaysArmed<P>(q: Queue<P>, step: Step<P>)
    requires Armed(q) && Enabled(q, step) && (step.EndDelta? || step.Advance?)
    ensures Armed(Do(q, step))
  {
  }

  lemma StaysArmed<P>(q: Queue<P>, h: History<P>, step: Step<P>)
    requires Inv(q, h) && Enabled(q, step)
    ensures Armed(Do(q, step))
  {
    match step {
      case Notify(p, delay) => NotifyStaysArmed(q, p, delay);
      case RunCallback =>
        BothSorted(Entries(q.timedLog), q.timed, h.timed);
        CallbackStaysArmed(q);
      case EndDelta => KernelStaysArmed(q, step);
      case Advance(to) => KernelStaysArmed(q, step);
      case _ =>
    }
  }

  lemma NotifyStaysTimedOk<P>(q: Queue<P>, h: History<P>, p: P, delay: nat)
    requires TimedOk(q, h)
    ensures TimedOk(Do(q, Notify(p, delay)), Record(h, q, Notify(p, delay)))
  {
    if delay != 0 {
      var x := Entry(p, q.now + delay, q.deltaCount);
      var xs := h.timed + [x];
      InsertBehind(Entries(q.timedLog), q.timed, x);
      assert xs[..|xs| - 1] == h.timed;
    }
  }

  lemma MoreInTime<P>(log: seq<TimedCall<P>>, front: seq<Entry<P>>, now: nat)
    requires InTime(log, now) && forall i :: 0 <= i < |front| ==> front[i].t == now
    ensures InTime(log + TimedCalls(front, now), now)
  {
  }

  lemma EntriesOfMore<P>(log: seq<TimedCall<P>>, front: seq<Entry<P>>, now: nat)
    ensures Entries(log + TimedCalls(front, now)) == Entries(log) + front
  {
  }

  lemma Rejoin<P>(log: seq<Entry<P>>, timed: seq<Entry<P>>, k: nat)
    requires k <= |timed|
    ensures log + timed[..k] + timed[k..] == log + timed
  {
  }

  lemma CallingDueKeeps<P>(log: seq<TimedCall<P>>, timed: seq<Entry<P>>, now: nat)
    requires InTime(log, now)
    ensures var k := DueCount(timed, now);
            var log' := log + TimedCalls(timed[..k], now);
            InTime(log', now) && Entries(log') + timed[k..] == Entries(log) + timed
  {
    var k := DueCount(timed, now);
    MoreInTime(log, timed[..k], now);
    EntriesOfMore(log, timed[..k], now);
    Rejoin(Entries(log), timed, k);
  }

  lemma CallbackStaysTimedOk<P>(q: Queue<P>, h: History<P>)
    requires TimedOk(q, h)
    ensures TimedOk(Callback(q), h)
  {
    CallingDueKeeps(q.timedLog, q.timed, q.now);
  }

  lemma StaysTimedOk<P>(q: Queue<P>, h: History<P>, step: Step<P>)
    requires TimedOk(q, h) && Enabled(q, step)
    ensures TimedOk(Do(q, step), Record(h, q, step))
  {
    match step {
      case Notify(p, delay) => NotifyStaysTimedOk(q, h, p, delay);
      case RunCallback => CallbackStaysTimedOk(q, h);
      case CancelAll =>
        BothSorted(Entries(q.timedLog), q.timed, h.timed);
        InsertAllSorted(Entries(q.timedLog));
      case _ =>
    }
  }

  lemma NotifyStaysDeltaOk<P>(q: Queue<P>, h: History<P>, p: P)
    requires DeltaOk(q, h)
    ensures DeltaOk(Do(q, Notify(p, 0)), Record(h, q, Notify(p, 0)))
  {
    var at := q.deltaCount + 1;
    var q' := Do(q, Notify(p, 0));
    assert DeltaCalls(Coming(q'), at) == DeltaCalls(Coming(q), at) + [DeltaCall(p, at)];
    assert q.deltaLog + DeltaCalls(Due(q), q.deltaCount) + DeltaCalls(Coming(q'), at)
           == q.deltaLog + DeltaCalls(Due(q), q.deltaCount) + DeltaCalls(Coming(q), at) + [DeltaCall(p, at)];
  }

  lemma CallbackStaysDeltaOk<P>(q: Queue<P>, h: History<P>)
    requires DeltaOk(q, h)
    ensures DeltaOk(Callback(q), h)
  {
    var q' := Callback(q);
    assert q'.deltaLog + DeltaCalls(Due(q'), q.deltaCount) == q.deltaLog + DeltaCalls(Due(q), q.deltaCount);
  }

  lemma EndDeltaStaysDeltaOk<P>(q: Queue<P>, h: History<P>)
    requires DeltaOk(q, h) && Armed(q) && !q.runnable
    ensures DeltaOk(Do(q, EndDelta), h)
  {
    var q' := Do(q, EndDelta);
    assert Due(q) == [] && Due(q') == Coming(q) && Coming(q') == [];
    assert DeltaCalls(Due(q), q.deltaCount) == [] == DeltaCalls(Coming(q'), q'.deltaCount + 1);
  }

  lemma StaysDeltaOk<P>(q: Queue<P>, h: History<P>, step: Step<P>)
    requires Inv(q, h) && Enabled(q, step)
    ensures DeltaOk(Do(q, step), Record(h, q, step))
  {
    match step {
      case Notify(p, delay) => if delay == 0 { NotifyStaysDeltaOk(q, h, p); }
      case NotifyNow(p) => assert q.immediateLog + (q.immediate + [p]) == h.immediate + [p];
      case CancelAll => assert DeltaCalls<P>([], q.deltaCount) == [] == DeltaCalls<P>([], q.deltaCount + 1);
      case RunCallback => CallbackStaysDeltaOk(q, h);
      case EndDelta => EndDeltaStaysDeltaOk(q, h);
      case Advance(to) =>
    }
  }

  function Play<P>(q: Queue<P>, steps: seq<Step<P>>): Queue<P> {
    if steps == [] then q else Do(Play(q, steps[..|steps| - 1]), steps[|steps| - 1])
  }

  function PlayHistory<P>(q: Queue<P>, steps: seq<Step<P>>): History<P> {
    if steps == [] then History([], [], []) else
      var front := steps[..|steps| - 1];
      Record(PlayHistory(q, front), Play(q, front), steps[|steps| - 1])
  }

  /** A run: every step was enabled when it was taken. */
  ghost predicate Feasible<P>(q: Queue<P>, steps: seq<Step<P>>) {
    forall i :: 0 <= i < |steps| ==> Enabled(Play(q, steps[..i]), steps[i])
  }

  /** Over every run of notifications, cancellations, callbacks and kernel steps. */
  lemma {:induction false} RunKeepsInv<P>(steps: seq<Step<P>>)
    requires Feasible(Start(), steps)
    ensures Inv(Play(Start(), steps), PlayHistory(Start(), steps))
  {
    if steps != [] {
      var front, last := steps[..|steps| - 1], steps[|steps| - 1];
      forall i | 0 <= i < |front| ensures Enabled(Play(Start<P>(), front[..i]), front[i]) {
        assert front[..i] == steps[..i];
      }
      RunKeepsInv(front);
      var q, h := Play(Start<P>(), front), PlayHistory(Start<P>(), front);
      assert Enabled(q, last);
      StaysArmed(q, h, last);
      StaysTimedOk(q, h, last);
      StaysDeltaOk(q, h, last);
    }
  }

  /** What is still queued is due later. */
  lemma QueuedIsLater<P>(q: Queue<P>, h: History<P>)
    requires Inv(q, h) && !q.runnable
    ensures forall i :: 0 <= i < |q.timed| ==> q.now < q.timed[i].t
  {
    BothSorted(Entries(q.timedLog), q.timed, h.timed);
    assert forall i :: 0 <= i < |q.timed| ==> q.timed[0].t <= q.timed[i].t;
  }

  lemma CalledOrQueued<P>(log: seq<Entry<P>>, timed: seq<Entry<P>>, all: seq<Entry<P>>, e: Entry<P>)
    requires log + timed == InsertAll(all)
    ensures multiset(log)[e] + multiset(timed)[e] == multiset(all)[e]
  {
    InsertAllKeeps(all);
    assert multiset(log + timed) == multiset(log) + multiset(timed);
  }

  /** So whenever the callback process is not waiting to run, the timed payloads called back are
      exactly those notified, not cancelled and due by now, each called once and at its due time. */
  lemma CalledIffDue<P>(q: Queue<P>, h: History<P>, e: Entry<P>)
    requires Inv(q, h) && !q.runnable
    ensures multiset(Entries(q.timedLog))[e] == if e.t <= q.now then multiset(h.timed)[e] else 0
    ensures forall i :: 0 <= i < |q.timedLog| ==> q.timedLog[i].at == q.timedLog[i].entry.t
  {
    CalledOrQueued(Entries(q.timedLog), q.timed, h.timed, e);
    if e.t <= q.now {
      QueuedIsLater(q, h);
      assert e !in q.timed;
    } else {
      assert e !in Entries(q.timedLog);
    }
  }

  /** And payloads due at the same time are called back in the order they were notified in. */
  lemma TiesInNotifyOrder<P>(q: Queue<P>, h: History<P>, t: nat)
    requires Inv(q, h) && !q.runnable && t <= q.now
    ensures DueAt(Entries(q.timedLog), t) == DueAt(h.timed, t)
  {
    InsertAllIsStableSort(h.timed, t);
    DueAtAppend(Entries(q.timedLog), q.timed, t);
    QueuedIsLater(q, h);
    NoneDue(q.timed, t);
  }

  /** Delta payloads have all been called back but those notified in this very delta cycle, in order
      and each in the cycle after its notification; immediate ones have all been. */
  lemma DeltaCalledInNext<P>(q: Queue<P>, h: History<P>)
    requires Inv(q, h) && !q.runnable
    ensures q.deltaLog + DeltaCalls(Coming(q), q.deltaCount + 1) == h.delta
    ensures q.immediateLog == h.immediate
  {
    assert q.deltaLog + DeltaCalls(Due(q), q.deltaCount) == q.deltaLog;
  }

  /** An entry notified and not cancelled has been called back exactly if it is due by now; every call
      came at its due time, and those due at the same time in the order of notification; delta payloads
      have been called back, in order, but those of this very delta cycle, immediate ones all. */
  ghost predicate CalledWhatIsDue<P>(q: Queue<P>, h: History<P>, e: Entry<P>, t: nat) {
    && multiset(Entries(q.timedLog))[e] == (if e.t <= q.now then multiset(h.timed)[e] else 0)
    && (forall i :: 0 <= i < |q.timedLog| ==> q.timedLog[i].at == q.timedLog[i].entry.t)
    && (t <= q.now ==> DueAt(Entries(q.timedLog), t) == DueAt(h.timed, t))
    && q.deltaLog + DeltaCalls(Coming(q), q.deltaCount + 1) == h.delta
    && q.immediateLog == h.immediate
  }

  lemma AtRest<P>(q: Queue<P>, h: History<P>, e: Entry<P>, t: nat)
    requires Inv(q, h) && !q.runnable
    ensures CalledWhatIsDue(q, h, e, t)
  {
    CalledIffDue(q, h, e);
    if t <= q.now { TiesInNotifyOrder(q, h, t); }
    DeltaCalledInNext(q, h);
  }

  /** From the start, on every run, whenever the callback process is not waiting to run. */
  lemma EveryRunCallsWhatIsDue<P>(steps: seq<Step<P>>, e: Entry<P>, t: nat)
    requires Feasible(Start(), steps) && !Play(Start(), steps).runnable
    ensures CalledWhatIsDue(Play(Start(), steps), PlayHistory(Start(), steps), e, t)
  {
    RunKeepsInv(steps);
    AtRest(Play(Start(), steps), PlayHistory(Start(), steps), e, t);
  }

  /** Step k of a run is a notification that is not cancelled later. */
  ghost predicate NotifiesAt<P>(all: seq<Step<P>>, k: nat) {
    k < |all| && all[k].Notify? && forall i :: k < i < |all| ==> !all[i].CancelAll?
  }

  lemma RecordKeeps<P>(h: History<P>, q: Queue<P>, step: Step<P>, e: Entry<P>, c: DeltaCall<P>)
    requires !step.CancelAll?
    ensures e in h.timed ==> e in Record(h, q, step).timed
    ensures c in h.delta ==> c in Record(h, q, step).delta
  {
  }

  lemma RecordAdds<P>(h: History<P>, q: Queue<P>, n: Step<P>)
    requires n.Notify?
    ensures n.delay != 0 ==> Entry(n.p, q.now + n.delay, q.deltaCount) in Record(h, q, n).timed
    ensures n.delay == 0 ==> DeltaCall(n.p, q.deltaCount + 1) in Record(h, q, n).delta
  {
    var h' := Record(h, q, n);
    if n.delay != 0 { assert h'.timed[|h.timed|] == Entry(n.p, q.now + n.delay, q.deltaCount); }
    else { assert h'.delta[|h.delta|] == DeltaCall(n.p, q.deltaCount + 1); }
  }

  /** Then it stays on record, with the time and the delta count it was made at. */
  lemma {:induction false} StaysOnRecord<P>(all: seq<Step<P>>, k: nat, q: Queue<P>)
    requires NotifiesAt(all, k) && q == Play(Start(), all[..k])
    ensures var h, n := PlayHistory(Start(), all), all[k];
            && (n.delay != 0 ==> Entry(n.p, q.now + n.delay, q.deltaCount) in h.timed)
            && (n.delay == 0 ==> DeltaCall(n.p, q.deltaCount + 1) in h.delta)
    decreases |all|
  {
    var front, last, n := all[..|all| - 1], all[|all| - 1], all[k];
    var h0, q0 := PlayHistory(Start<P>(), front), Play(Start<P>(), front);
    if k < |front| {
      assert front[..k] == all[..k] && !last.CancelAll?;
      StaysOnRecord(front, k, q);
      RecordKeeps(h0, q0, last, Entry(n.p, q.now + n.delay, q.deltaCount), DeltaCall(n.p, q.deltaCount + 1));
    } else {
      assert front == all[..k];
      RecordAdds(h0, q0, n);
    }
  }

  /** There has been a callback of this payload at this time. */
  ghost predicate CalledAt<P>(q: Queue<P>, p: P, time: nat) {
    exists k :: 0 <= k < |q.timedLog| && q.timedLog[k].entry.p == p && q.timedLog[k].at == time
  }

  lemma DueWasCalled<P>(q: Queue<P>, h: History<P>, e: Entry<P>)
    requires Inv(q, h) && !q.runnable && e in h.timed && e.t <= q.now
    ensures CalledAt(q, e.p, e.t)
  {
    AtRest(q, h, e, 0);
    assert multiset(h.timed)[e] != 0;
    assert e in Entries(q.timedLog);
    var k :| 0 <= k < |q.timedLog| && Entries(q.timedLog)[k] == e;
  }

  lemma NotComing<P>(q: Queue<P>, h: History<P>, c: DeltaCall<P>)
    requires Inv(q, h) && !q.runnable && c in h.delta && c.at <= q.deltaCount
    ensures c in q.deltaLog
  {
    DeltaCalledInNext(q, h);
    assert c !in DeltaCalls(Coming(q), q.deltaCount + 1);
  }

  lemma OnRunDueWasCalled<P>(all: seq<Step<P>>, e: Entry<P>)
    requires Feasible(Start(), all) && !Play(Start(), all).runnable
    requires e in PlayHistory(Start(), all).timed && e.t <= Play(Start(), all).now
    ensures CalledAt(Play(Start(), all), e.p, e.t)
  {
    RunKeepsInv(all);
    DueWasCalled(Play(Start<P>(), all), PlayHistory(Start<P>(), all), e);
  }

  lemma OnRunNotComing<P>(all: seq<Step<P>>, c: DeltaCall<P>)
    requires Feasible(Start(), all) && !Play(Start(), all).runnable
    requires c in PlayHistory(Start(), all).delta && c.at <= Play(Start(), all).deltaCount
    ensures c in Play(Start(), all).deltaLog
  {
    RunKeepsInv(all);
    NotComing(Play(Start<P>(), all), PlayHistory(Start<P>(), all), c);
  }

  /** A payload notified with a delay, and not cancelled, is called back exactly that much later: once that
      time has come and no callback is waiting to run, there has been a callback of it at that time. */
  lemma CalledAtDelay<P>(all: seq<Step<P>>, k: nat, q: Queue<P>)
    requires NotifiesAt(all, k) && all[k].delay != 0 && Feasible(Start(), all) && !Play(Start(), all).runnable
    requires q == Play(Start(), all[..k]) && q.now + all[k].delay <= Play(Start(), all).now
    ensures CalledAt(Play(Start(), all), all[k].p, q.now + all[k].delay)
  {
    StaysOnRecord(all, k, q);
    OnRunDueWasCalled(all, Entry(all[k].p, q.now + all[k].delay, q.deltaCount));
  }

  /** One notified without a delay, in the very next delta cycle. */
  lemma CalledInNextDelta<P>(all: seq<Step<P>>, k: nat, q: Queue<P>)
    requires NotifiesAt(all, k) && all[k].delay == 0 && Feasible(Start(), all) && !Play(Start(), all).runnable
    requires q == Play(Start(), all[..k]) && q.deltaCount < Play(Start(), all).deltaCount
    ensures DeltaCall(all[k].p, q.deltaCount + 1) in Play(Start(), all).deltaLog
  {
    StaysOnRecord(all, k, q);
    OnRunNotComing(all, DeltaCall(all[k].p, q.deltaCount + 1));
  }
}
