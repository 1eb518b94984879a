/** Callbacks that notify the same queue again, with a delay or for the next delta cycle, while the
    callback process is running. */
module PeqReactions {
  import opened TimeOrder
  import opened PeqMachine

  datatype Notice<+P> = Notice(p: P, delay: nat)

  function NotifyTimed<P>(q: Queue<P>, p: P, delay: nat): Queue<P> {
    NotifyLater(q, Entry(p, q.now + delay, q.deltaCount))
  }

  function NotifyOne<P>(q: Queue<P>, n: Notice<P>): Queue<P> {
    if n.delay == 0 then NotifyNext(q, n.p) else NotifyTimed(q, n.p, n.delay)
  }

  lemma NotifyOneIs<P>(q: Queue<P>, n: Notice<P>, r: Queue<P>)
    requires n.delay == 0 ==> r == NotifyNext(q, n.p)
    requires n.delay != 0 ==> r == NotifyTimed(q, n.p, n.delay)
    ensures r == NotifyOne(q, n)
  {
  }

  function NotifyAll<P>(q: Queue<P>, ns: seq<Notice<P>>): Queue<P>
    decreases |ns|
  {
    if ns == [] then q else NotifyAll(NotifyOne(q, ns[0]), ns[1..])
  }

  lemma {:induction false} NotifyAllAppend<P>(q: Queue<P>, ns: seq<Notice<P>>, more: seq<Notice<P>>)
    ensures NotifyAll(q, ns + more) == NotifyAll(NotifyAll(q, ns), more)
    decreases |ns|
  {
    if ns == [] {
      assert ns + more == more;
    } else {
      assert (ns + more)[1..] == ns[1..] + more;
      NotifyAllAppend(NotifyOne(q, ns[0]), ns[1..], more);
    }
  }

  /** What the callbacks of these payloads notify, one after the other. What a callback does may depend
      on its payload and on how many callbacks there have been. */
  function Reactions<P>(react: (P, nat) -> seq<Notice<P>>, ps: seq<P>, count: nat): seq<Notice<P>> {
    if ps == [] then [] else
      Reactions(react, ps[..|ps| - 1], count) + react(ps[|ps| - 1], count + |ps| - 1)
  }

  function Count<P>(q: Queue<P>): nat {
    |q.timedLog| + |q.deltaLog| + |q.immediateLog|
  }

  /** Notifications do not touch what the callback process works on. */
  lemma {:induction false} NotifyKeeps<P>(q: Queue<P>, ns: seq<Notice<P>>)
    ensures var r := NotifyAll(q, ns);
            && r.now == q.now && r.deltaCount == q.deltaCount && r.runnable == q.runnable && r.immediate == q.immediate
            && r.timedLog == q.timedLog && r.deltaLog == q.deltaLog && r.immediateLog == q.immediateLog
            && Due(r) == Due(q)
    decreases |ns|
  {
    if ns != [] { NotifyKeeps(NotifyOne(q, ns[0]), ns[1..]); }
  }

  /** A change of logs, of the immediate payloads or of the scheduling of the callback process can be
      made before or after notifications. */
  lemma {:induction false} NotifyPastLogs<P>(q: Queue<P>, ns: seq<Notice<P>>, immediate: seq<P>, runnable: bool,
                                            timedLog: seq<TimedCall<P>>, deltaLog: seq<DeltaCall<P>>, immediateLog: seq<P>)
    ensures NotifyAll(q.(immediate := immediate, runnable := runnable, timedLog := timedLog, deltaLog := deltaLog,
                         immediateLog := immediateLog), ns)
            == NotifyAll(q, ns).(immediate := immediate, runnable := runnable, timedLog := timedLog, deltaLog := deltaLog,
                                 immediateLog := immediateLog)
    decreases |ns|
  {
    if ns != [] {
      NotifyPastLogs(NotifyOne(q, ns[0]), ns[1..], immediate, runnable, timedLog, deltaLog, immediateLog);
    }
  }

  /** The list of this delta cycle is emptied. */
  function ClearDue<P>(q: Queue<P>): Queue<P> {
    if Odd(q.deltaCount) then q.(uneven := []) else q.(even := [])
  }

  lemma {:induction false} NotifyPastClear<P>(q: Queue<P>, ns: seq<Notice<P>>)
    ensures NotifyAll(ClearDue(q), ns) == ClearDue(NotifyAll(q, ns))
    decreases |ns|
  {
    if ns != [] {
      assert NotifyOne(ClearDue(q), ns[0]) == ClearDue(NotifyOne(q, ns[0]));
      NotifyPastClear(NotifyOne(q, ns[0]), ns[1..]);
    }
  }

  /** The event is notified for the payloads of the next delta cycle. */
  function RearmDelta<P>(q: Queue<P>): Queue<P> {
    if Coming(q) != [] then q.(pending := NextDelta) else q
  }

  lemma {:induction false} NotifyPastRearmDelta<P>(q: Queue<P>, ns: seq<Notice<P>>)
    ensures NotifyAll(RearmDelta(q), ns) == RearmDelta(NotifyAll(q, ns))
    decreases |ns|
  {
    if ns != [] {
      assert NotifyOne(RearmDelta(q), ns[0]) == RearmDelta(NotifyOne(q, ns[0]));
      NotifyPastRearmDelta(NotifyOne(q, ns[0]), ns[1..]);
    }
  }

  /** The event keeps its earliest notification, so one for the first entry can be made before or
      after an entry is added. */
  lemma RearmPastOne<P>(q: Queue<P>, n: Notice<P>)
    ensures NotifyOne(Rearm(q), n) == Rearm(NotifyOne(q, n))
  {
  }

  lemma {:induction false} NotifyPastRearm<P>(q: Queue<P>, ns: seq<Notice<P>>)
    ensures NotifyAll(Rearm(q), ns) == Rearm(NotifyAll(q, ns))
    decreases |ns|
  {
    if ns != [] {
      RearmPastOne(q, ns[0]);
      NotifyPastRearm(NotifyOne(q, ns[0]), ns[1..]);
    }
  }

  function DropTop<P>(q: Queue<P>): Queue<P>
    requires q.timed != []
  {
    q.(timed := q.timed[1..])
  }

  /** An entry that is due stays first: what is notified meanwhile is due later. So it can be removed
      before or after. */
  lemma {:induction false} NotifyPastDrop<P>(q: Queue<P>, ns: seq<Notice<P>>)
    requires q.timed != [] && q.timed[0].t <= q.now
    ensures var r := NotifyAll(q, ns);
            r.timed != [] && r.timed[0] == q.timed[0] && NotifyAll(DropTop(q), ns) == DropTop(r)
    decreases |ns|
  {
    if ns != [] {
      var q' := NotifyOne(q, ns[0]);
      assert q'.timed[0] == q.timed[0] && NotifyOne(DropTop(q), ns[0]) == DropTop(q');
      NotifyPastDrop(q', ns[1..]);
    }
  }

  /** And nothing else becomes due by it. */
  lemma {:induction false} NotifyAddsNothingDue<P>(q: Queue<P>, ns: seq<Notice<P>>)
    requires q.timed == [] || q.timed[0].t != q.now
    ensures var r := NotifyAll(q, ns); r.timed == [] || r.timed[0].t != q.now
    decreases |ns|
  {
    if ns != [] {
      NotifyAddsNothingDue(NotifyOne(q, ns[0]), ns[1..]);
    }
  }

  predicate IsDue<P>(q: Queue<P>) {
    q.timed != [] && q.timed[0].t == q.now
  }

  /** The first timed payload is called back and removed. */
  function CallTop<P>(q: Queue<P>): Queue<P>
    requires q.timed != []
  {
    DropTop(q).(timedLog := q.timedLog + [TimedCall(q.timed[0], q.now)])
  }

  lemma CallDueFromTop<P>(q: Queue<P>)
    ensures IsDue(q) ==> CallDue(q) == CallDue(CallTop(q))
    ensures !IsDue(q) ==> CallDue(q) == q
  {
    if IsDue(q) {
      var k, rest := DueCount(q.timed, q.now), q.timed[1..];
      assert q.timed[k..] == rest[k - 1..];
      assert TimedCalls(q.timed[..k], q.now) == [TimedCall(q.timed[0], q.now)] + TimedCalls(rest[..k - 1], q.now);
    }
  }

  /** The timed payloads due now, in order. */
  function DuePayloads<P>(q: Queue<P>): seq<P>
    decreases |q.timed|
  {
    if IsDue(q) then [q.timed[0].p] + DuePayloads(CallTop(q)) else []
  }

  lemma {:induction false} NotifyPastTop<P>(q: Queue<P>, ns: seq<Notice<P>>)
    requires IsDue(q)
    ensures var r := NotifyAll(q, ns);
            IsDue(r) && r.timed[0] == q.timed[0] && NotifyAll(CallTop(q), ns) == CallTop(r)
  {
    NotifyKeeps(q, ns);
    NotifyPastDrop(q, ns);
    var d := DropTop(q);
    NotifyPastLogs(d, ns, d.immediate, d.runnable, q.timedLog + [TimedCall(q.timed[0], q.now)], d.deltaLog, d.immediateLog);
    NotifyKeeps(d, ns);
  }

  /** Calling back one due payload after the other. */
  function CallEach<P>(q: Queue<P>): Queue<P>
    decreases |q.timed|
  {
    if IsDue(q) then CallEach(CallTop(q)) else q
  }

  lemma {:induction false} CallEachIsCallDue<P>(q: Queue<P>)
    ensures CallEach(q) == CallDue(q)
    decreases |q.timed|
  {
    CallDueFromTop(q);
    if IsDue(q) { CallEachIsCallDue(CallTop(q)); }
  }

  lemma NotDueStays<P>(q: Queue<P>, ns: seq<Notice<P>>)
    requires !IsDue(q)
    ensures !IsDue(NotifyAll(q, ns))
  {
    NotifyKeeps(q, ns);
    NotifyAddsNothingDue(q, ns);
  }

  lemma {:induction false} NotifyPastCallEach<P>(q: Queue<P>, ns: seq<Notice<P>>)
    ensures NotifyAll(CallEach(q), ns) == CallEach(NotifyAll(q, ns))
    decreases |q.timed|
  {
    if IsDue(q) {
      NotifyPastTop(q, ns);
      NotifyPastCallEach(CallTop(q), ns);
    } else {
      NotDueStays(q, ns);
    }
  }

  lemma {:induction false} SameDuePayloads<P>(q: Queue<P>, ns: seq<Notice<P>>)
    ensures DuePayloads(NotifyAll(q, ns)) == DuePayloads(q)
    decreases |q.timed|
  {
    if IsDue(q) {
      NotifyPastTop(q, ns);
      SameDuePayloads(CallTop(q), ns);
    } else {
      NotDueStays(q, ns);
    }
  }

  lemma NotifyPastCallTimed<P>(q: Queue<P>, ns: seq<Notice<P>>)
    ensures NotifyAll(CallTimed(q), ns) == CallTimed(NotifyAll(q, ns))
  {
    CallEachIsCallDue(q);
    CallEachIsCallDue(NotifyAll(q, ns));
    NotifyPastCallEach(q, ns);
    NotifyPastRearm(CallDue(q), ns);
  }

  function LogDeltas<P>(q: Queue<P>, ps: seq<P>): Queue<P> {
    q.(deltaLog := q.deltaLog + DeltaCalls(ps, q.deltaCount))
  }

  lemma CallDeltaInParts<P>(q: Queue<P>)
    ensures CallDelta(q) == RearmDelta(ClearDue(LogDeltas(q, Due(q))))
  {
  }

  lemma NotifyPastCallDelta<P>(q: Queue<P>, ns: seq<Notice<P>>)
    ensures NotifyAll(CallDelta(q), ns) == CallDelta(NotifyAll(q, ns))
  {
    var r := NotifyAll(q, ns);
    NotifyKeeps(q, ns);
    CallDeltaInParts(q);
    CallDeltaInParts(r);
    NotifyPastRearmDelta(ClearDue(LogDeltas(q, Due(q))), ns);
    NotifyPastClear(LogDeltas(q, Due(q)), ns);
    NotifyPastLogs(q, ns, q.immediate, q.runnable, q.timedLog, LogDeltas(q, Due(q)).deltaLog, q.immediateLog);
  }

  lemma {:induction false} ReactionsAppend<P>(react: (P, nat) -> seq<Notice<P>>, ps: seq<P>, more: seq<P>, count: nat)
    ensures Reactions(react, ps + more, count) == Reactions(react, ps, count) + Reactions(react, more, count + |ps|)
    decreases |more|
  {
    if more == [] {
      assert ps + more == ps;
    } else {
      var front, all := more[..|more| - 1], ps + more;
      assert all[..|all| - 1] == ps + front;
      ReactionsAppend(react, ps, front, count);
    }
  }

  /** The payloads a run of the callback process calls back, in order. */
  function Called<P>(q: Queue<P>): seq<P> {
    q.immediate + Due(q) + DuePayloads(q)
  }

  /** The callback process with callbacks that notify again: what they notify might as well be notified
      right after it. */
  function CallbackReacting<P>(q: Queue<P>, react: (P, nat) -> seq<Notice<P>>): Queue<P> {
    NotifyAll(Callback(q), Reactions(react, Called(q), Count(q)))
  }

  lemma {:induction false} DuePayloadsOf<P>(q: Queue<P>, r: Queue<P>)
    requires q.timed == r.timed && q.now == r.now
    ensures DuePayloads(q) == DuePayloads(r)
    decreases |q.timed|
  {
    if IsDue(q) { DuePayloadsOf(CallTop(q), CallTop(r)); }
  }

  /** The three parts of the process, each with its reactions. */
  function AfterImmediate<P>(q: Queue<P>, react: (P, nat) -> seq<Notice<P>>): Queue<P> {
    NotifyAll(CallImmediate(q), Reactions(react, q.immediate, Count(q)))
  }

  function AfterDelta<P>(q: Queue<P>, react: (P, nat) -> seq<Notice<P>>): Queue<P> {
    NotifyAll(CallDelta(q), Reactions(react, Due(q), Count(q)))
  }

  function AfterTimed<P>(q: Queue<P>, react: (P, nat) -> seq<Notice<P>>): Queue<P> {
    NotifyAll(CallTimed(q), Reactions(react, DuePayloads(q), Count(q)))
  }

  /** The immediate part and the delta part, each with its reactions. */
  lemma TwoPartsReact<P>(q: Queue<P>, react: (P, nat) -> seq<Notice<P>>, v1: Queue<P>, v2: Queue<P>)
    requires v1 == AfterImmediate(q, react)
    requires v2 == NotifyAll(CallDelta(v1), Reactions(react, Due(v1), Count(v1)))
    ensures v2 == NotifyAll(CallDelta(CallImmediate(q)), Reactions(react, q.immediate + Due(q), Count(q)))
  {
    var a, ns := CallImmediate(q), Reactions(react, q.immediate, Count(q));
    NotifyKeeps(a, ns);
    NotifyPastCallDelta(a, ns);
    Regroup(CallDelta(a), ns, CallDelta(v1), react, q.immediate, Due(q), Count(q), Due(v1), Count(v1), v2);
  }

  /** Reactions to some payloads and then to more of them are the reactions to all. */
  lemma JoinReactions<P>(c: Queue<P>, react: (P, nat) -> seq<Notice<P>>, ps: seq<P>, more: seq<P>, count: nat)
    ensures NotifyAll(NotifyAll(c, Reactions(react, ps, count)), Reactions(react, more, count + |ps|))
            == NotifyAll(c, Reactions(react, ps + more, count))
  {
    NotifyAllAppend(c, Reactions(react, ps, count), Reactions(react, more, count + |ps|));
    ReactionsAppend(react, ps, more, count);
  }

  /** What the first two parts notify changes neither what is due nor how much has been called back. */
  lemma ThirdPartSees<P>(b: Queue<P>, ns: seq<Notice<P>>)
    ensures DuePayloads(NotifyAll(b, ns)) == DuePayloads(b) && Count(NotifyAll(b, ns)) == Count(b)
  {
    NotifyKeeps(b, ns);
    SameDuePayloads(b, ns);
  }

  lemma AfterTwoParts<P>(q: Queue<P>)
    ensures var b := CallDelta(CallImmediate(q));
            Count(b) == Count(q) + |q.immediate + Due(q)| && DuePayloads(b) == DuePayloads(q)
  {
    DuePayloadsOf(CallDelta(CallImmediate(q)), q);
  }

  /** One after the other they are that. */
  lemma PartsReact<P>(q: Queue<P>, react: (P, nat) -> seq<Notice<P>>)
    ensures AfterTimed(AfterDelta(AfterImmediate(q, react), react), react) == CallbackReacting(q, react)
  {
    var v1 := AfterImmediate(q, react);
    var v2 := AfterDelta(v1, react);
    TwoPartsReact(q, react, v1, v2);
    AfterTwoParts(q);
    LastPartReacts(CallDelta(CallImmediate(q)), react, q.immediate + Due(q), Count(q));
  }

  lemma LastPartReacts<P>(b: Queue<P>, react: (P, nat) -> seq<Notice<P>>, ps: seq<P>, count: nat)
    requires Count(b) == count + |ps|
    ensures AfterTimed(NotifyAll(b, Reactions(react, ps, count)), react)
            == NotifyAll(CallTimed(b), Reactions(react, ps + DuePayloads(b), count))
  {
    var ns := Reactions(react, ps, count);
    var v := NotifyAll(b, ns);
    ThirdPartSees(b, ns);
    NotifyPastCallTimed(b, ns);
    Regroup(CallTimed(b), ns, CallTimed(v), react, ps, DuePayloads(b), count, DuePayloads(v), Count(v), AfterTimed(v, react));
  }

  lemma Regroup<P>(c: Queue<P>, ns: seq<Notice<P>>, called: Queue<P>, react: (P, nat) -> seq<Notice<P>>, ps: seq<P>,
                   more: seq<P>, count: nat, due: seq<P>, count': nat, v: Queue<P>)
    requires called == NotifyAll(c, ns) && ns == Reactions(react, ps, count) && due == more && count' == count + |ps|
    requires v == NotifyAll(called, Reactions(react, due, count'))
    ensures v == NotifyAll(c, Reactions(react, ps + more, count))
  {
    JoinReactions(c, react, ps, more, count);
  }

  /** The loop over the immediate payloads, from where it stands: log one, let it react, and so on. */
  function CallImmediates<P>(v: Queue<P>, react: (P, nat) -> seq<Notice<P>>, ps: seq<P>): Queue<P>
    decreases |ps|
  {
    if ps == [] then v else
      CallImmediates(NotifyAll(LogImmediate(v, ps[0]), react(ps[0], Count(v))), react, ps[1..])
  }

  /** One element further in a sequence that is worked off from the front. */
  lemma FromNext<P>(ps: seq<P>, k: nat)
    requires k < |ps|
    ensures ps[k..] != [] && ps[k..][0] == ps[k] && ps[k..][1..] == ps[k + 1..]
  {
  }

  function LogImmediate<P>(q: Queue<P>, p: P): Queue<P> {
    q.(immediateLog := q.immediateLog + [p])
  }

  lemma ReactionsFromFront<P>(react: (P, nat) -> seq<Notice<P>>, ps: seq<P>, count: nat)
    requires ps != []
    ensures Reactions(react, ps, count) == react(ps[0], count) + Reactions(react, ps[1..], count + 1)
  {
    assert ps == [ps[0]] + ps[1..] && [ps[0]][..0] == [];
    ReactionsAppend(react, [ps[0]], ps[1..], count);
  }

  lemma ImmediatesLater<P>(one: Queue<P>, ns: seq<Notice<P>>, ps: seq<P>)
    ensures var r := NotifyAll(one, ns);
            && Count(r) == Count(one)
            && r.(immediateLog := r.immediateLog + ps) == NotifyAll(one.(immediateLog := one.immediateLog + ps), ns)
  {
    NotifyKeeps(one, ns);
    NotifyPastLogs(one, ns, one.immediate, one.runnable, one.timedLog, one.deltaLog, one.immediateLog + ps);
  }

  lemma {:induction false} CallImmediatesDoes<P>(v: Queue<P>, react: (P, nat) -> seq<Notice<P>>, ps: seq<P>)
    ensures CallImmediates(v, react, ps)
            == NotifyAll(v.(immediateLog := v.immediateLog + ps), Reactions(react, ps, Count(v)))
    decreases |ps|
  {
    if ps == [] {
      assert v.immediateLog + ps == v.immediateLog;
    } else {
      var one, ns := LogImmediate(v, ps[0]), react(ps[0], Count(v));
      CallImmediatesDoes(NotifyAll(one, ns), react, ps[1..]);
      ImmediatesLater(one, ns, ps[1..]);
      assert one.immediateLog + ps[1..] == v.immediateLog + ps;
      ReactionsFromFront(react, ps, Count(v));
      NotifyAllAppend(v.(immediateLog := v.immediateLog + ps), ns, Reactions(react, ps[1..], Count(v) + 1));
    }
  }

  /** The immediate part of the callback process, with its reactions. */
  lemma ImmediatePartReacts<P>(q: Queue<P>, react: (P, nat) -> seq<Notice<P>>)
    ensures var v := CallImmediates(q, react, q.immediate);
            && v.immediate == q.immediate
            && v.(immediate := [], runnable := false) == AfterImmediate(q, react)
  {
    CallImmediatesDoes(q, react, q.immediate);
    var base, ns := q.(immediateLog := q.immediateLog + q.immediate), Reactions(react, q.immediate, Count(q));
    NotifyKeeps(base, ns);
    NotifyPastLogs(base, ns, [], false, base.timedLog, base.deltaLog, base.immediateLog);
  }

  /** The loop over the delta payloads due. */
  function CallDeltas<P>(v: Queue<P>, react: (P, nat) -> seq<Notice<P>>, ps: seq<P>): Queue<P>
    decreases |ps|
  {
    if ps == [] then v else
      CallDeltas(NotifyAll(LogOneDelta(v, ps[0]), react(ps[0], Count(v))), react, ps[1..])
  }

  function LogOneDelta<P>(q: Queue<P>, p: P): Queue<P> {
    q.(deltaLog := q.deltaLog + [DeltaCall(p, q.deltaCount)])
  }

  lemma DeltasLater<P>(one: Queue<P>, ns: seq<Notice<P>>, ps: seq<P>)
    ensures var r := NotifyAll(one, ns);
            && Count(r) == Count(one)
            && LogDeltas(r, ps) == NotifyAll(LogDeltas(one, ps), ns)
  {
    NotifyKeeps(one, ns);
    NotifyPastLogs(one, ns, one.immediate, one.runnable, one.timedLog, LogDeltas(one, ps).deltaLog, one.immediateLog);
  }

  lemma DeltasFromFront<P>(v: Queue<P>, ps: seq<P>)
    requires ps != []
    ensures LogDeltas(LogOneDelta(v, ps[0]), ps[1..]) == LogDeltas(v, ps)
  {
    assert LogDeltas(LogOneDelta(v, ps[0]), ps[1..]).deltaLog == LogDeltas(v, ps).deltaLog;
  }

  lemma {:induction false} CallDeltasDoes<P>(v: Queue<P>, react: (P, nat) -> seq<Notice<P>>, ps: seq<P>)
    ensures CallDeltas(v, react, ps) == NotifyAll(LogDeltas(v, ps), Reactions(react, ps, Count(v)))
    decreases |ps|
  {
    if ps == [] {
      assert LogDeltas(v, ps).deltaLog == v.deltaLog;
    } else {
      var one, ns := LogOneDelta(v, ps[0]), react(ps[0], Count(v));
      CallDeltasDoes(NotifyAll(one, ns), react, ps[1..]);
      DeltasLater(one, ns, ps[1..]);
      DeltasFromFront(v, ps);
      ReactionsFromFront(react, ps, Count(v));
      NotifyAllAppend(LogDeltas(v, ps), ns, Reactions(react, ps[1..], Count(v) + 1));
    }
  }

  /** The delta part of the callback process, with its reactions. */
  lemma DeltaPartReacts<P>(q: Queue<P>, react: (P, nat) -> seq<Notice<P>>)
    ensures var v := CallDeltas(q, react, Due(q));
            && v.deltaCount == q.deltaCount && Due(v) == Due(q)
            && RearmDelta(ClearDue(v)) == AfterDelta(q, react)
  {
    var ns := Reactions(react, Due(q), Count(q));
    CallDeltasDoes(q, react, Due(q));
    NotifyKeeps(LogDeltas(q, Due(q)), ns);
    CallDeltaInParts(q);
    NotifyPastClear(LogDeltas(q, Due(q)), ns);
    NotifyPastRearmDelta(ClearDue(LogDeltas(q, Due(q))), ns);
  }

  function LogTop<P>(q: Queue<P>): Queue<P>
    requires q.timed != []
  {
    q.(timedLog := q.timedLog + [TimedCall(q.timed[0], q.now)])
  }

  /** The loop over the timed payloads due: the first one is called back, may notify, and is removed. */
  function CallTopReacting<P>(v: Queue<P>, react: (P, nat) -> seq<Notice<P>>): Queue<P>
    requires IsDue(v)
  {
    var r := NotifyAll(LogTop(v), react(v.timed[0].p, Count(v)));
    if r.timed == [] then r else DropTop(r)
  }

  lemma CallTopReactingDoes<P>(v: Queue<P>, react: (P, nat) -> seq<Notice<P>>)
    requires IsDue(v)
    ensures var ns := react(v.timed[0].p, Count(v));
            && NotifyAll(LogTop(v), ns).timed != []
            && CallTopReacting(v, react) == NotifyAll(CallTop(v), ns)
            && DuePayloads(CallTopReacting(v, react)) == DuePayloads(v)[1..]
            && Count(CallTopReacting(v, react)) == Count(v) + 1
  {
    var ns := react(v.timed[0].p, Count(v));
    NotifyPastDrop(LogTop(v), ns);
    SameDuePayloads(CallTop(v), ns);
    NotifyKeeps(CallTop(v), ns);
  }

  function CallTops<P>(v: Queue<P>, react: (P, nat) -> seq<Notice<P>>, n: nat): Queue<P>
    decreases n
  {
    if n == 0 || !IsDue(v) then v else CallTops(CallTopReacting(v, react), react, n - 1)
  }

  lemma {:induction false} CallTopsDoes<P>(v: Queue<P>, react: (P, nat) -> seq<Notice<P>>)
    ensures CallTops(v, react, |DuePayloads(v)|)
            == NotifyAll(CallEach(v), Reactions(react, DuePayloads(v), Count(v)))
    decreases |DuePayloads(v)|
  {
    if IsDue(v) {
      var ns := react(v.timed[0].p, Count(v));
      var more := Reactions(react, DuePayloads(v)[1..], Count(v) + 1);
      CallTopReactingDoes(v, react);
      CallTopsDoes(CallTopReacting(v, react), react);
      NotifyPastCallEach(CallTop(v), ns);
      ReactionsFromFront(react, DuePayloads(v), Count(v));
      NotifyAllAppend(CallEach(CallTop(v)), ns, more);
    }
  }

  /** The timed part of the callback process, with its reactions. */
  lemma TimedPartReacts<P>(q: Queue<P>, react: (P, nat) -> seq<Notice<P>>)
    ensures Rearm(CallTops(q, react, |DuePayloads(q)|)) == AfterTimed(q, react)
  {
    CallTopsDoes(q, react);
    CallEachIsCallDue(q);
    NotifyPastRearm(CallDue(q), Reactions(react, DuePayloads(q), Count(q)));
  }
}
