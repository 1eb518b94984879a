/** The one pending notification of the queue's event is exactly the one it needs: not later than the
    earliest payload, and never without one. */
module PeqPending {
  import opened TimeOrder
  import opened PeqMachine

  /** What has to be pending while the callback process is not waiting to run. */
  function Needed<P>(q: Queue<P>): Pending {
    if Coming(q) != [] then NextDelta else if q.timed != [] then AtTime(q.timed[0].t) else NotPending
  }

  /** Some payload is due at this time. */
  ghost predicate DueThen<P>(timed: seq<Entry<P>>, at: nat) {
    exists i :: 0 <= i < |timed| && timed[i].t == at
  }

  ghost predicate Exact<P>(q: Queue<P>) {
    && (q.pending == NextDelta ==> Coming(q) != [])
    && (q.pending.AtTime? ==> DueThen(q.timed, q.pending.at))
    && (!q.runnable ==> q.pending == Needed(q))
  }

  lemma {:induction false} InsertDue<P>(timed: seq<Entry<P>>, e: Entry<P>, at: nat)
    requires at == e.t || DueThen(timed, at)
    ensures DueThen(Insert(timed, e), at)
    decreases |timed|
  {
    var r := Insert(timed, e);
    if timed == [] || e.t < timed[0].t {
      if at == e.t { assert r[0].t == at; }
      else { var i :| 0 <= i < |timed| && timed[i].t == at; assert r[i + 1] == timed[i]; }
    } else if timed[0].t == at {
      assert r[0].t == at;
    } else {
      if at != e.t {
        var i :| 0 <= i < |timed| && timed[i].t == at;
        assert timed[1..][i - 1].t == at;
      }
      InsertDue(timed[1..], e, at);
      var i :| 0 <= i < |Insert(timed[1..], e)| && Insert(timed[1..], e)[i].t == at;
      assert r[i + 1].t == at;
    }
  }

  lemma NotifyStaysExact<P>(q: Queue<P>, e: Entry<P>)
    requires Exact(q) && Sorted(q.timed)
    ensures Exact(NotifyLater(q, e))
  {
    var q' := NotifyLater(q, e);
    if q'.pending.AtTime? { InsertDue(q.timed, e, q'.pending.at); }
  }

  /** The callback process: what was pending meanwhile is for a payload that is still queued. */
  lemma CallbackStaysExact<P>(q: Queue<P>)
    requires Exact(q) && Armed(q) && Sorted(q.timed) && q.runnable
    ensures Exact(Callback(q))
  {
    var k, q' := DueCount(q.timed, q.now), Callback(q);
    if q.pending.AtTime? {
      var i :| 0 <= i < |q.timed| && q.timed[i].t == q.pending.at;
      assert k <= i;
      assert q.timed[k..][i - k].t == q.pending.at && q.timed[k].t <= q.timed[i].t;
    }
    if k < |q.timed| { assert q.timed[k..][0] == q.timed[k]; }
  }

  lemma StaysExact<P>(q: Queue<P>, h: History<P>, step: Step<P>)
    requires Inv(q, h) && Exact(q) && Enabled(q, step)
    ensures Exact(Do(q, step))
  {
    BothSorted(Entries(q.timedLog), q.timed, h.timed);
    match step
    case Notify(p, delay) => if delay != 0 { NotifyStaysExact(q, Entry(p, q.now + delay, q.deltaCount)); }
    case NotifyNow(_) =>
    case CancelAll =>
    case RunCallback => CallbackStaysExact(q);
    case EndDelta =>
    case Advance(_) =>
  }

  /** On every run: while no callback is waiting to run, the event is pending exactly for the earliest
      payload that is queued, and not at all without one. */
  lemma {:induction false} PendingIsNeeded<P>(steps: seq<Step<P>>)
    requires Feasible(Start(), steps)
    ensures Exact(Play(Start(), steps))
    decreases |steps|
  {
    if steps != [] {
      var front, last := steps[..|steps| - 1], steps[|steps| - 1];
      assert forall i :: 0 <= i < |front| ==> front[..i] == steps[..i];
      PendingIsNeeded(front);
      RunKeepsInv(front);
      StaysExact(Play(Start<P>(), front), PlayHistory(Start<P>(), front), last);
    }
  }

  /** So time can always go on to the next payload due: nothing else holds it up. */
  lemma TimeGoesOn<P>(steps: seq<Step<P>>)
    requires Feasible(Start(), steps)
    ensures var q := Play(Start(), steps);
            !q.runnable && Coming(q) == [] ==>
              forall to: nat :: Enabled(q, Step<P>.Advance(to)) <==> q.now < to && (q.timed != [] ==> to <= q.timed[0].t)
  {
    PendingIsNeeded(steps);
  }
}
