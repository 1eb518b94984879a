/** Whole runs in which callbacks notify the queue again: each is a run of the plain machine, in which
    these notifications follow the callback process. So what holds on every run of that machine
    holds on them. */
module PeqReactingRuns {
  import opened TimeOrder
  import opened PeqMachine
  import opened PeqReactions
  import Peq

  function Notifies<P>(ns: seq<Notice<P>>): (steps: seq<Step<P>>)
    ensures |steps| == |ns|
  {
    if ns == [] then [] else [Notify(ns[0].p, ns[0].delay)] + Notifies(ns[1..])
  }

  lemma {:induction false} PlayAppend<P>(q: Queue<P>, steps: seq<Step<P>>, more: seq<Step<P>>)
    ensures Play(q, steps + more) == Play(Play(q, steps), more)
    decreases |more|
  {
    if more == [] {
      assert steps + more == steps;
    } else {
      var all := steps + more;
      assert all[..|all| - 1] == steps + more[..|more| - 1];
      PlayAppend(q, steps, more[..|more| - 1]);
    }
  }

  lemma FeasibleAppendAt<P>(q: Queue<P>, steps: seq<Step<P>>, more: seq<Step<P>>, i: nat)
    requires Feasible(q, steps) && Feasible(Play(q, steps), more) && i < |steps + more|
    ensures Enabled(Play(q, (steps + more)[..i]), (steps + more)[i])
  {
    if i < |steps| {
      assert (steps + more)[..i] == steps[..i];
    } else {
      var j := i - |steps|;
      assert (steps + more)[..i] == steps + more[..j];
      PlayAppend(q, steps, more[..j]);
    }
  }

  lemma FeasibleAppend<P>(q: Queue<P>, steps: seq<Step<P>>, more: seq<Step<P>>)
    requires Feasible(q, steps) && Feasible(Play(q, steps), more)
    ensures Feasible(q, steps + more)
  {
    forall i | 0 <= i < |steps + more| ensures Enabled(Play(q, (steps + more)[..i]), (steps + more)[i]) {
      FeasibleAppendAt(q, steps, more, i);
    }
  }

  lemma PlayOne<P>(q: Queue<P>, step: Step<P>)
    ensures Play(q, [step]) == Do(q, step) && (Enabled(q, step) ==> Feasible(q, [step]))
  {
    assert [step][..0] == [];
  }

  lemma {:induction false} NotifiesPlay<P>(q: Queue<P>, ns: seq<Notice<P>>)
    ensures Play(q, Notifies(ns)) == NotifyAll(q, ns) && Feasible(q, Notifies(ns))
    decreases |ns|
  {
    if ns != [] {
      var first := Notify(ns[0].p, ns[0].delay);
      PlayOne(q, first);
      assert Do(q, first) == NotifyOne(q, ns[0]);
      NotifiesPlay(NotifyOne(q, ns[0]), ns[1..]);
      PlayAppend(q, [first], Notifies(ns[1..]));
      FeasibleAppend(q, [first], Notifies(ns[1..]));
    }
  }

  function DoReacting<P>(q: Queue<P>, step: Step<P>, react: (P, nat) -> seq<Notice<P>>): Queue<P> {
    if step.RunCallback? then CallbackReacting(q, react) else Do(q, step)
  }

  function PlayReacting<P>(q: Queue<P>, steps: seq<Step<P>>, react: (P, nat) -> seq<Notice<P>>): Queue<P> {
    if steps == [] then q else DoReacting(PlayReacting(q, steps[..|steps| - 1], react), steps[|steps| - 1], react)
  }

  ghost predicate FeasibleReacting<P>(q: Queue<P>, steps: seq<Step<P>>, react: (P, nat) -> seq<Notice<P>>) {
    forall i :: 0 <= i < |steps| ==> Enabled(PlayReacting(q, steps[..i], react), steps[i])
  }

  /** A step with its reactions, as steps of the plain machine. */
  function InSteps<P>(q: Queue<P>, step: Step<P>, react: (P, nat) -> seq<Notice<P>>): seq<Step<P>> {
    if step.RunCallback? then [step] + Notifies(Reactions(react, Called(q), Count(q))) else [step]
  }

  function Expand<P>(q: Queue<P>, steps: seq<Step<P>>, react: (P, nat) -> seq<Notice<P>>): seq<Step<P>> {
    if steps == [] then [] else
      var front := steps[..|steps| - 1];
      Expand(q, front, react) + InSteps(PlayReacting(q, front, react), steps[|steps| - 1], react)
  }

  lemma StepExpands<P>(q: Queue<P>, step: Step<P>, react: (P, nat) -> seq<Notice<P>>)
    requires Enabled(q, step)
    ensures Feasible(q, InSteps(q, step, react)) && Play(q, InSteps(q, step, react)) == DoReacting(q, step, react)
  {
    PlayOne(q, step);
    if step.RunCallback? {
      var ns := Reactions(react, Called(q), Count(q));
      NotifiesPlay(Callback(q), ns);
      PlayAppend(q, [step], Notifies(ns));
      FeasibleAppend(q, [step], Notifies(ns));
    }
  }

  lemma {:induction false} RunExpands<P>(q: Queue<P>, steps: seq<Step<P>>, react: (P, nat) -> seq<Notice<P>>)
    requires FeasibleReacting(q, steps, react)
    ensures Feasible(q, Expand(q, steps, react)) && Play(q, Expand(q, steps, react)) == PlayReacting(q, steps, react)
  {
    if steps != [] {
      var front, last := steps[..|steps| - 1], steps[|steps| - 1];
      var q' := PlayReacting(q, front, react);
      assert forall i :: 0 <= i < |front| ==> front[..i] == steps[..i];
      RunExpands(q, front, react);
      StepExpands(q', last, react);
      PlayAppend(q, Expand(q, front, react), InSteps(q', last, react));
      FeasibleAppend(q, Expand(q, front, react), InSteps(q', last, react));
    }
  }

  /** Exactly once, at the due time and in the order of notification, also for what callbacks notify. */
  lemma EveryReactingRunCallsWhatIsDue<P>(steps: seq<Step<P>>, react: (P, nat) -> seq<Notice<P>>, e: Entry<P>, t: nat)
    requires FeasibleReacting(Start(), steps, react) && !PlayReacting(Start(), steps, react).runnable
    ensures CalledWhatIsDue(PlayReacting(Start(), steps, react), PlayHistory(Start(), Expand(Start(), steps, react)), e, t)
  {
    RunExpands(Start<P>(), steps, react);
    EveryRunCallsWhatIsDue(Expand(Start(), steps, react), e, t);
  }

  /** A step of the user that is no notification with a delay, */
  method UserStep<P>(queue: Peq.Queue<P>, step: Step<P>)
    requires queue.Valid() && (step.NotifyNow? || step.CancelAll?)
    modifies queue, queue.ppq, queue.nodes, queue.uneven, queue.even, queue.immediate
    ensures queue.Valid() && queue.model == Do(old(queue.model), step)
    ensures old(queue.nodes) <= queue.nodes && fresh(queue.nodes - old(queue.nodes))
  {
    match step
    case NotifyNow(p) => queue.NotifyNow(p);
    case CancelAll => queue.CancelAll();
  }

  /** of the kernel, */
  method KernelStep<P>(queue: Peq.Queue<P>, step: Step<P>)
    requires queue.Valid() && Enabled(queue.model, step) && (step.EndDelta? || step.Advance?)
    modifies queue`now, queue`deltaCount, queue`pending, queue`runnable, queue`model
    ensures queue.Valid() && queue.model == Do(old(queue.model), step)
  {
    match step
    case EndDelta => queue.EndDelta();
    case Advance(to) => queue.Advance(to);
  }

  /** or of the callback process. */
  method TakeStep<P>(queue: Peq.Queue<P>, step: Step<P>, react: (P, nat) -> seq<Notice<P>>)
    requires queue.Valid() && Enabled(queue.model, step)
    modifies queue, queue.ppq, queue.nodes, queue.uneven, queue.even, queue.immediate
    ensures queue.Valid() && queue.model == DoReacting(old(queue.model), step, react)
    ensures old(queue.nodes) <= queue.nodes && fresh(queue.nodes - old(queue.nodes))
  {
    if step.Notify? {
      queue.Notify(step.p, step.delay);
    } else if step.RunCallback? {
      queue.Fec(react);
    } else if step.EndDelta? || step.Advance? {
      KernelStep(queue, step);
    } else {
      UserStep(queue, step);
    }
  }

  /** The queue itself, from construction over any run. */
  method Run<P>(blank: P, steps: seq<Step<P>>, react: (P, nat) -> seq<Notice<P>>) returns (queue: Peq.Queue<P>)
    requires FeasibleReacting(Start(), steps, react)
    ensures fresh(queue) && queue.Valid() && queue.model == PlayReacting(Start(), steps, react)
  {
    queue := new Peq.Queue(blank);
    for i := 0 to |steps|
      invariant fresh(queue) && queue.Valid() && queue.model == PlayReacting(Start(), steps[..i], react)
      invariant fresh(queue.ppq) && fresh(queue.uneven) && fresh(queue.even) && fresh(queue.immediate)
      invariant fresh(queue.nodes)
    {
      assert steps[..i + 1][..i] == steps[..i];
      TakeStep(queue, steps[i], react);
    }
    assert steps[..|steps|] == steps;
  }
}
