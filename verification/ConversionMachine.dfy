/** The non-blocking to blocking conversion of the target socket, as a machine over the steps of its
    worker threads and the calls of the initiator. Delays are dropped: an event that is pending may
    fire at any time, so a run covers every timing. */
module ConversionMachine {
  import opened QueueChannel

  /** Where a worker thread is: waiting for its own event, in the blocking call, in the delay after
      it, waiting for the end of another response, woken from that, or in the backward call. */
  datatype Place = Parked | Calling | Delaying | Waiting | Woken | Responding

  /** A worker's handle. `armed`: its event is pending. */
  datatype Worker<T> = Worker(trans: T, suspended: bool, place: Place, armed: bool)

  /** The socket, and what the initiator has seen: the requests it began, the blocking calls made
      for them, the responses it got, and the response it has not acknowledged. */
  datatype State<T> = State(workers: seq<Worker<T>>, inProgress: bool, endPending: bool,
                            begun: multiset<T>, called: multiset<T>, responded: multiset<T>, unacknowledged: Option<T>)

  /** What the initiator returns from the backward call: TLM_COMPLETED, or TLM_UPDATED with phase
      END_RESP, completes the transaction; everything else does not. */
  datatype Reply = Accepted | UpdatedToEnd | UpdatedOther | Completed

  predicate Completes(r: Reply) {
    r.Completed? || r.UpdatedToEnd?
  }

  /** A step: a forward call, the firing of an event, or what a worker does up to its next wait. */
  datatype Event<T> =
    | BeginReq(trans: T)
    | EndResp
    | Wake(i: nat)
    | Return(i: nat)
    | Check(i: nat)
    | EndFires
    | Reply(i: nat, reply: Reply)

  function Start<T>(): State<T> {
    State([], false, false, multiset{}, multiset{}, multiset{}, None)
  }

  /** No worker is in the backward call, which runs without a wait. */
  ghost predicate Quiet<T>(s: State<T>) {
    forall i :: 0 <= i < |s.workers| ==> !s.workers[i].place.Responding?
  }

  ghost predicate Enabled<T>(s: State<T>, e: Event<T>) {
    match e
    case BeginReq(_) => true
    case EndResp => s.unacknowledged.Some?
    case Wake(i) => Quiet(s) && i < |s.workers| && s.workers[i].place.Parked? && s.workers[i].armed
    case Return(i) => Quiet(s) && i < |s.workers| && s.workers[i].place.Calling?
    case Check(i) => Quiet(s) && i < |s.workers| && (s.workers[i].place.Delaying? || s.workers[i].place.Woken?)
    case EndFires => Quiet(s) && s.endPending
    case Reply(i, _) => i < |s.workers| && s.workers[i].place.Responding?
  }

  /** The rule for the initiator: if it acknowledges a response inside the backward call, the call
      has to complete the transaction. */
  predicate Fair<T>(s: State<T>, e: Event<T>) {
    e.Reply? ==> s.unacknowledged.Some? || Completes(e.reply)
  }

  /** The first suspended worker, or the number of workers if there is none. */
  function FirstSuspended<T>(ws: seq<Worker<T>>): (i: nat)
    ensures i <= |ws|
    ensures forall j :: 0 <= j < i ==> !ws[j].suspended
    ensures i < |ws| ==> ws[i].suspended
  {
    if ws == [] || ws[0].suspended then 0 else 1 + FirstSuspended(ws[1..])
  }

  function Assign<T>(ws: seq<Worker<T>>, x: T): (r: seq<Worker<T>>)
    ensures |r| == if FirstSuspended(ws) < |ws| then |ws| else |ws| + 1
  {
    var i, w := FirstSuspended(ws), Worker(x, false, Parked, true);
    if i < |ws| then ws[i := w.(place := ws[i].place)] else ws + [w]
  }

  function WakeAll<T>(ws: seq<Worker<T>>): (r: seq<Worker<T>>)
    ensures |r| == |ws|
    ensures forall i :: 0 <= i < |ws| ==> r[i] == if ws[i].place.Waiting? then ws[i].(place := Woken) else ws[i]
  {
    if ws == [] then [] else
      [if ws[0].place.Waiting? then ws[0].(place := Woken) else ws[0]] + WakeAll(ws[1..])
  }

  function Next<T>(s: State<T>, e: Event<T>): State<T>
    requires Enabled(s, e)
  {
    match e
    case BeginReq(x) => s.(workers := Assign(s.workers, x), begun := s.begun + multiset{x})
    case EndResp => s.(inProgress := false, endPending := true, unacknowledged := None)
    case Wake(i) =>
      var w := s.workers[i];
      s.(workers := s.workers[i := w.(place := Calling, armed := false)], called := s.called + multiset{w.trans})
    case Return(i) => s.(workers := s.workers[i := s.workers[i].(place := Delaying)])
    case Check(i) =>
      var w := s.workers[i];
      if s.inProgress then s.(workers := s.workers[i := w.(place := Waiting)])
      else s.(workers := s.workers[i := w.(place := Responding)], responded := s.responded + multiset{w.trans},
              unacknowledged := Some(w.trans))
    case EndFires => s.(workers := WakeAll(s.workers), endPending := false)
    case Reply(i, r) =>
      s.(workers := s.workers[i := s.workers[i].(place := Parked, suspended := true)],
         inProgress := s.inProgress || !Completes(r),
         unacknowledged := if Completes(r) then None else s.unacknowledged)
  }

  /** A worker counts for a transaction that has been begun, or called for, but not answered. */
  ghost predicate Counts<T>(w: Worker<T>, called: bool, x: T) {
    w.trans == x && if called then !w.place.Parked? && !w.place.Responding? else !w.suspended && !w.place.Responding?
  }

  ghost function One<T>(w: Worker<T>, called: bool, x: T): nat {
    if Counts(w, called, x) then 1 else 0
  }

  ghost function Serving<T>(ws: seq<Worker<T>>, called: bool, x: T): nat {
    if ws == [] then 0 else One(ws[0], called, x) + Serving(ws[1..], called, x)
  }

  lemma {:induction false} ServingUpdate<T>(ws: seq<Worker<T>>, i: nat, w: Worker<T>, called: bool, x: T)
    requires i < |ws|
    ensures Serving(ws[i := w], called, x) == Serving(ws, called, x) - One(ws[i], called, x) + One(w, called, x)
  {
    if i == 0 {
      assert ws[i := w][1..] == ws[1..];
    } else {
      assert ws[i := w][1..] == ws[1..][i - 1 := w];
      ServingUpdate(ws[1..], i - 1, w, called, x);
    }
  }

  lemma {:induction false} ServingAppend<T>(ws: seq<Worker<T>>, w: Worker<T>, called: bool, x: T)
    ensures Serving(ws + [w], called, x) == Serving(ws, called, x) + One(w, called, x)
  {
    if ws == [] {
      assert [w][1..] == [];
      assert ws + [w] == [w];
    } else {
      assert (ws + [w])[1..] == ws[1..] + [w];
      ServingAppend(ws[1..], w, called, x);
    }
  }

  lemma {:induction false} ServingWakeAll<T>(ws: seq<Worker<T>>, called: bool, x: T)
    ensures Serving(WakeAll(ws), called, x) == Serving(ws, called, x)
  {
    if ws != [] {
      ServingWakeAll(ws[1..], called, x);
    }
  }

  /** Every request begun is in service or answered, every blocking call too: nothing is called or
      answered twice, or forgotten. */
  ghost predicate Accounted<T>(s: State<T>, called: bool, x: T) {
    (if called then s.called else s.begun)[x] == s.responded[x] + Serving(s.workers, called, x)
  }

  /** A handle is free for another transaction exactly when its thread waits for its event and that
      event is not pending. */
  ghost predicate Owned<T>(w: Worker<T>) {
    (w.suspended <==> w.place.Parked? && !w.armed) && (w.armed ==> w.place.Parked?)
  }

  /** A worker that waits for the end of a response will be woken. */
  ghost predicate WillWake<T>(s: State<T>, w: Worker<T>) {
    w.place.Waiting? ==> s.inProgress || s.endPending
  }

  /** What every step keeps, whatever the initiator does: at most one worker is in the backward
      call, in which the flag is down, and the flag is up while a response is outstanding. */
  ghost predicate Exclusive<T>(s: State<T>) {
    && (forall i, j :: 0 <= i < j < |s.workers| ==> !(s.workers[i].place.Responding? && s.workers[j].place.Responding?))
    && (Quiet(s) && s.unacknowledged.Some? ==> s.inProgress)
    && (!Quiet(s) ==> !s.inProgress)
  }

  ghost predicate Inv<T>(s: State<T>) {
    && Exclusive(s)
    && (forall i :: 0 <= i < |s.workers| ==> Owned(s.workers[i]))
    && (forall i :: 0 <= i < |s.workers| ==> WillWake(s, s.workers[i]))
  }

  /** The flag is up, but nothing is outstanding that could be acknowledged. */
  ghost predicate Dead<T>(s: State<T>) {
    s.inProgress && s.unacknowledged == None && Quiet(s)
  }

  /** A reused handle has no transaction in service that its new one would replace. */
  lemma AssignServes<T>(ws: seq<Worker<T>>, y: T, called: bool, x: T)
    requires forall i :: 0 <= i < |ws| ==> Owned(ws[i])
    ensures Serving(Assign(ws, y), called, x) == Serving(ws, called, x) + if !called && x == y then 1 else 0
  {
    var k := FirstSuspended(ws);
    if k < |ws| {
      ServingUpdate(ws, k, Assign(ws, y)[k], called, x);
    } else {
      ServingAppend(ws, Worker(y, false, Parked, true), called, x);
    }
  }

  lemma StepAccounted<T>(s: State<T>, e: Event<T>, i: nat, called: bool, x: T)
    requires Enabled(s, e) && Accounted(s, called, x) && i < |s.workers| && Owned(s.workers[i])
    requires e == Wake(i) || e == Return(i) || e == Check(i) || (e.Reply? && e.i == i)
    ensures Accounted(Next(s, e), called, x)
  {
    ServingUpdate(s.workers, i, Next(s, e).workers[i], called, x);
  }

  lemma NextAccounted<T>(s: State<T>, e: Event<T>, called: bool, x: T)
    requires Enabled(s, e) && Accounted(s, called, x)
    requires forall i :: 0 <= i < |s.workers| ==> Owned(s.workers[i])
    ensures Accounted(Next(s, e), called, x)
  {
    match e
    case BeginReq(y) => AssignServes(s.workers, y, called, x);
    case EndResp =>
    case EndFires => ServingWakeAll(s.workers, called, x);
    case Wake(i) => StepAccounted(s, e, i, called, x);
    case Return(i) => StepAccounted(s, e, i, called, x);
    case Check(i) => StepAccounted(s, e, i, called, x);
    case Reply(i, _) => StepAccounted(s, e, i, called, x);
  }

  lemma NextExclusive<T>(s: State<T>, e: Event<T>)
    requires Enabled(s, e) && Exclusive(s)
    requires forall i :: 0 <= i < |s.workers| ==> Owned(s.workers[i])
    ensures Exclusive(Next(s, e))
  {
    var s' := Next(s, e);
    match e
    case BeginReq(x) =>
      assert forall i :: 0 <= i < |s'.workers| ==>
        (s'.workers[i].place.Responding? <==> i < |s.workers| && s.workers[i].place.Responding?);
    case EndResp =>
    case EndFires =>
    case Wake(i) =>
    case Return(i) =>
    case Check(i) =>
      if !s.inProgress { assert s'.workers[i].place.Responding?; }
    case Reply(i, r) =>
      assert forall j :: 0 <= j < |s.workers| && j != i ==> !s.workers[j].place.Responding?;
  }

  /** The backward call is over when the reply is there. */
  lemma QuietAfterReply<T>(s: State<T>, i: nat, r: Reply)
    requires Exclusive(s) && Enabled(s, Event<T>.Reply(i, r))
    ensures Quiet(Next(s, Event<T>.Reply(i, r)))
  {
    assert forall j :: 0 <= j < |s.workers| && j != i ==> !s.workers[j].place.Responding?;
  }

  /** An unfair reply leaves the socket dead, nothing else does, and it stays so. */
  lemma NextDeadIff<T>(s: State<T>, e: Event<T>)
    requires Enabled(s, e) && Inv(s)
    ensures Dead(Next(s, e)) <==> Dead(s) || !Fair(s, e)
  {
    if e.Reply? {
      QuietAfterReply(s, e.i, e.reply);
    } else if e.BeginReq? {
      var s' := Next(s, e);
      assert forall i :: 0 <= i < |s'.workers| ==>
        (s'.workers[i].place.Responding? <==> i < |s.workers| && s.workers[i].place.Responding?);
      assert Quiet(s) ==> Quiet(s');
      if !Quiet(s) {
        var i :| 0 <= i < |s.workers| && s.workers[i].place.Responding?;
        assert s'.workers[i].place.Responding?;
      }
    }
  }

  lemma NextOwned<T>(s: State<T>, e: Event<T>)
    requires Enabled(s, e)
    requires forall i :: 0 <= i < |s.workers| ==> Owned(s.workers[i])
    ensures forall i :: 0 <= i < |Next(s, e).workers| ==> Owned(Next(s, e).workers[i])
  {
    match e
    case BeginReq(_) =>
    case EndResp =>
    case EndFires =>
    case Wake(_) =>
    case Return(_) =>
    case Check(_) =>
    case Reply(_, _) =>
  }

  lemma NextWillWake<T>(s: State<T>, e: Event<T>)
    requires Enabled(s, e)
    requires forall i :: 0 <= i < |s.workers| ==> WillWake(s, s.workers[i])
    requires forall i :: 0 <= i < |s.workers| ==> Owned(s.workers[i])
    ensures forall i :: 0 <= i < |Next(s, e).workers| ==> WillWake(Next(s, e), Next(s, e).workers[i])
  {
    match e
    case BeginReq(_) =>
    case EndResp =>
    case EndFires =>
    case Wake(_) =>
    case Return(_) =>
    case Check(_) =>
    case Reply(_, _) =>
  }

  lemma NextKeepsInv<T>(s: State<T>, e: Event<T>)
    requires Enabled(s, e) && Inv(s)
    ensures Inv(Next(s, e))
  {
    NextExclusive(s, e);
    NextOwned(s, e);
    NextWillWake(s, e);
  }

  /** The events can happen one after the other. */
  ghost predicate Feasible<T>(s: State<T>, es: seq<Event<T>>)
    decreases |es|
  {
    es == [] || (Enabled(s, es[0]) && Feasible(Next(s, es[0]), es[1..]))
  }

  ghost predicate AllFair<T>(s: State<T>, es: seq<Event<T>>)
    requires Feasible(s, es)
    decreases |es|
  {
    es == [] || (Fair(s, es[0]) && AllFair(Next(s, es[0]), es[1..]))
  }

  ghost function Play<T>(s: State<T>, es: seq<Event<T>>): State<T>
    requires Feasible(s, es)
    decreases |es|
  {
    if es == [] then s else Play(Next(s, es[0]), es[1..])
  }

  lemma {:induction false} RunKeepsInv<T>(s: State<T>, es: seq<Event<T>>)
    requires Inv(s) && Feasible(s, es)
    ensures Inv(Play(s, es))
    decreases |es|
  {
    if es != [] {
      NextKeepsInv(s, es[0]);
      RunKeepsInv(Next(s, es[0]), es[1..]);
    }
  }

  lemma {:induction false} RunAccounted<T>(s: State<T>, es: seq<Event<T>>, called: bool, x: T)
    requires Inv(s) && Feasible(s, es) && Accounted(s, called, x)
    ensures Accounted(Play(s, es), called, x)
    decreases |es|
  {
    if es != [] {
      NextKeepsInv(s, es[0]);
      NextAccounted(s, es[0], called, x);
      RunAccounted(Next(s, es[0]), es[1..], called, x);
    }
  }

  /** From the start, whatever the schedule and the initiator: a transaction is never answered more
      often than it was called for, nor called for more often than it was begun; and once no worker
      is busy, exactly as often. */
  lemma OneCallOneResponse<T>(es: seq<Event<T>>, x: T)
    requires Feasible(Start<T>(), es)
    ensures var s := Play(Start<T>(), es);
            && s.responded[x] <= s.called[x] <= s.begun[x]
            && ((forall i :: 0 <= i < |s.workers| ==> s.workers[i].suspended) ==>
                s.responded[x] == s.called[x] == s.begun[x])
  {
    RunKeepsInv(Start<T>(), es);
    RunAccounted(Start<T>(), es, false, x);
    RunAccounted(Start<T>(), es, true, x);
    var s := Play(Start<T>(), es);
    CalledWereBegun(s.workers, x);
    if forall i :: 0 <= i < |s.workers| ==> s.workers[i].suspended {
      NobodyServes(s.workers, x);
    }
  }

  lemma {:induction false} CalledWereBegun<T>(ws: seq<Worker<T>>, x: T)
    requires forall i :: 0 <= i < |ws| ==> Owned(ws[i])
    ensures Serving(ws, true, x) <= Serving(ws, false, x)
  {
    if ws != [] {
      assert Owned(ws[0]);
      CalledWereBegun(ws[1..], x);
    }
  }

  lemma {:induction false} NobodyServes<T>(ws: seq<Worker<T>>, x: T)
    requires forall i :: 0 <= i < |ws| ==> Owned(ws[i]) && ws[i].suspended
    ensures Serving(ws, false, x) == 0
  {
    if ws != [] {
      assert Owned(ws[0]);
      NobodyServes(ws[1..], x);
    }
  }

  /** A response begins only when the one before it has been acknowledged. */
  lemma OneResponseAtATime<T>(es: seq<Event<T>>, e: Event<T>)
    requires Feasible(Start<T>(), es)
    requires var s := Play(Start<T>(), es); Enabled(s, e) && Next(s, e).responded != s.responded
    ensures Play(Start<T>(), es).unacknowledged == None
  {
    RunKeepsInv(Start<T>(), es);
  }

  lemma {:induction false} FairIffNeverDead<T>(s: State<T>, es: seq<Event<T>>)
    requires Inv(s) && Feasible(s, es)
    ensures Dead(Play(s, es)) <==> Dead(s) || !AllFair(s, es)
    decreases |es|
  {
    if es != [] {
      NextKeepsInv(s, es[0]);
      NextDeadIff(s, es[0]);
      FairIffNeverDead(Next(s, es[0]), es[1..]);
    }
  }

  /** From the start: a run leaves the socket alive if and only if no response that was acknowledged
      inside the backward call was then left incomplete by the call. */
  lemma AliveIffFair<T>(es: seq<Event<T>>)
    requires Feasible(Start<T>(), es)
    ensures AllFair(Start(), es) <==> !Dead(Play(Start(), es))
  {
    FairIffNeverDead(Start(), es);
  }

  /** A worker with a transaction is never stuck: it can go on itself, or the event it waits for is
      pending, or a response is outstanding whose acknowledgement will make that event pending. */
  ghost predicate CanGoOn<T>(s: State<T>, i: nat)
    requires i < |s.workers|
  {
    || Enabled(s, Wake(i)) || Enabled(s, Return(i)) || Enabled(s, Check(i)) || Enabled(s, Reply(i, Completed))
    || (s.workers[i].place.Waiting? && (Enabled(s, EndFires) || s.unacknowledged.Some?))
  }

  /** So on a fair run a worker with a transaction is never stuck. */
  lemma NeverStuck<T>(es: seq<Event<T>>, i: nat)
    requires Feasible(Start<T>(), es) && AllFair(Start<T>(), es)
    requires var s := Play(Start<T>(), es); i < |s.workers| && !s.workers[i].suspended && Quiet(s)
    ensures CanGoOn(Play(Start<T>(), es), i)
  {
    RunKeepsInv(Start<T>(), es);
    AliveIffFair(es);
    var s := Play(Start<T>(), es);
    assert Owned(s.workers[i]) && WillWake(s, s.workers[i]);
  }

  lemma NextDead<T>(s: State<T>, e: Event<T>)
    requires Dead(s) && Enabled(s, e)
    ensures Dead(Next(s, e)) && Next(s, e).responded == s.responded
  {
    match e
    case BeginReq(_) =>
    case EndResp =>
    case EndFires =>
    case Wake(_) =>
    case Return(_) =>
    case Check(_) =>
    case Reply(_, _) =>
  }

  /** Once dead, no request is ever answered again, whatever happens. */
  lemma {:induction false} DeadForever<T>(s: State<T>, es: seq<Event<T>>)
    requires Dead(s) && Feasible(s, es)
    ensures Dead(Play(s, es)) && Play(s, es).responded == s.responded
    decreases |es|
  {
    if es != [] {
      NextDead(s, es[0]);
      DeadForever(Next(s, es[0]), es[1..]);
    }
  }

  lemma {:induction false} PlayAppend<T>(s: State<T>, es: seq<Event<T>>, e: Event<T>)
    requires Feasible(s, es) && Enabled(Play(s, es), e)
    ensures Feasible(s, es + [e]) && Play(s, es + [e]) == Next(Play(s, es), e)
    decreases |es|
  {
    if es == [] {
      assert [e][1..] == [];
      assert es + [e] == [e];
    } else {
      assert (es + [e])[1..] == es[1..] + [e];
      PlayAppend(Next(s, es[0]), es[1..], e);
    }
  }

  /** An event fires once: the one for the end of a response not again before the next END_RESP, the one
      of a worker not again before it is given its next request. */
  lemma FiresOnce<T>(s: State<T>, i: nat)
    requires Inv(s)
    ensures Enabled(s, Event<T>.EndFires) ==> !Enabled(Next(s, Event<T>.EndFires), Event<T>.EndFires)
    ensures Enabled(s, Event<T>.Wake(i)) ==>
              var s' := Next(s, Event<T>.Wake(i)); i < |s'.workers| && !s'.workers[i].armed && !Enabled(s', Event<T>.Wake(i))
  {
  }

  /** A request is served by the first idle worker, or by a new one exactly if none is idle. */
  lemma RequestServedBy<T>(s: State<T>, x: T)
    requires Enabled(s, BeginReq(x)) && Inv(s)
    ensures var s' := Next(s, BeginReq(x));
            && (|s'.workers| == |s.workers| + 1 <==> forall i :: 0 <= i < |s.workers| ==> !s.workers[i].suspended)
            && |s.workers| <= |s'.workers| <= |s.workers| + 1
            && exists k | 0 <= k < |s'.workers| :: s'.workers[k] == Worker(x, false, Parked, true)
                 && (forall i :: 0 <= i < |s.workers| && i != k ==> s'.workers[i] == s.workers[i])
                 && (k < |s.workers| ==> s.workers[k].suspended) && forall i :: 0 <= i < k ==> !s.workers[i].suspended
  {
    var k := FirstSuspended(s.workers);
    var s' := Next(s, BeginReq(x));
    if k < |s.workers| { assert Owned(s.workers[k]); }
    assert s'.workers[k] == Worker(x, false, Parked, true);
  }

  /** A worker that is about to look whether it may respond. */
  predicate MayCheck<T>(s: State<T>, j: nat) {
    j < |s.workers| && (s.workers[j].place.Delaying? || s.workers[j].place.Woken?)
  }

  /** What the return of a backward call decides for the next worker in turn, with the response not
      acknowledged inside the call: after TLM_COMPLETED, or TLM_UPDATED with END_RESP, nothing is
      outstanding and that worker responds at once; after any other answer it waits. */
  lemma ReplyDecides<T>(s: State<T>, i: nat, r: Reply, j: nat)
    requires Inv(s) && Enabled(s, Reply(i, r)) && s.unacknowledged.Some? && MayCheck(s, j)
    ensures Feasible(s, [Reply(i, r), Check(j)])
    ensures var done := r == Completed || r == UpdatedToEnd;
            var after, next := Play(s, [Reply(i, r)]), Play(s, [Reply(i, r), Check(j)]);
            && after.unacknowledged == (if done then None else s.unacknowledged) && after.inProgress == !done
            && j < |next.workers| && next.workers[j].place == if done then Responding else Waiting
  {
    QuietAfterReply(s, i, r);
    var es: seq<Event<T>> := [Reply(i, r), Check(j)];
    var s1 := Next(s, Event<T>.Reply(i, r));
    assert es[1..] == [Check(j)] && es[1..][1..] == [] && [Event<T>.Reply(i, r)][1..] == [];
    assert Play(s1, es[1..]) == Next(s1, Event<T>.Check(j));
  }

  /** The start of a run with one transaction, up to its backward call. */
  function ToResponse<T>(x: T): seq<Event<T>> {
    [] + [BeginReq(x)] + [Wake(0)] + [Return(0)] + [Check(0)]
  }

  /** Then the initiator acknowledges inside the call, and returns TLM_ACCEPTED. */
  function InsideCall<T>(x: T): seq<Event<T>> {
    ToResponse(x) + [EndResp] + [Reply(0, Accepted)]
  }

  lemma ToResponseIs<T>(x: T)
    ensures var one := multiset{x};
            && Feasible(Start(), ToResponse(x))
            && Play(Start(), ToResponse(x)) == State([Worker(x, false, Responding, false)], false, false, one, one, one, Some(x))
  {
    var s, none: seq<Event<T>> := Start<T>(), [];
    PlayAppend(s, none, BeginReq(x));
    var s1, e1 := Next(s, BeginReq(x)), none + [BeginReq(x)];
    assert s1.workers == [Worker(x, false, Parked, true)];
    PlayAppend(s, e1, Wake(0));
    PlayAppend(s, e1 + [Wake(0)], Return(0));
    PlayAppend(s, e1 + [Wake(0)] + [Return(0)], Check(0));
  }

  /** An initiator that does so blocks the socket for good, with its first transaction. */
  lemma AckInsideCallBlocks<T>(x: T)
    ensures Feasible(Start(), InsideCall(x)) && Dead(Play(Start(), InsideCall(x)))
  {
    var s, es := Start<T>(), ToResponse(x);
    ToResponseIs(x);
    PlayAppend(s, es, EndResp);
    PlayAppend(s, es + [EndResp], Reply(0, Accepted));
  }
}
