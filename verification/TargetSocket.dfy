/** The target socket's conversion in its own form: handles that worker threads and the socket
    share, and the threads' code between two waits as one method each. */
module TargetSocket {
  import opened QueueChannel
  import opened ConversionMachine

  class Handle<T> {
    var trans: T
    var suspend: bool
    /** Whether the event of the handle is pending. */
    var armed: bool
    /** Where the thread of the handle waits. */
    var place: Place

    constructor (trans: T)
      ensures this.trans == trans && !suspend && !armed && place == Parked
    {
      this.trans, suspend, armed, place := trans, false, false, Parked;
    }

    ghost predicate Is(w: Worker<T>)
      reads this
    {
      trans == w.trans && suspend == w.suspended && armed == w.armed && place == w.place
    }
  }

  datatype Phase = BeginRequest | EndRequest | BeginResponse | EndResponse

  datatype Sync = TlmAccepted | TlmUpdated | TlmCompleted

  class Socket<T> {
    var v: seq<Handle<T>>
    var responseInProgress: bool
    /** Whether the event for the end of a response is pending. */
    var endPending: bool

    ghost var state: State<T>

    ghost predicate Handles(ws: seq<Worker<T>>)
      reads `v, v
    {
      && |v| == |ws|
      && (forall i, j :: 0 <= i < j < |v| ==> v[i] != v[j])
      && forall i :: 0 <= i < |v| ==> v[i].Is(ws[i])
    }

    ghost predicate Valid()
      reads this, v
    {
      Handles(state.workers) && responseInProgress == state.inProgress && endPending == state.endPending
    }

    constructor ()
      ensures Valid() && state == Start() && v == []
    {
      v, responseInProgress, endPending, state := [], false, false, Start();
    }

    /** Reuses the first handle whose thread is suspended, if there is one. */
    method GetHandle(trans: T) returns (found: Option<Handle<T>>)
      requires Valid()
      modifies v
      ensures var k := FirstSuspended(state.workers);
              if k < |v| then found == Some(v[k]) && Handles(state.workers[k := state.workers[k].(trans := trans, suspended := false)])
              else found == None && Handles(state.workers)
    {
      ghost var ws := state.workers;
      for i := 0 to |v|
        invariant Handles(ws) && forall j :: 0 <= j < i ==> !ws[j].suspended
      {
        if v[i].suspend {
          FirstIs(ws, i);
          v[i].trans := trans;
          v[i].suspend := false;
          return Some(v[i]);
        }
      }
      FirstIs(ws, |v|);
      return None;
    }

    lemma FirstIs(ws: seq<Worker<T>>, i: nat)
      requires i <= |ws| && (i < |ws| ==> ws[i].suspended) && forall j :: 0 <= j < i ==> !ws[j].suspended
      ensures FirstSuspended(ws) == i
    {
    }

    /** A non-blocking call on the forward path. Any phase but the two of the protocol is an error
        and changes nothing. */
    method NbTransportFw(trans: T, phase: Phase) returns (sync: Sync)
      requires Valid() && forall i :: 0 <= i < |state.workers| ==> Owned(state.workers[i])
      requires phase.EndResponse? ==> Enabled(state, EndResp)
      modifies this, v
      ensures Valid() && fresh(set h | h in v && h !in old(v))
      ensures phase.BeginRequest? ==> sync == TlmAccepted && state == Next(old(state), BeginReq(trans))
      ensures phase.EndResponse? ==> sync == TlmCompleted && state == Next(old(state), EndResp)
      ensures phase.EndRequest? || phase.BeginResponse? ==> sync == TlmCompleted && state == old(state)
    {
      if phase.BeginRequest? {
        BeginCall(trans);
        return TlmAccepted;
      }
      if phase.EndResponse? {
        responseInProgress := false;
        endPending := true;
        state := Next(state, EndResp);
      }
      return TlmCompleted;
    }

    /** Hands the transaction to a worker, an idle one or a new one, and starts it. */
    method BeginCall(trans: T)
      requires Valid() && forall i :: 0 <= i < |state.workers| ==> Owned(state.workers[i])
      modifies `v, `state, v
      ensures Valid() && state == Next(old(state), BeginReq(trans))
      ensures fresh(set h | h in v && h !in old(v))
    {
      ghost var ws, k := state.workers, FirstSuspended(state.workers);
      ghost var next := Next(state, BeginReq(trans));
      var found := GetHandle(trans);
      if found.None? {
        SpawnArmed(trans, ws);
      } else {
        assert Owned(ws[k]);
        Arm(found.value, ws[k := ws[k].(trans := trans, suspended := false)], k);
        assert next.workers == ws[k := ws[k].(trans := trans, suspended := false, armed := true)];
      }
      state := next;
    }

    /** A new worker, started. */
    method SpawnArmed(trans: T, ghost ws: seq<Worker<T>>)
      requires Handles(ws)
      modifies `v
      ensures Handles(ws + [Worker(trans, false, Parked, true)]) && fresh(set h | h in v && h !in old(v))
    {
      var h := Spawn(trans, ws);
      Arm(h, ws + [Worker(trans, false, Parked, false)], |ws|);
      assert (ws + [Worker(trans, false, Parked, false)])[|ws| := Worker(trans, false, Parked, true)]
             == ws + [Worker(trans, false, Parked, true)];
    }

    /** A new handle with a new thread that waits for the event of the handle. */
    method Spawn(trans: T, ghost ws: seq<Worker<T>>) returns (h: Handle<T>)
      requires Handles(ws)
      modifies `v
      ensures Handles(ws + [Worker(trans, false, Parked, false)]) && v == old(v) + [h] && fresh(h)
    {
      h := new Handle(trans);
      v := v + [h];
    }

    method Arm(h: Handle<T>, ghost ws: seq<Worker<T>>, ghost k: nat)
      requires Handles(ws) && k < |v| && v[k] == h
      modifies h`armed
      ensures Handles(ws[k := ws[k].(armed := true)])
    {
      h.armed := true;
    }

    /** The event of a handle fires: its thread enters the blocking call. */
    method StartCall(i: nat) returns (trans: T)
      requires Valid() && Enabled(state, Event<T>.Wake(i))
      modifies `state, v
      ensures Valid() && state == Next(old(state), Wake(i)) && trans == old(state).workers[i].trans
    {
      trans := v[i].trans;
      v[i].armed := false;
      v[i].place := Calling;
      state := Next(state, Wake(i));
    }

    /** The blocking call has returned: the thread waits for the delay it was given. */
    method EndCall(i: nat)
      requires Valid() && Enabled(state, Event<T>.Return(i))
      modifies `state, v
      ensures Valid() && state == Next(old(state), Return(i))
    {
      v[i].place := Delaying;
      state := Next(state, Return(i));
    }

    /** The loop condition of the return path, after the delay or the end of another response: the
        thread waits again or enters the backward call. */
    method ReturnPath(i: nat) returns (responds: bool)
      requires Valid() && Enabled(state, Event<T>.Check(i))
      modifies `state, v
      ensures Valid() && state == Next(old(state), Check(i)) && responds == !old(state).inProgress
    {
      responds := !responseInProgress;
      v[i].place := if responseInProgress then Waiting else Responding;
      state := Next(state, Check(i));
    }

    /** The backward call has returned with this status and phase. */
    method AfterResponse(i: nat, sync: Sync, phase: Phase)
      requires Valid() && Enabled(state, Event<T>.Reply(i, ReplyOf(sync, phase)))
      modifies `state, `responseInProgress, v
      ensures Valid() && state == Next(old(state), Reply(i, ReplyOf(sync, phase)))
      ensures if sync.TlmCompleted? || (sync.TlmUpdated? && phase.EndResponse?)
              then responseInProgress == old(responseInProgress) && state.unacknowledged == None
              else responseInProgress && state.unacknowledged == old(state).unacknowledged
    {
      if !(sync.TlmCompleted? || (sync.TlmUpdated? && phase.EndResponse?)) {
        responseInProgress := true;
      }
      Suspend(i, state.workers);
      state := Next(state, Reply(i, ReplyOf(sync, phase)));
    }

    /** The thread of a handle waits for its next transaction. */
    method Suspend(i: nat, ghost ws: seq<Worker<T>>)
      requires Handles(ws) && i < |v|
      modifies v
      ensures Handles(ws[i := ws[i].(place := Parked, suspended := true)])
    {
      v[i].suspend := true;
      v[i].place := Parked;
    }

    /** The event for the end of a response fires and wakes every thread that waits for it. */
    method EndOfResponse()
      requires Valid() && Enabled(state, Event<T>.EndFires)
      modifies `state, `endPending, v
      ensures Valid() && state == Next(old(state), EndFires)
    {
      endPending := false;
      WakeThreads(state.workers);
      state := Next(state, EndFires);
    }

    method WakeThreads(ghost ws: seq<Worker<T>>)
      requires Handles(ws)
      modifies v
      ensures Handles(WakeAll(ws))
    {
      for i := 0 to |v|
        invariant |v| == |ws| && forall j, k :: 0 <= j < k < |v| ==> v[j] != v[k]
        invariant forall j :: 0 <= j < i ==> v[j].Is(WakeAll(ws)[j])
        invariant forall j :: i <= j < |v| ==> v[j].Is(ws[j])
      {
        WakeOne(v[i], ws[i]);
      }
    }

    method WakeOne(h: Handle<T>, ghost w: Worker<T>)
      requires h.Is(w)
      modifies h`place
      ensures h.Is(if w.place.Waiting? then w.(place := Woken) else w)
    {
      if h.place.Waiting? { h.place := Woken; }
    }
  }

  function ReplyOf(sync: Sync, phase: Phase): ConversionMachine.Reply {
    match sync
    case TlmAccepted => Accepted
    case TlmUpdated => if phase.EndResponse? then UpdatedToEnd else UpdatedOther
    case TlmCompleted => Completed
  }

  /** What the initiator returns to reply so. */
  function SyncOf(r: ConversionMachine.Reply): (reply: (Sync, Phase))
    ensures ReplyOf(reply.0, reply.1) == r
  {
    match r
    case Accepted => (TlmAccepted, BeginResponse)
    case UpdatedToEnd => (TlmUpdated, EndResponse)
    case UpdatedOther => (TlmUpdated, BeginResponse)
    case Completed => (TlmCompleted, BeginResponse)
  }

  /** A forward call of the initiator, */
  method ForwardCall<T>(socket: Socket<T>, e: Event<T>, blank: T)
    requires socket.Valid() && Inv(socket.state) && Enabled(socket.state, e) && (e.BeginReq? || e.EndResp?)
    modifies socket, socket.v
    ensures socket.Valid() && socket.state == Next(old(socket.state), e)
    ensures fresh(set h | h in socket.v && h !in old(socket.v))
  {
    if e.BeginReq? {
      var sync := socket.NbTransportFw(e.trans, BeginRequest);
    } else {
      var sync := socket.NbTransportFw(blank, EndResponse);
    }
  }

  /** or what a worker or the kernel does. */
  method InnerStep<T>(socket: Socket<T>, e: Event<T>)
    requires socket.Valid() && Enabled(socket.state, e) && !e.BeginReq? && !e.EndResp?
    modifies socket`state, socket`responseInProgress, socket`endPending, socket.v
    ensures socket.Valid() && socket.state == Next(old(socket.state), e)
  {
    match e
    case Wake(i) => var trans := socket.StartCall(i);
    case Return(i) => socket.EndCall(i);
    case Check(i) => var responds := socket.ReturnPath(i);
    case EndFires => socket.EndOfResponse();
    case Reply(i, r) => socket.AfterResponse(i, SyncOf(r).0, SyncOf(r).1);
  }

  method Continue<T>(socket: Socket<T>, es: seq<Event<T>>, blank: T)
    requires socket.Valid() && Inv(socket.state) && Feasible(socket.state, es)
    modifies socket, socket.v
    ensures socket.Valid() && socket.state == Play(old(socket.state), es)
    ensures fresh(set h | h in socket.v && h !in old(socket.v))
    decreases |es|
  {
    if es != [] {
      NextKeepsInv(socket.state, es[0]);
      if es[0].BeginReq? || es[0].EndResp? {
        ForwardCall(socket, es[0], blank);
      } else {
        InnerStep(socket, es[0]);
      }
      Continue(socket, es[1..], blank);
    }
  }

  /** The socket itself, from construction over any run that can happen. Its flag is up for good, with
      no response outstanding, exactly if the run was unfair. */
  method Run<T>(es: seq<Event<T>>, blank: T) returns (socket: Socket<T>)
    requires Feasible(Start<T>(), es)
    ensures fresh(socket) && socket.Valid() && socket.state == Play(Start(), es)
    ensures AllFair(Start(), es) <==>
              !(socket.responseInProgress && socket.state.unacknowledged == None && Quiet(socket.state))
  {
    AliveIffFair(es);
    socket := new Socket();
    Continue(socket, es, blank);
  }

  /** On the socket itself: a backward call returns with a status and phase, its response not
      acknowledged before, and the next worker in turn looks whether it may respond. */
  method ReplyThenCheck<T>(socket: Socket<T>, i: nat, sync: Sync, phase: Phase, j: nat) returns (responds: bool)
    requires socket.Valid() && Inv(socket.state) && socket.state.unacknowledged.Some?
    requires i < |socket.v| && socket.v[i].place.Responding?
    requires j < |socket.v| && (socket.v[j].place.Delaying? || socket.v[j].place.Woken?)
    modifies socket, socket.v
    ensures socket.Valid() && Inv(socket.state)
    ensures responds <==> sync.TlmCompleted? || (sync.TlmUpdated? && phase.EndResponse?)
    ensures socket.v == old(socket.v) && socket.v[j].place == if responds then Responding else Waiting
  {
    ghost var s, r := socket.state, ReplyOf(sync, phase);
    assert Enabled(s, Event<T>.Reply(i, r));
    QuietAfterReply(s, i, r);
    NextKeepsInv(s, Event<T>.Reply(i, r));
    socket.AfterResponse(i, sync, phase);
    NextKeepsInv(socket.state, Event<T>.Check(j));
    responds := socket.ReturnPath(j);
  }
}
