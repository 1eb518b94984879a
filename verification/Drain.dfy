/** Nothing stays inside for good: with a user who takes in every cycle, everything accepted comes out
    within a bound. What the channels share of that: a run in which the oldest element gets nearer to
    the exit in every cycle in which nothing leaves. */
module Drain {
  import opened QueueChannel

  predicate AlwaysTakes<T>(ds: seq<Demand<T>>) {
    forall i :: 0 <= i < |ds| ==> WantsGet(ds[i])
  }

  /** Everything accepted at least `bound` cycles before the end of the run has been taken. */
  ghost predicate Prompt<T>(ds: seq<Demand<T>>, os: seq<Outcome<T>>, bound: nat) {
    |ds| == |os| && forall k: nat :: k + bound <= |ds| ==> |Accepted(ds[..k], os[..k])| <= |Taken(os)|
  }

  /** The elements inside before a cycle, and the cycles at most until the oldest one can be taken. */
  datatype Point = Point(inside: nat, delay: nat)

  function InCount<T>(d: Demand<T>, o: Outcome<T>): nat {
    if o.push then |Offered(d)| else 0
  }

  function OutCount<T>(o: Outcome<T>): nat {
    if o.pop && o.shown.Some? then 1 else 0
  }

  predicate Moves<T>(d: Demand<T>, o: Outcome<T>, at: Point, next: Point) {
    && at.inside + InCount(d, o) == OutCount(o) + next.inside
    && (at.inside != 0 && OutCount(o) == 0 ==> next.delay < at.delay)
  }

  /** The points of a run, one more than it has cycles. */
  ghost predicate Traced<T>(ds: seq<Demand<T>>, os: seq<Outcome<T>>, ps: seq<Point>, room: nat, most: nat)
    decreases |ds|
  {
    && |ds| == |os| && |ps| == |ds| + 1
    && ps[0].inside <= room && ps[0].delay <= most
    && (ds != [] ==> Moves(ds[0], os[0], ps[0], ps[1]) && Traced(ds[1..], os[1..], ps[1..], room, most))
  }

  /** The first k elements inside leave within this many cycles. */
  function Cycles(delay: nat, k: nat, most: nat): nat {
    if k == 0 then 0 else delay + (k - 1) * (most + 1) + 1
  }

  lemma {:induction false} FirstLeave<T>(ds: seq<Demand<T>>, os: seq<Outcome<T>>, ps: seq<Point>, room: nat, most: nat, k: nat)
    requires Traced(ds, os, ps, room, most) && k <= ps[0].inside && Cycles(ps[0].delay, k, most) <= |ds|
    ensures k <= |Taken(os)|
    decreases |ds|
  {
    if k != 0 {
      if OutCount(os[0]) == 0 {
        FirstLeave(ds[1..], os[1..], ps[1..], room, most, k);
      } else {
        assert k != 1 ==> (k - 1) * (most + 1) == (k - 2) * (most + 1) + most + 1;
        FirstLeave(ds[1..], os[1..], ps[1..], room, most, k - 1);
      }
    }
  }

  lemma Within(delay: nat, k: nat, room: nat, most: nat)
    requires delay <= most && k <= room
    ensures Cycles(delay, k, most) <= room * (most + 1)
  {
    if k != 0 {
      assert room * (most + 1) == (room - k) * (most + 1) + (k - 1) * (most + 1) + most + 1;
      assert 0 <= (room - k) * (most + 1);
    }
  }

  lemma TakenFirst<T>(os: seq<Outcome<T>>)
    requires os != []
    ensures |Taken(os)| == OutCount(os[0]) + |Taken(os[1..])|
  {
  }

  lemma AcceptedFirst<T>(ds: seq<Demand<T>>, os: seq<Outcome<T>>, k: nat)
    requires 0 < k <= |ds| == |os|
    ensures |Accepted(ds[..k], os[..k])| == InCount(ds[0], os[0]) + |Accepted(ds[1..][..k - 1], os[1..][..k - 1])|
  {
    assert ds[..k][1..] == ds[1..][..k - 1] && os[..k][1..] == os[1..][..k - 1];
  }

  /** So all that is inside, and all accepted in the next k cycles, leaves within the bound. */
  lemma {:induction false} TraceIsPrompt<T>(ds: seq<Demand<T>>, os: seq<Outcome<T>>, ps: seq<Point>, room: nat, most: nat,
                                           bound: nat, k: nat)
    requires Traced(ds, os, ps, room, most) && room * (most + 1) <= bound && k + bound <= |ds|
    ensures ps[0].inside + |Accepted(ds[..k], os[..k])| <= |Taken(os)|
    decreases k
  {
    if k == 0 {
      Within(ps[0].delay, ps[0].inside, room, most);
      FirstLeave(ds, os, ps, room, most, ps[0].inside);
    } else {
      TraceIsPrompt(ds[1..], os[1..], ps[1..], room, most, bound, k - 1);
      TakenFirst(os);
      AcceptedFirst(ds, os, k);
    }
  }

  lemma TracedIsPrompt<T>(ds: seq<Demand<T>>, os: seq<Outcome<T>>, ps: seq<Point>, room: nat, most: nat)
    requires Traced(ds, os, ps, room, most)
    ensures Prompt(ds, os, room * (most + 1))
  {
    var bound := room * (most + 1);
    forall k: nat | k + bound <= |ds| ensures |Accepted(ds[..k], os[..k])| <= |Taken(os)| {
      TraceIsPrompt(ds, os, ps, room, most, bound, k);
    }
  }
}
