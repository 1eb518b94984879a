/** Queues of timed entries as values: insertion after everything that is not later. */
module TimeOrder {

  /** A payload, the time it is due and the delta count at which it was notified. */
  datatype Entry<+T> = Entry(p: T, t: nat, d: nat)

  ghost predicate Sorted<T>(q: seq<Entry<T>>) {
    forall i, j :: 0 <= i < j < |q| ==> q[i].t <= q[j].t
  }

  /** The entry goes behind all that are due no later. */
  function Insert<T>(q: seq<Entry<T>>, x: Entry<T>): (r: seq<Entry<T>>)
    ensures |r| == |q| + 1
  {
    if q == [] || x.t < q[0].t then [x] + q else [q[0]] + Insert(q[1..], x)
  }

  /** Entries notified one after the other. */
  function InsertAll<T>(xs: seq<Entry<T>>): (r: seq<Entry<T>>)
    ensures |r| == |xs|
  {
    if xs == [] then [] else Insert(InsertAll(xs[..|xs| - 1]), xs[|xs| - 1])
  }

  /** Where the entry goes: behind a prefix that is not later, before something that is. */
  lemma {:induction false} InsertAt<T>(q: seq<Entry<T>>, x: Entry<T>, k: nat)
    requires k <= |q|
    requires forall i :: 0 <= i < k ==> q[i].t <= x.t
    requires k < |q| ==> x.t < q[k].t
    ensures Insert(q, x) == q[..k] + [x] + q[k..]
    decreases k
  {
    if k != 0 {
      InsertAt(q[1..], x, k - 1);
      assert q[1..][..k - 1] == q[1..k] && q[1..][k - 1..] == q[k..];
      assert q[..k] == [q[0]] + q[1..k];
    }
  }

  lemma {:induction false} InsertAbove<T>(q: seq<Entry<T>>, x: Entry<T>, lo: nat)
    requires lo <= x.t && forall i :: 0 <= i < |q| ==> lo <= q[i].t
    ensures forall i :: 0 <= i < |q| + 1 ==> lo <= Insert(q, x)[i].t
  {
    if q != [] && q[0].t <= x.t {
      InsertAbove(q[1..], x, lo);
    }
  }

  lemma {:induction false} InsertSorted<T>(q: seq<Entry<T>>, x: Entry<T>)
    requires Sorted(q)
    ensures Sorted(Insert(q, x))
  {
    if q != [] && q[0].t <= x.t {
      InsertSorted(q[1..], x);
      InsertAbove(q[1..], x, q[0].t);
    }
  }

  lemma {:induction false} InsertKeeps<T>(q: seq<Entry<T>>, x: Entry<T>)
    ensures multiset(Insert(q, x)) == multiset(q) + multiset{x}
  {
    if q == [] || x.t < q[0].t {
      assert Insert(q, x) == [x] + q;
    } else {
      InsertKeeps(q[1..], x);
      assert q == [q[0]] + q[1..];
      assert Insert(q, x) == [q[0]] + Insert(q[1..], x);
    }
  }

  /** Entries due earlier than the new one are not looked past. */
  lemma {:induction false} InsertBehind<T>(a: seq<Entry<T>>, b: seq<Entry<T>>, x: Entry<T>)
    requires forall i :: 0 <= i < |a| ==> a[i].t <= x.t
    ensures Insert(a + b, x) == a + Insert(b, x)
  {
    if a != [] {
      assert (a + b)[1..] == a[1..] + b;
      InsertBehind(a[1..], b, x);
    } else {
      assert a + b == b;
    }
  }

  /** The order is stable: what is due at one time comes out in the order it was notified in. */
  function DueAt<T>(q: seq<Entry<T>>, t: nat): seq<Entry<T>> {
    if q == [] then [] else (if q[0].t == t then [q[0]] else []) + DueAt(q[1..], t)
  }

  lemma {:induction false} DueAtAppend<T>(a: seq<Entry<T>>, b: seq<Entry<T>>, t: nat)
    ensures DueAt(a + b, t) == DueAt(a, t) + DueAt(b, t)
  {
    if a == [] {
      assert a + b == b;
    } else {
      var ab := a + b;
      assert ab[0] == a[0] && ab[1..] == a[1..] + b;
      DueAtAppend(a[1..], b, t);
      var first := if a[0].t == t then [a[0]] else [];
      assert DueAt(ab, t) == first + (DueAt(a[1..], t) + DueAt(b, t));
    }
  }

  lemma {:induction false} InsertStable<T>(q: seq<Entry<T>>, x: Entry<T>, t: nat)
    requires Sorted(q)
    ensures DueAt(Insert(q, x), t) == DueAt(q, t) + if x.t == t then [x] else []
  {
    if q == [] || x.t < q[0].t {
      if x.t == t { NoneDue(q, t); }
    } else {
      InsertStable(q[1..], x, t);
    }
  }

  lemma {:induction false} NoneDue<T>(q: seq<Entry<T>>, t: nat)
    requires forall i :: 0 <= i < |q| ==> q[i].t != t
    ensures DueAt(q, t) == []
  {
    if q != [] { NoneDue(q[1..], t); }
  }

  lemma {:induction false} InsertAllKeeps<T>(xs: seq<Entry<T>>)
    ensures multiset(InsertAll(xs)) == multiset(xs)
  {
    if xs != [] {
      var front, last := xs[..|xs| - 1], xs[|xs| - 1];
      InsertAllKeeps(front);
      InsertKeeps(InsertAll(front), last);
      assert xs == front + [last];
    }
  }

  lemma {:induction false} InsertAllSorts<T>(xs: seq<Entry<T>>)
    ensures Sorted(InsertAll(xs))
  {
    if xs != [] {
      InsertAllSorts(xs[..|xs| - 1]);
      InsertSorted(InsertAll(xs[..|xs| - 1]), xs[|xs| - 1]);
    }
  }

  lemma {:induction false} InsertAllStable<T>(xs: seq<Entry<T>>, t: nat)
    ensures DueAt(InsertAll(xs), t) == DueAt(xs, t)
  {
    if xs != [] {
      var front, last := xs[..|xs| - 1], xs[|xs| - 1];
      InsertAllStable(front, t);
      InsertAllSorts(front);
      InsertStable(InsertAll(front), last, t);
      DueAtAppend(front, [last], t);
      assert xs == front + [last];
      DueAtOne(last, t);
    }
  }

  lemma DueAtOne<T>(x: Entry<T>, t: nat)
    ensures DueAt([x], t) == if x.t == t then [x] else []
  {
    assert [x][1..] == [];
  }

  /** Inserting all entries one by one sorts them by due time, keeps each of them, and keeps the
      order of notification among those due at the same time. */
  lemma InsertAllIsStableSort<T>(xs: seq<Entry<T>>, t: nat)
    ensures Sorted(InsertAll(xs)) && multiset(InsertAll(xs)) == multiset(xs)
    ensures DueAt(InsertAll(xs), t) == DueAt(xs, t)
  {
    InsertAllSorts(xs);
    InsertAllKeeps(xs);
    InsertAllStable(xs, t);
  }

  lemma {:induction false} InsertAllSorted<T>(q: seq<Entry<T>>)
    requires Sorted(q)
    ensures InsertAll(q) == q
  {
    if q != [] {
      var front := q[..|q| - 1];
      InsertAllSorted(front);
      assert front + [] == front;
      InsertBehind(front, [], q[|q| - 1]);
      assert q == front + [q[|q| - 1]];
    }
  }
}
