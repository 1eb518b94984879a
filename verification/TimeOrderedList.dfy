/** The time-ordered list as it is: heap elements linked into a live list that ends at a sentinel,
    and a free list that recycles deleted elements. */
module TimeOrderedList {
  import opened TimeOrder

  class Element<T> {
    var next: Element?<T>
    var p: T
    var t: nat
    var d: nat

    constructor (p: T)
      ensures this.p == p
    {
      this.next, this.p, this.t, this.d := null, p, 0, 0;
    }
  }

  /** The element at index i of a list that ends at `end`. */
  ghost function At<T>(s: seq<Element<T>>, i: nat, end: Element?<T>): Element?<T> {
    if i < |s| then s[i] else end
  }

  /** The links go through s in order and then to `end`; so they form no cycle. */
  ghost predicate Chain<T>(s: seq<Element<T>>, end: Element?<T>)
    reads s`next
  {
    forall i :: 0 <= i < |s| ==> s[i].next == At(s, i + 1, end)
  }

  ghost predicate Distinct<T>(s: seq<Element<T>>) {
    forall i, j :: 0 <= i < j < |s| ==> s[i] != s[j]
  }

  ghost predicate Disjoint<T>(s: seq<Element<T>>, s': seq<Element<T>>) {
    forall i, j :: 0 <= i < |s| && 0 <= j < |s'| ==> s[i] != s'[j]
  }

  /** The elements of s store these entries. */
  ghost predicate Stores<T>(s: seq<Element<T>>, q: seq<Entry<T>>)
    reads s`p, s`t, s`d
  {
    |s| == |q| && forall i :: 0 <= i < |s| ==> q[i] == Entry(s[i].p, s[i].t, s[i].d)
  }

  lemma SameNodes<T>(live: seq<Element<T>>, free: seq<Element<T>>)
    requires live != []
    ensures (set e | e in live[1..]) + (set e | e in [live[0]] + free) == (set e | e in live) + (set e | e in free)
  {
    assert live == [live[0]] + live[1..];
  }

  class OrderedList<T> {
    const nill: Element<T>
    const blank: T
    var empties: Element?<T>
    var list: Element<T>
    var size: nat

    /** The elements of the live list and of the free list, in link order, and the live entries. */
    ghost var live: seq<Element<T>>
    ghost var free: seq<Element<T>>
    ghost var contents: seq<Entry<T>>

    ghost predicate Valid()
      reads this, live, free
    {
      && Distinct(live) && Distinct(free) && Disjoint(live, free) && nill !in live && nill !in free
      && list == At(live, 0, nill) && Chain(live, nill)
      && empties == At(free, 0, null) && Chain(free, null)
      && size == |live| && Stores(live, contents) && Sorted(contents)
    }

    /** Every element this list has ever allocated, but the sentinel. Valid says that each of them
        is in exactly one of the two lists. */
    ghost function Nodes(): set<Element<T>>
      reads `live, `free
    {
      (set e | e in live) + (set e | e in free)
    }

    constructor (blank: T)
      ensures Valid() && contents == [] && Nodes() == {} && fresh(nill)
    {
      nill := new Element(blank);
      this.blank := blank;
      empties, size, live, free, contents := null, 0, [], [], [];
      list := nill;
    }

    /** An element from the free list, or a new one. */
    method TakeEmpty() returns (e: Element<T>)
      requires Valid()
      modifies this`empties, this`free
      ensures Valid() && e !in live && e !in free && e != nill
      ensures if old(free) == [] then fresh(e) && Nodes() == old(Nodes()) else Nodes() + {e} == old(Nodes())
      ensures |free| <= |old(free)| && forall i :: 0 <= i < |free| ==> free[i] in old(free)
      ensures e in old(free) || fresh(e)
    {
      if empties == null {
        e := new Element(blank);
      } else {
        e := empties;
        empties := empties.next;
        assert free == [e] + free[1..];
        free := free[1..];
      }
    }

    /** Unlinks the first element and puts it at the head of the free list. */
    method DeleteTop()
      requires Valid()
      modifies this, live
      ensures Valid() && Nodes() == old(Nodes())
      ensures contents == if old(contents) == [] then [] else old(contents)[1..]
      ensures old(live) != [] ==> live == old(live)[1..]
    {
      if list != nill {
        SameNodes(live, free);
        Unlink();
        size := size - 1;
        live, free, contents := live[1..], [live[0]] + free, contents[1..];
      }
    }

    method Unlink()
      requires Distinct(live) && Disjoint(live, free) && live != []
      requires Chain(live, nill) && list == live[0] && Chain(free, null) && empties == At(free, 0, null)
      modifies `list, `empties, list`next
      ensures list == At(live[1..], 0, nill) && Chain(live[1..], nill)
      ensures empties == live[0] && Chain([live[0]] + free, null)
    {
      var e := list;
      list := list.next;
      e.next := empties;
      empties := e;
    }

    /** Walks behind everything that is due no later. */
    method FindPlace(t: nat) returns (ancestor: Element<T>, iter: Element<T>, ghost k: nat)
      requires nill !in live && list == At(live, 0, nill) && Chain(live, nill) && Stores(live, contents)
      ensures k <= |live| && iter == At(live, k, nill) && ancestor == if k == 0 then nill else live[k - 1]
      ensures (forall i :: 0 <= i < k ==> contents[i].t <= t) && (k < |live| ==> t < contents[k].t)
    {
      ancestor, iter, k := nill, list, 0;
      while iter != nill && iter.t <= t
        invariant k <= |live| && iter == At(live, k, nill)
        invariant ancestor == if k == 0 then nill else live[k - 1]
        invariant forall i :: 0 <= i < k ==> contents[i].t <= t
        decreases |live| - k
      {
        ancestor := iter;
        iter := iter.next;
        k := k + 1;
      }
    }

    /** Links an element in behind its ancestor, or at the head if that is the sentinel. */
    method LinkIn(e: Element<T>, ancestor: Element<T>, iter: Element<T>, ghost k: nat, ghost longer: seq<Element<T>>)
      requires Distinct(live) && nill !in live && e !in live && e != nill
      requires Chain(live, nill) && list == At(live, 0, nill)
      requires k <= |live| && iter == At(live, k, nill) && ancestor == if k == 0 then nill else live[k - 1]
      requires longer == live[..k] + [e] + live[k..]
      modifies this`list, live`next, e`next
      ensures list == At(longer, 0, nill) && Chain(longer, nill)
      ensures forall x: Element<T> :: old(allocated(x)) && x != e && x !in live ==> x.next == old(x.next)
    {
      if ancestor == nill {
        e.next := list;
        list := e;
      } else {
        e.next := iter;
        ancestor.next := e;
      }
      forall i | 0 <= i < |longer| ensures longer[i].next == At(longer, i + 1, nill) {
        if i < k {
          assert longer[i] == live[i];
        } else if k < i {
          assert longer[i] == live[i - 1] && old(live[i - 1].next) == At(live, i, nill);
        }
      }
    }

    /** Puts a filled element where it belongs. */
    method Place(e: Element<T>)
      requires Valid() && e !in live && e !in free && e != nill
      modifies this`list, this`size, this`live, this`contents, live`next, e`next
      ensures Valid() && contents == TimeOrder.Insert(old(contents), Entry(e.p, e.t, e.d))
      ensures Nodes() == old(Nodes()) + {e}
    {
      ghost var x := Entry(e.p, e.t, e.d);
      var ancestor, iter;
      ghost var k;
      ancestor, iter, k := FindPlace(e.t);
      InsertAt(contents, x, k);
      InsertSorted(contents, x);
      ghost var longer := live[..k] + [e] + live[k..];
      LongerDistinct(live, free, e, k, longer);
      LongerStores(live, contents, e, k, longer);
      LinkAndAdopt(e, ancestor, iter, k, longer, contents[..k] + [x] + contents[k..]);
    }

    /** Relinks the live list, and lets the ghost description follow. */
    method LinkAndAdopt(e: Element<T>, ancestor: Element<T>, iter: Element<T>, ghost k: nat,
                        ghost longer: seq<Element<T>>, ghost entries: seq<Entry<T>>)
      requires Valid() && e !in live && e !in free && e != nill
      requires k <= |live| && iter == At(live, k, nill) && ancestor == if k == 0 then nill else live[k - 1]
      requires longer == live[..k] + [e] + live[k..] && nill !in longer
      requires Distinct(longer) && Disjoint(longer, free)
      requires Stores(longer, entries) && Sorted(entries)
      modifies this`list, this`size, this`live, this`contents, live`next, e`next
      ensures Valid() && live == longer && contents == entries
    {
      LinkIn(e, ancestor, iter, k, longer);
      Adopt(longer, entries);
    }

    /** The lists have been relinked; the ghost description follows. */
    method Adopt(ghost longer: seq<Element<T>>, ghost entries: seq<Entry<T>>)
      requires Distinct(longer) && Distinct(free) && Disjoint(longer, free) && nill !in longer && nill !in free
      requires list == At(longer, 0, nill) && Chain(longer, nill)
      requires empties == At(free, 0, null) && Chain(free, null)
      requires size + 1 == |longer| && Stores(longer, entries) && Sorted(entries)
      modifies this`size, this`live, this`contents
      ensures Valid() && live == longer && contents == entries && free == old(free)
    {
      size := size + 1;
      live, contents := longer, entries;
    }

    static lemma LongerStores(live: seq<Element<T>>, contents: seq<Entry<T>>, e: Element<T>, k: nat,
                              longer: seq<Element<T>>)
      requires Stores(live, contents) && k <= |live| && longer == live[..k] + [e] + live[k..]
      ensures Stores(longer, contents[..k] + [Entry(e.p, e.t, e.d)] + contents[k..])
    {
    }

    static lemma LongerDistinct(live: seq<Element<T>>, free: seq<Element<T>>, e: Element<T>, k: nat,
                                longer: seq<Element<T>>)
      requires Distinct(live) && Disjoint(live, free) && e !in live && e !in free
      requires k <= |live| && longer == live[..k] + [e] + live[k..]
      ensures Distinct(longer) && Disjoint(longer, free)
      ensures (set x | x in longer) == (set x | x in live) + {e}
      ensures forall x :: x in longer ==> x in live || x == e
    {
      forall i, j | 0 <= i < j < |longer| ensures longer[i] != longer[j] {
        assert longer[i] == if i < k then live[i] else if i == k then e else live[i - 1];
        assert longer[j] == if j < k then live[j] else if j == k then e else live[j - 1];
      }
    }

    /** Inserts behind everything that is due no later. The element comes from the free list if
        there is one there. */
    method Insert(p: T, t: nat, delta: nat)
      requires Valid()
      modifies this, live, free
      ensures Valid() && contents == TimeOrder.Insert(old(contents), Entry(p, t, delta))
      ensures if old(free) != [] then Nodes() == old(Nodes())
              else exists e :: fresh(e) && Nodes() == old(Nodes()) + {e}
    {
      var e := TakeEmpty();
      Fill(e, p, t, delta);
      Place(e);
    }

    method Fill(e: Element<T>, p: T, t: nat, delta: nat)
      requires Valid() && e !in live && e !in free
      modifies e`p, e`t, e`d
      ensures Valid() && e.p == p && e.t == t && e.d == delta
    {
      e.p, e.t, e.d := p, t, delta;
    }

    /** Moves every live element to the free list. */
    method Reset()
      requires Valid()
      modifies this, live
      ensures Valid() && contents == [] && Nodes() == old(Nodes())
    {
      while size != 0
        invariant Valid() && Nodes() == old(Nodes())
        invariant forall i :: 0 <= i < |live| ==> live[i] in old(live)
        decreases size
      {
        DeleteTop();
      }
    }

    /** The first entry. */
    method Top() returns (e: Entry<T>)
      requires Valid() && size != 0
      ensures contents != [] && e == contents[0]
    {
      e := Entry(list.p, list.t, list.d);
    }

    /** Insert, with the nodes afterwards as they are seen from outside: the same and at most one more,
        a new one. */
    method Add(p: T, t: nat, delta: nat)
      requires Valid()
      modifies this, live, free
      ensures Valid() && contents == TimeOrder.Insert(old(contents), Entry(p, t, delta))
      ensures old(Nodes()) <= Nodes() && fresh(Nodes() - old(Nodes())) && |Nodes() - old(Nodes())| <= 1
      ensures old(free) != [] ==> Nodes() == old(Nodes())
    {
      ghost var before := Nodes();
      Insert(p, t, delta);
      if Nodes() != before {
        ghost var e :| fresh(e) && Nodes() == before + {e};
        assert Nodes() - before <= {e};
        OneAtMost(Nodes() - before, e);
      } else {
        assert Nodes() - before == {};
      }
    }

    static lemma OneAtMost(s: set<Element<T>>, e: Element<T>)
      requires s <= {e}
      ensures |s| <= 1
    {
      assert s == {} || s == {e};
    }
  }
}
