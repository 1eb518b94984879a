/** Ring buffers: the storage of every queue channel of the library.
    A ring is a buffer, the index of its oldest element and a count. */
module Ring {

  /** An index one step after i, as every channel advances its pop and push index. */
  function Next(i: nat, length: nat): (r: nat)
    requires i < length
    ensures r < length
  {
    if i == length - 1 then 0 else i + 1
  }

  /** i reduced modulo length, for an i that is at most one lap ahead. */
  function Wrap(i: nat, length: nat): (r: nat)
    requires 0 < length && i < 2 * length
    ensures r < length
  {
    if i < length then i else i - length
  }

  /** The elements of the ring, oldest first. */
  function Contents<T>(buffer: seq<T>, start: nat, count: nat): (q: seq<T>)
    requires start < |buffer|
    ensures |q| == count
    decreases count
  {
    if count == 0 then [] else [buffer[start]] + Contents(buffer, Next(start, |buffer|), count - 1)
  }

  /** Writing the slot after the newest element appends to the queue. */
  lemma {:induction false} PushBack<T>(buffer: seq<T>, start: nat, count: nat, x: T)
    requires start < |buffer| && count < |buffer|
    ensures var slot := Wrap(start + count, |buffer|);
            Contents(buffer[slot := x], start, count + 1) == Contents(buffer, start, count) + [x]
    decreases count
  {
    if count != 0 {
      PushBack(buffer, Next(start, |buffer|), count - 1, x);
      assert Wrap(Next(start, |buffer|) + count - 1, |buffer|) == Wrap(start + count, |buffer|);
    }
  }

  /** A slot by its distance from the oldest one. */
  lemma {:induction false} ContentsAt<T>(buffer: seq<T>, start: nat, count: nat, k: nat)
    requires start < |buffer| && k < count <= |buffer|
    ensures Contents(buffer, start, count)[k] == buffer[Wrap(start + k, |buffer|)]
    decreases k
  {
    if k != 0 {
      ContentsAt(buffer, Next(start, |buffer|), count - 1, k - 1);
      assert Wrap(Next(start, |buffer|) + k - 1, |buffer|) == Wrap(start + k, |buffer|);
    }
  }

  /** Counting fewer elements leaves the oldest ones. */
  lemma {:induction false} ContentsTake<T>(buffer: seq<T>, start: nat, count: nat, k: nat)
    requires start < |buffer| && k <= count
    ensures Contents(buffer, start, k) == Contents(buffer, start, count)[..k]
    decreases k
  {
    if k != 0 {
      ContentsTake(buffer, Next(start, |buffer|), count - 1, k - 1);
    }
  }

  /** Moving the start past k elements leaves the others. */
  lemma {:induction false} ContentsDrop<T>(buffer: seq<T>, start: nat, count: nat, k: nat)
    requires start < |buffer| && k <= count <= |buffer|
    ensures Contents(buffer, Wrap(start + k, |buffer|), count - k) == Contents(buffer, start, count)[k..]
    decreases k
  {
    if k != 0 {
      ContentsDrop(buffer, Next(start, |buffer|), count - 1, k - 1);
      assert Wrap(Next(start, |buffer|) + k - 1, |buffer|) == Wrap(start + k, |buffer|);
    }
  }

  /** What one clock edge does to a ring: an optional push into the slot after the newest
      element together with an optional pop of the oldest one. A push into a full ring is fine
      when a pop happens at the same edge, and a pop from an empty one when a push does. */
  lemma Edge<T>(buffer: seq<T>, start: nat, count: nat, push: bool, x: T, pop: bool,
                buffer': seq<T>, start': nat, push': nat)
    requires start < |buffer| && count <= |buffer|
    requires pop ==> push || 0 < count
    requires push ==> pop || count < |buffer|
    requires buffer' == if push then buffer[Wrap(start + count, |buffer|) := x] else buffer
    requires start' == if pop then Next(start, |buffer|) else start
    requires push' == if push then Next(Wrap(start + count, |buffer|), |buffer|) else Wrap(start + count, |buffer|)
    ensures var count' := count + (if push then 1 else 0) - (if pop then 1 else 0);
            && 0 <= count' <= |buffer'|
            && push' == Wrap(start' + count', |buffer'|)
            && Contents(buffer', start', count')
               == (Contents(buffer, start, count) + (if push then [x] else []))[(if pop then 1 else 0)..]
  {
    if push && pop && count != 0 {
      PushBack(buffer, start', count - 1, x);
      assert Wrap(start' + count - 1, |buffer|) == Wrap(start + count, |buffer|);
    } else if push && !pop {
      PushBack(buffer, start, count, x);
    }
  }
}
