/** The temporal assertion monitors: ring buffers of past values decide, at each call, whether a
    consequent held somewhere, or stayed stable, in a window after an antecedent. */
module Monitor {

  /** The contents of a ring of fixed size, oldest first, when `start` is the oldest slot. */
  function Window<T>(ring: seq<T>, start: nat): (w: seq<T>)
    requires start <= |ring|
    ensures |w| == |ring|
  {
    ring[start..] + ring[..start]
  }

  /** Overwriting the oldest slot and moving on drops the oldest value and appends the new one. */
  lemma Overwrite<T>(ring: seq<T>, start: nat, x: T)
    requires start < |ring|
    ensures Window(ring[start := x], (start + 1) % |ring|) == Window(ring, start)[1..] + [x]
  {
    if start + 1 == |ring| {
      assert (start + 1) % |ring| == 0;
    } else {
      assert (start + 1) % |ring| == start + 1;
    }
  }

  lemma SameValues<T>(ring: seq<T>, start: nat, x: T)
    requires start <= |ring|
    ensures x in Window(ring, start) <==> x in ring
  {
    assert ring == ring[..start] + ring[start..];
  }

  /** The last n values of a history; before its beginning everything reads as `pad`. */
  function Last<T>(history: seq<T>, n: nat, pad: T): (w: seq<T>)
    ensures |w| == n
    ensures forall i :: 0 <= i < n ==> w[i] == At(history, |history| - n + i, pad)
  {
    seq(n, i requires 0 <= i < n => At(history, |history| - n + i, pad))
  }

  function At<T>(history: seq<T>, i: int, pad: T): T
    requires i < |history|
  {
    if i < 0 then pad else history[i]
  }

  lemma LastPush<T>(history: seq<T>, n: nat, pad: T, x: T)
    requires 0 < n
    ensures Last(history + [x], n, pad) == Last(history, n, pad)[1..] + [x]
  {
  }

  /** The consequent held nowhere in the window that ends with call t, although the antecedent held
      `hi` calls before. */
  ghost predicate Missed(lefts: seq<bool>, rights: seq<bool>, lo: nat, hi: nat, t: nat)
    requires lo <= hi && t < |lefts| == |rights|
  {
    hi <= t && lefts[t - hi] && forall i :: t - hi + lo <= i <= t ==> !rights[i]
  }

  /** What the assertion demands of a whole history: whenever the antecedent holds, the consequent
      holds at some call between `lo` and `hi` calls later, as far as the history goes. */
  ghost predicate Holds(lefts: seq<bool>, rights: seq<bool>, lo: nat, hi: nat)
    requires lo <= hi && |lefts| == |rights|
  {
    forall s :: 0 <= s && s + hi < |lefts| && lefts[s] ==> exists i :: s + lo <= i <= s + hi && rights[i]
  }

  /** A history satisfies the assertion exactly if no call misses. */
  lemma HoldsIffNeverMissed(lefts: seq<bool>, rights: seq<bool>, lo: nat, hi: nat)
    requires lo <= hi && |lefts| == |rights|
    ensures Holds(lefts, rights, lo, hi) <==> forall t :: 0 <= t < |lefts| ==> !Missed(lefts, rights, lo, hi, t)
  {
    if Holds(lefts, rights, lo, hi) {
      forall t | 0 <= t < |lefts| ensures !Missed(lefts, rights, lo, hi, t) {
        if hi <= t && lefts[t - hi] {
          assert (t - hi) + hi < |lefts|;
        }
      }
    } else {
      var s :| 0 <= s && s + hi < |lefts| && lefts[s] && forall i :: s + lo <= i <= s + hi ==> !rights[i];
      assert Missed(lefts, rights, lo, hi, s + hi);
    }
  }

  /** A single time: the consequent holds exactly that many calls after each antecedent. */
  lemma SingleTimeIff(lefts: seq<bool>, rights: seq<bool>, n: nat)
    requires |lefts| == |rights|
    ensures Holds(lefts, rights, n, n) <==> forall s :: 0 <= s < |lefts| - n && lefts[s] ==> rights[s + n]
  {
    if Holds(lefts, rights, n, n) {
      forall s | 0 <= s < |lefts| - n && lefts[s] ensures rights[s + n] {
        assert s + n < |lefts|;
      }
    }
  }

  /** One antecedent with one consequent d calls later is accepted exactly if d is in the interval, both
      ends included. */
  lemma InIntervalIff(lo: nat, hi: nat, d: nat, n: nat)
    requires lo <= hi < n && d < n
    ensures Holds(Once(0, n), Once(d, n), lo, hi) <==> lo <= d <= hi
  {
    var lefts, rights := Once(0, n), Once(d, n);
    assert lefts[0] && 0 + hi < |lefts|;
    if lo <= d <= hi {
      forall s | 0 <= s && s + hi < |lefts| && lefts[s] ensures exists i :: s + lo <= i <= s + hi && rights[i] {
        assert s == 0 && rights[d];
      }
    }
  }

  /** True at call k only. */
  function Once(k: nat, n: nat): (r: seq<bool>)
    ensures |r| == n && forall i :: 0 <= i < n ==> r[i] == (i == k)
  {
    seq(n, i => i == k)
  }

  /** Whether a call misses does not depend on later ones. */
  lemma MissedSoFar(lefts: seq<bool>, rights: seq<bool>, lo: nat, hi: nat, t: nat)
    requires lo <= hi && t < |lefts| == |rights|
    ensures Missed(lefts[..t] + [lefts[t]], rights[..t] + [rights[t]], lo, hi, t) == Missed(lefts, rights, lo, hi, t)
  {
    var rs := rights[..t] + [rights[t]];
    assert forall i :: 0 <= i <= t ==> rs[i] == rights[i];
  }

  class Property {
    var pastSize: nat
    var timeInt: nat
    var leftPast: seq<bool>
    var rightPast: seq<bool>
    var lindx: nat
    var rindx: nat

    /** All arguments of the calls so far. */
    ghost var lefts: seq<bool>
    ghost var rights: seq<bool>

    ghost predicate Valid()
      reads this
    {
      && timeInt <= pastSize && |leftPast| == pastSize && |rightPast| == timeInt
      && lindx <= pastSize && (0 < pastSize ==> lindx < pastSize)
      && rindx <= timeInt && (0 < timeInt ==> rindx < timeInt)
      && |lefts| == |rights|
      && Window(leftPast, lindx) == Last(lefts, pastSize, false)
      && Window(rightPast, rindx) == Last(rights, timeInt, false)
    }

    constructor Init(loTime: nat, hiTime: nat)
      ensures Valid() && lefts == [] && rights == []
      ensures pastSize == (if loTime <= hiTime then hiTime else loTime)
      ensures timeInt == if loTime <= hiTime then hiTime - loTime else loTime - hiTime
    {
      var lo, hi := if loTime > hiTime then hiTime else loTime, if loTime > hiTime then loTime else hiTime;
      timeInt := hi - lo;
      pastSize := hi;
      leftPast := seq(hi, _ => false);
      rightPast := seq(hi - lo, _ => false);
      lindx, rindx := 0, 0;
      lefts, rights := [], [];
    }

    /** One call: a violation is reported exactly if this call misses. The values are stored only if
        there is none, as a violation ends the simulation. */
    method Check(lexpr: bool, rexpr: bool) returns (ok: bool)
      requires Valid()
      modifies this
      ensures pastSize == old(pastSize) && timeInt == old(timeInt)
      ensures ok == !Missed(old(lefts) + [lexpr], old(rights) + [rexpr], pastSize - timeInt, pastSize, |old(lefts)|)
      ensures ok ==> Valid() && lefts == old(lefts) + [lexpr] && rights == old(rights) + [rexpr]
    {
      var lcond := if pastSize != 0 then leftPast[lindx] else lexpr;
      ok := true;
      assert lcond == (pastSize <= |lefts| && (lefts + [lexpr])[|lefts| - pastSize]) by {
        if pastSize != 0 { assert leftPast[lindx] == Window(leftPast, lindx)[0]; }
      }
      if lcond {
        var rcond := rexpr;
        for i := 0 to timeInt
          invariant rcond == (rexpr || true in rightPast[..i])
        {
          rcond := rcond || rightPast[i];
        }
        assert rightPast[..timeInt] == rightPast;
        SeenIffHeld(rexpr);
        ok := rcond;
      }
      if ok { Store(lexpr, rexpr); }
    }

    /** Some stored consequent or the current one held exactly if one did in the window. */
    lemma SeenIffHeld(rexpr: bool)
      requires Valid() && pastSize <= |lefts|
      ensures (rexpr || true in rightPast) <==>
              exists i :: |rights| - timeInt <= i <= |rights| && (rights + [rexpr])[i]
    {
      var w := Last(rights, timeInt, false);
      SameValues(rightPast, rindx, true);
      if true in rightPast {
        var k :| 0 <= k < |w| && w[k];
        assert (rights + [rexpr])[|rights| - timeInt + k];
      }
      if i :| |rights| - timeInt <= i <= |rights| && (rights + [rexpr])[i] && i < |rights| {
        assert w[i - (|rights| - timeInt)];
      }
      if rexpr { assert (rights + [rexpr])[|rights|]; }
    }

    method Store(lexpr: bool, rexpr: bool)
      requires Valid()
      modifies this
      ensures Valid() && pastSize == old(pastSize) && timeInt == old(timeInt)
      ensures lefts == old(lefts) + [lexpr] && rights == old(rights) + [rexpr]
    {
      if pastSize != 0 {
        Overwrite(leftPast, lindx, lexpr);
        LastPush(lefts, pastSize, false, lexpr);
        leftPast := leftPast[lindx := lexpr];
        lindx := (lindx + 1) % pastSize;
      }
      if timeInt != 0 {
        Overwrite(rightPast, rindx, rexpr);
        LastPush(rights, timeInt, false, rexpr);
        rightPast := rightPast[rindx := rexpr];
        rindx := (rindx + 1) % timeInt;
      }
      lefts, rights := lefts + [lexpr], rights + [rexpr];
    }
  }

  /** Sound and complete on whole streams: the monitor gets through exactly those that satisfy the
      assertion. */
  method Accepts(lefts: seq<bool>, rights: seq<bool>, lo: nat, hi: nat) returns (ok: bool)
    requires lo <= hi && |lefts| == |rights|
    ensures ok <==> Holds(lefts, rights, lo, hi)
  {
    var p := new Property.Init(lo, hi);
    HoldsIffNeverMissed(lefts, rights, lo, hi);
    for t := 0 to |lefts|
      invariant p.Valid() && p.pastSize == hi && p.timeInt == hi - lo
      invariant p.lefts == lefts[..t] && p.rights == rights[..t]
      invariant forall k :: 0 <= k < t ==> !Missed(lefts, rights, lo, hi, k)
    {
      ok := p.Check(lefts[t], rights[t]);
      MissedSoFar(lefts, rights, lo, hi, t);
      assert lefts[..t] + [lefts[t]] == lefts[..t + 1] && rights[..t] + [rights[t]] == rights[..t + 1];
      if !ok { return; }
    }
    ok := true;
  }
}
