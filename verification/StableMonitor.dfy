/** The second form of the monitors: after an antecedent the consequent must stay the same, or
    rise, or fall, with respect to its previous value. Before the first call values read as 0. */
module StableMonitor {
  import opened Monitor

  datatype Kind = Stable | Rose | Fell

  /** The consequent at call i, against its value one call earlier. */
  predicate Fits(kind: Kind, rights: seq<int>, i: nat)
    requires i < |rights|
  {
    var before := At(rights, i - 1, 0);
    match kind
    case Stable => rights[i] == before
    case Rose => rights[i] > before
    case Fell => rights[i] < before
  }

  /** At each call exactly one of the three forms fits: the value rose, fell or stayed, the one before the
      first call being 0. */
  lemma OneFormFits(rights: seq<int>, i: nat)
    requires i < |rights|
    ensures var before := if i == 0 then 0 else rights[i - 1];
            && (Fits(Rose, rights, i) <==> before < rights[i]) && (Fits(Fell, rights, i) <==> rights[i] < before)
            && (Fits(Stable, rights, i) <==> !Fits(Rose, rights, i) && !Fits(Fell, rights, i))
  {
  }

  /** Call t misses: the antecedent held `hi` calls before, and somewhere in the window that ends
      with call t the consequent does not do what it should. */
  ghost predicate Unfit(kind: Kind, lefts: seq<bool>, rights: seq<int>, lo: nat, hi: nat, t: nat)
    requires lo <= hi && t < |lefts| == |rights|
  {
    hi <= t && lefts[t - hi] && exists i :: t - hi + lo <= i <= t && !Fits(kind, rights, i)
  }

  /** What the assertion demands of a whole history. */
  ghost predicate Steady(kind: Kind, lefts: seq<bool>, rights: seq<int>, lo: nat, hi: nat)
    requires lo <= hi && |lefts| == |rights|
  {
    forall s :: 0 <= s && s + hi < |lefts| && lefts[s] ==>
      forall i :: s + lo <= i <= s + hi ==> Fits(kind, rights, i)
  }

  /** One antecedent and a consequent that rises from 0 once, d calls later, is not stable exactly if that
      is in the interval. */
  lemma InIntervalIff(lo: nat, hi: nat, d: nat, n: nat)
    requires lo <= hi < n && 0 < d < n
    ensures Steady(Stable, Once(0, n), Step(d, n), lo, hi) <==> !(lo <= d <= hi)
  {
    var lefts, rights := Once(0, n), Step(d, n);
    assert lefts[0] && 0 + hi < |lefts|;
    assert forall i :: 0 <= i < n ==> Fits(Stable, rights, i) == (i != d);
    if lo <= d <= hi {
      assert 0 + lo <= d <= 0 + hi && !Fits(Stable, rights, d);
    } else {
      forall s, i | 0 <= s && s + hi < |lefts| && lefts[s] && s + lo <= i <= s + hi ensures Fits(Stable, rights, i) {
        assert s == 0;
      }
    }
  }

  function Step(d: nat, n: nat): (r: seq<int>)
    ensures |r| == n && forall i :: 0 <= i < n ==> r[i] == if i < d then 0 else 1
  {
    seq(n, i => if i < d then 0 else 1)
  }

  lemma SteadyIffNeverUnfit(kind: Kind, lefts: seq<bool>, rights: seq<int>, lo: nat, hi: nat)
    requires lo <= hi && |lefts| == |rights|
    ensures Steady(kind, lefts, rights, lo, hi)
            <==> forall t :: 0 <= t < |lefts| ==> !Unfit(kind, lefts, rights, lo, hi, t)
  {
    if Steady(kind, lefts, rights, lo, hi) {
      forall t | 0 <= t < |lefts| ensures !Unfit(kind, lefts, rights, lo, hi, t) {
        if hi <= t && lefts[t - hi] {
          assert (t - hi) + hi < |lefts|;
        }
      }
    } else {
      var s :| 0 <= s && s + hi < |lefts| && lefts[s] && exists i :: s + lo <= i <= s + hi && !Fits(kind, rights, i);
      assert Unfit(kind, lefts, rights, lo, hi, s + hi);
    }
  }

  /** Whether a call misses does not depend on later ones. */
  lemma UnfitSoFar(kind: Kind, lefts: seq<bool>, rights: seq<int>, lo: nat, hi: nat, t: nat)
    requires lo <= hi && t < |lefts| == |rights|
    ensures Unfit(kind, lefts[..t] + [lefts[t]], rights[..t] + [rights[t]], lo, hi, t) == Unfit(kind, lefts, rights, lo, hi, t)
  {
    var rs := rights[..t] + [rights[t]];
    assert forall i :: 0 <= i <= t ==> rs[i] == rights[i];
    assert forall i :: 0 <= i <= t ==> Fits(kind, rs, i) == Fits(kind, rights, i);
  }

  /** The comparisons of one call, all with the newest value, against the steps of the window, each
      with its own predecessor. */
  lemma {:induction false} AllEqualIffNoStep(rights: seq<int>, n: nat)
    requires n < |rights|
    ensures var x := rights[|rights| - 1];
            (forall k :: |rights| - 2 - n <= k < |rights| - 1 ==> At(rights, k, 0) == x)
            <==> (forall i :: |rights| - 1 - n <= i < |rights| ==> Fits(Stable, rights, i))
  {
    var last := |rights| - 1;
    if n == 0 {
      assert Fits(Stable, rights, last) == (At(rights, last - 1, 0) == rights[last]);
    } else {
      AllEqualIffNoStep(rights, n - 1);
      var i := last - n;
      assert Fits(Stable, rights, i) == (At(rights, i - 1, 0) == At(rights, i, 0));
      if forall i :: last - n <= i < |rights| ==> Fits(Stable, rights, i) {
        assert At(rights, i, 0) == rights[last];
      }
    }
  }

  class Property {
    const kind: Kind
    var pastSize: nat
    var timeInt: nat
    var leftPast: seq<bool>
    var rightPast: seq<int>
    var lindx: nat
    var rindx: nat

    /** All arguments of the calls so far. */
    ghost var lefts: seq<bool>
    ghost var rights: seq<int>

    ghost predicate Valid()
      reads this
    {
      && timeInt <= pastSize <= timeInt + 1 && (kind.Stable? || timeInt == 0)
      && |leftPast| == pastSize && |rightPast| == timeInt + 1
      && lindx <= pastSize && (0 < pastSize ==> lindx < pastSize)
      && rindx <= timeInt
      && |lefts| == |rights|
      && Window(leftPast, lindx) == Last(lefts, pastSize, false)
      && Window(rightPast, rindx) == Last(rights, timeInt + 1, 0)
    }

    /** An interval needs the stable form, and its lower end is 0 or 1. */
    constructor Init(kind: Kind, loTime: nat, hiTime: nat)
      requires kind.Stable? || loTime == hiTime
      requires loTime <= 1 || hiTime <= 1
      ensures Valid() && this.kind == kind && lefts == [] && rights == []
      ensures pastSize == (if loTime <= hiTime then hiTime else loTime)
      ensures timeInt == if loTime <= hiTime then hiTime - loTime else loTime - hiTime
    {
      var lo, hi := if loTime > hiTime then hiTime else loTime, if loTime > hiTime then loTime else hiTime;
      this.kind := kind;
      timeInt := hi - lo;
      pastSize := hi;
      leftPast := seq(hi, _ => false);
      rightPast := seq(hi - lo + 1, _ => 0);
      lindx, rindx := 0, 0;
      lefts, rights := [], [];
    }

    /** The comparison with the slot read first, and with all others for an interval. */
    method Compare(rexpr: int) returns (rcond: bool)
      requires Valid()
      ensures rcond == if kind.Stable? then forall k :: 0 <= k <= timeInt ==> rightPast[k] == rexpr
                       else if kind.Rose? then rexpr > rightPast[0] else rexpr < rightPast[0]
    {
      rcond := match kind
        case Stable => rexpr == rightPast[0]
        case Rose => rexpr > rightPast[0]
        case Fell => rexpr < rightPast[0];
      for i := 0 to timeInt
        invariant kind.Stable? ==> rcond == forall k :: 0 <= k <= i ==> rightPast[k] == rexpr
        invariant !kind.Stable? ==> rcond == if kind.Rose? then rexpr > rightPast[0] else rexpr < rightPast[0]
      {
        rcond := rcond && rexpr == rightPast[i + 1];
      }
    }

    /** One call: a violation is reported exactly if this call misses. */
    method Check(lexpr: bool, rexpr: int) returns (ok: bool)
      requires Valid()
      modifies this
      ensures pastSize == old(pastSize) && timeInt == old(timeInt)
      ensures ok == !Unfit(kind, old(lefts) + [lexpr], old(rights) + [rexpr], pastSize - timeInt, pastSize, |old(lefts)|)
      ensures ok ==> Valid() && lefts == old(lefts) + [lexpr] && rights == old(rights) + [rexpr]
    {
      var lcond := if pastSize != 0 then leftPast[lindx] else lexpr;
      ok := true;
      assert lcond == (pastSize <= |lefts| && (lefts + [lexpr])[|lefts| - pastSize]) by {
        if pastSize != 0 { assert leftPast[lindx] == Window(leftPast, lindx)[0]; }
      }
      if lcond {
        ok := Compare(rexpr);
        ComparedIffFits(rexpr);
      }
      if ok { Store(lexpr, rexpr); }
    }

    /** The comparisons of one call decide whether the window fits. */
    lemma ComparedIffFits(rexpr: int)
      requires Valid() && pastSize <= |lefts|
      ensures (if kind.Stable? then forall k :: 0 <= k <= timeInt ==> rightPast[k] == rexpr
               else if kind.Rose? then rexpr > rightPast[0] else rexpr < rightPast[0])
              <==> forall i :: |rights| - timeInt <= i <= |rights| ==> Fits(kind, rights + [rexpr], i)
    {
      var all, w := rights + [rexpr], Last(rights, timeInt + 1, 0);
      if kind.Stable? {
        AllEqualIffNoStep(all, timeInt);
        SlotsAreWindow(rexpr);
        assert forall k :: 0 <= k <= timeInt ==> w[k] == At(all, |all| - 2 - timeInt + k, 0);
        assert forall j :: |all| - 2 - timeInt <= j < |all| - 1 ==> At(all, j, 0) == w[j - (|all| - 2 - timeInt)];
      } else {
        assert rightPast[0] == Window(rightPast, rindx)[0] == w[0] == At(all, |rights| - 1, 0);
        assert Fits(kind, all, |rights|) == if kind.Rose? then rexpr > w[0] else rexpr < w[0];
      }
    }

    lemma SlotsAreWindow(x: int)
      requires Valid()
      ensures var w := Last(rights, timeInt + 1, 0);
              (forall k :: 0 <= k <= timeInt ==> rightPast[k] == x) <==> (forall k :: 0 <= k <= timeInt ==> w[k] == x)
    {
      var w := Window(rightPast, rindx);
      var n := |rightPast|;
      assert forall k :: 0 <= k < n ==> w[k] == rightPast[if k < n - rindx then k + rindx else k - (n - rindx)];
      assert forall k :: 0 <= k < n ==> rightPast[k] == w[if rindx <= k then k - rindx else k + (n - rindx)];
    }

    method Store(lexpr: bool, rexpr: int)
      requires Valid()
      modifies this
      ensures Valid() && pastSize == old(pastSize) && timeInt == old(timeInt)
      ensures lefts == old(lefts) + [lexpr] && rights == old(rights) + [rexpr]
    {
      if pastSize != 0 {
        Overwrite(leftPast, lindx, lexpr);
        LastPush(lefts, pastSize, false, lexpr);
        leftPast := leftPast[lindx := lexpr];
        if pastSize > 1 { lindx := (lindx + 1) % pastSize; }
      }
      Overwrite(rightPast, rindx, rexpr);
      LastPush(rights, timeInt + 1, 0, rexpr);
      rightPast := rightPast[rindx := rexpr];
      if timeInt != 0 { rindx := (rindx + 1) % (timeInt + 1); }
      lefts, rights := lefts + [lexpr], rights + [rexpr];
    }
  }

  /** Sound and complete on whole streams. */
  method Accepts(kind: Kind, lefts: seq<bool>, rights: seq<int>, lo: nat, hi: nat) returns (ok: bool)
    requires lo <= hi && lo <= 1 && (kind.Stable? || lo == hi) && |lefts| == |rights|
    ensures ok <==> Steady(kind, lefts, rights, lo, hi)
  {
    var p := new Property.Init(kind, lo, hi);
    SteadyIffNeverUnfit(kind, lefts, rights, lo, hi);
    for t := 0 to |lefts|
      invariant p.Valid() && p.kind == kind && p.pastSize == hi && p.timeInt == hi - lo
      invariant p.lefts == lefts[..t] && p.rights == rights[..t]
      invariant forall k :: 0 <= k < t ==> !Unfit(kind, lefts, rights, lo, hi, k)
    {
      ok := p.Check(lefts[t], rights[t]);
      UnfitSoFar(kind, lefts, rights, lo, hi, t);
      assert lefts[..t] + [lefts[t]] == lefts[..t + 1] && rights[..t] + [rights[t]] == rights[..t + 1];
      if !ok { return; }
    }
    ok := true;
  }
}
