/** The elements of a sequence that are to be kept, each where it occurs and in order. */
module Sublists {

  predicate Increasing(at: seq<nat>) { forall j, k :: 0 <= j < k < |at| ==> at[j] < at[k] }

  /** `at` lists the positions in `xs` of what is in `keep`, and `ys` what is at these. */
  ghost predicate PicksAt<T>(xs: seq<T>, keep: set<T>, ys: seq<T>, at: seq<nat>) {
    && |at| == |ys|
    && (forall k :: 0 <= k < |at| ==> at[k] < |xs| && ys[k] == xs[at[k]] && ys[k] in keep)
    && Increasing(at)
    && (forall i :: 0 <= i < |xs| && xs[i] in keep ==> i in at)
  }

  ghost predicate Picks<T>(xs: seq<T>, keep: set<T>, ys: seq<T>) { exists at :: PicksAt(xs, keep, ys, at) }

  lemma PicksNone<T>(keep: set<T>)
    ensures Picks([], keep, [])
  {
    assert PicksAt([], keep, [], []);
  }

  function Shifted(at: seq<nat>): (r: seq<nat>)
    ensures |r| == |at| && forall k :: 0 <= k < |at| ==> r[k] == at[k] + 1
  {
    seq(|at|, k requires 0 <= k < |at| => at[k] + 1)
  }

  lemma PicksLater<T>(xs: seq<T>, keep: set<T>, ys: seq<T>, at: seq<nat>)
    requires xs != [] && xs[0] !in keep && PicksAt(xs[1..], keep, ys, at)
    ensures PicksAt(xs, keep, ys, Shifted(at))
  {
    forall i | 0 <= i < |xs| && xs[i] in keep ensures i in Shifted(at) {
      assert xs[1..][i - 1] in keep;
      var k :| 0 <= k < |at| && at[k] == i - 1;
      assert Shifted(at)[k] == i;
    }
  }

  lemma PicksFirst<T>(xs: seq<T>, keep: set<T>, ys: seq<T>, at: seq<nat>)
    requires xs != [] && xs[0] in keep && PicksAt(xs[1..], keep, ys, at)
    ensures PicksAt(xs, keep, [xs[0]] + ys, [0] + Shifted(at))
  {
    var (all, zs) := ([0] + Shifted(at), [xs[0]] + ys);
    forall k | 0 <= k < |all| ensures all[k] < |xs| && zs[k] == xs[all[k]] && zs[k] in keep {
      assert k > 0 ==> all[k] == at[k - 1] + 1 && zs[k] == ys[k - 1];
    }
    FirstIncreasing(at);
    forall i | 0 <= i < |xs| && xs[i] in keep ensures i in all { FirstCovers(xs, keep, ys, at, i); }
  }

  lemma FirstIncreasing(at: seq<nat>)
    requires Increasing(at)
    ensures Increasing([0] + Shifted(at))
  {
  }

  lemma FirstCovers<T>(xs: seq<T>, keep: set<T>, ys: seq<T>, at: seq<nat>, i: nat)
    requires xs != [] && PicksAt(xs[1..], keep, ys, at) && i < |xs| && xs[i] in keep
    ensures i in [0] + Shifted(at)
  {
    if i > 0 {
      assert xs[1..][i - 1] in keep;
      var k :| 0 <= k < |at| && at[k] == i - 1;
      assert Shifted(at)[k] == i;
    }
  }

  lemma PicksOne<T>(xs: seq<T>, keep: set<T>, ys: seq<T>)
    requires xs != [] && Picks(xs[1..], keep, ys)
    ensures Picks(xs, keep, if xs[0] in keep then [xs[0]] + ys else ys)
  {
    var at :| PicksAt(xs[1..], keep, ys, at);
    if xs[0] in keep { PicksFirst(xs, keep, ys, at); } else { PicksLater(xs, keep, ys, at); }
  }

  /** There is only one such list. */
  lemma PicksUnique<T>(xs: seq<T>, keep: set<T>, ys: seq<T>, zs: seq<T>)
    requires Picks(xs, keep, ys) && Picks(xs, keep, zs)
    ensures ys == zs
  {
    var at :| PicksAt(xs, keep, ys, at);
    var bt :| PicksAt(xs, keep, zs, bt);
    Within(xs, keep, ys, at, zs, bt);
    Within(xs, keep, zs, bt, ys, at);
    SamePositions(at, bt);
  }

  lemma Within<T>(xs: seq<T>, keep: set<T>, ys: seq<T>, at: seq<nat>, zs: seq<T>, bt: seq<nat>)
    requires PicksAt(xs, keep, ys, at) && PicksAt(xs, keep, zs, bt)
    ensures forall i :: i in at ==> i in bt
  {
  }

  lemma InitWithin(at: seq<nat>, bt: seq<nat>, m: nat, n: nat)
    requires Increasing(at) && |at| == m + 1 && |bt| == n + 1 && at[m] == bt[n] && forall i :: i in at ==> i in bt
    ensures forall i :: i in at[..m] ==> i in bt[..n]
  {
    forall i | i in at[..m] ensures i in bt[..n] { assert i in at && i != at[m]; }
  }

  lemma {:induction false} SamePositions(at: seq<nat>, bt: seq<nat>)
    requires Increasing(at) && Increasing(bt) && (forall i :: i in at ==> i in bt) && (forall i :: i in bt ==> i in at)
    ensures at == bt
  {
    assert bt == [] || bt[0] in at;
    if at == [] {
      assert bt == [];
    } else {
      var (m, n) := (|at| - 1, |bt| - 1);
      assert at[m] in bt && bt[n] in at;
      InitWithin(at, bt, m, n);
      InitWithin(bt, at, n, m);
      SamePositions(at[..m], bt[..n]);
      assert at == at[..m] + [at[m]] && bt == bt[..n] + [bt[n]];
    }
  }
}
