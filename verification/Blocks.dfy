/** Runs of equal values: a sequence made of blocks, each holding one of several values for as long
as that value's target. */
module Blocks {

  ghost predicate BlockAt(targets: seq<nat>, starts: seq<nat>, ps: seq<nat>, j: nat)
    requires |starts| == |ps| + 1 && j < |ps|
  {
    ps[j] < |targets| && starts[j + 1] == starts[j] + targets[ps[j]]
  }

  /** Block `j` begins at `starts[j]`, is of the value at position `ps[j]`, and ends where the next begins. */
  ghost predicate AreBlocks(targets: seq<nat>, starts: seq<nat>, ps: seq<nat>) {
    |starts| == |ps| + 1 && forall j | 0 <= j < |ps| :: BlockAt(targets, starts, ps, j)
  }

  lemma {:induction false} StartsGrow(targets: seq<nat>, starts: seq<nat>, ps: seq<nat>, i: nat, j: nat)
    requires AreBlocks(targets, starts, ps) && i <= j <= |ps|
    ensures starts[i] <= starts[j]
    decreases j
  {
    if i < j {
      assert BlockAt(targets, starts, ps, j - 1);
      StartsGrow(targets, starts, ps, i, j - 1);
    }
  }

  ghost predicate Filled<T>(xs: seq<T>, lo: nat, hi: nat, v: T) {
    lo <= hi <= |xs| && forall i | lo <= i < hi :: xs[i] == v
  }

  ghost predicate BlocksFilled<T>(xs: seq<T>, vals: seq<T>, starts: seq<nat>, ps: seq<nat>)
    requires |starts| == |ps| + 1
  {
    forall j | 0 <= j < |ps| :: ps[j] < |vals| && Filled(xs, starts[j], starts[j + 1], vals[ps[j]])
  }

  ghost predicate AllDifferent<T>(xs: seq<T>) { forall i, j | 0 <= i < j < |xs| :: xs[i] != xs[j] }

  // ---------------------------------------------------------------- counting

  lemma {:induction false} FilledCount<T>(xs: seq<T>, lo: nat, hi: nat, v: T, w: T)
    requires Filled(xs, lo, hi, v)
    ensures multiset(xs[lo..hi])[w] == if v == w then hi - lo else 0
    decreases hi
  {
    if lo < hi {
      assert xs[lo..hi] == xs[lo..hi - 1] + [xs[hi - 1]];
      FilledCount(xs, lo, hi - 1, v, w);
    }
  }

  /** How long the value at `p` holds in the first `n` blocks. */
  ghost function Turns(ps: seq<nat>, n: nat, p: nat, target: nat): nat
    requires n <= |ps|
  {
    if n == 0 then 0 else Turns(ps, n - 1, p, target) + if ps[n - 1] == p then target else 0
  }

  ghost function Times(ps: seq<nat>, n: nat, p: nat): nat
    requires n <= |ps|
  {
    if n == 0 then 0 else Times(ps, n - 1, p) + if ps[n - 1] == p then 1 else 0
  }

  lemma {:induction false} TurnsOnce(ps: seq<nat>, n: nat, p: nat, target: nat)
    requires n <= |ps| && target > 0
    ensures Times(ps, n, p) == 0 ==> Turns(ps, n, p, target) == 0
    ensures Times(ps, n, p) >= 1 ==> Turns(ps, n, p, target) >= target
    ensures Turns(ps, n, p, target) == target <==> Times(ps, n, p) == 1
  {
    if n > 0 { TurnsOnce(ps, n - 1, p, target); }
  }

  lemma {:induction false} BlocksCount<T>(xs: seq<T>, vals: seq<T>, targets: seq<nat>, starts: seq<nat>, ps: seq<nat>,
                                          n: nat, p: nat)
    requires AreBlocks(targets, starts, ps) && BlocksFilled(xs, vals, starts, ps) && AllDifferent(vals)
    requires |vals| == |targets| && n <= |ps| && p < |vals| && starts[0] <= starts[n] <= |xs|
    ensures multiset(xs[starts[0]..starts[n]])[vals[p]] == Turns(ps, n, p, targets[p])
  {
    if n > 0 {
      var lo, mid, hi, q := starts[0], starts[n - 1], starts[n], ps[n - 1];
      assert BlockAt(targets, starts, ps, n - 1) && Filled(xs, mid, hi, vals[q]);
      StartsGrow(targets, starts, ps, 0, n - 1);
      BlocksCount(xs, vals, targets, starts, ps, n - 1, p);
      FilledCount(xs, mid, hi, vals[q], vals[p]);
      assert xs[lo..hi] == xs[lo..mid] + xs[mid..hi];
      assert vals[q] == vals[p] <==> q == p;
    }
  }

  // ---------------------------------------------------------------- each once

  lemma {:induction false} TimesUpTo(ps: seq<nat>, n: nat, p: nat)
    requires n <= |ps|
    ensures Times(ps, n, p) == 0 <==> p !in ps[..n]
    ensures AllDifferent(ps) ==> Times(ps, n, p) <= 1
  {
    if n > 0 {
      TimesUpTo(ps, n - 1, p);
      assert ps[..n] == ps[..n - 1] + [ps[n - 1]];
      if ps[n - 1] == p && p in ps[..n - 1] {
        var i :| 0 <= i < n - 1 && ps[i] == p;
      }
    }
  }

  lemma {:induction false} TimesTwice(ps: seq<nat>, n: nat, i: nat, j: nat)
    requires i < j < n <= |ps| && ps[i] == ps[j]
    ensures Times(ps, n, ps[i]) >= 2
  {
    if n - 1 == j {
      TimesUpTo(ps, j, ps[i]);
      assert ps[..j][i] == ps[i];
    } else {
      TimesTwice(ps, n - 1, i, j);
    }
  }

  function Upto(n: nat): (s: set<nat>)
    ensures forall p: nat :: p in s <==> p < n
    ensures |s| == n
  {
    if n == 0 then {} else Upto(n - 1) + {n - 1}
  }

  function Seen(ps: seq<nat>, n: nat): (s: set<nat>)
    requires n <= |ps|
    ensures forall p :: p in s <==> p in ps[..n]
  {
    if n == 0 then {}
    else
      assert ps[..n] == ps[..n - 1] + [ps[n - 1]];
      Seen(ps, n - 1) + {ps[n - 1]}
  }

  lemma {:induction false} DifferentSize(ps: seq<nat>, n: nat)
    requires AllDifferent(ps) && n <= |ps|
    ensures |Seen(ps, n)| == n
  {
    if n > 0 {
      DifferentSize(ps, n - 1);
      assert ps[n - 1] !in ps[..n - 1];
    }
  }

  lemma DifferentCoverAll(ps: seq<nat>, p: nat)
    requires AllDifferent(ps) && p < |ps| && forall j | 0 <= j < |ps| :: ps[j] < |ps|
    ensures Times(ps, |ps|, p) == 1
  {
    var seen, all := Seen(ps, |ps|), Upto(|ps|);
    DifferentSize(ps, |ps|);
    assert ps[..|ps|] == ps;
    assert seen <= all;
    assert |all - seen| == |all| - |seen|;
    assert p !in all - seen;
    TimesUpTo(ps, |ps|, p);
  }

  /** With as many blocks as values: every value comes once, exactly if none comes twice. */
  lemma EachOnceIff(ps: seq<nat>)
    requires forall j | 0 <= j < |ps| :: ps[j] < |ps|
    ensures AllDifferent(ps) <==> forall p: nat | p < |ps| :: Times(ps, |ps|, p) == 1
  {
    if AllDifferent(ps) {
      forall p: nat | p < |ps| ensures Times(ps, |ps|, p) == 1 { DifferentCoverAll(ps, p); }
    } else {
      var i, j :| 0 <= i < j < |ps| && ps[i] == ps[j];
      TimesTwice(ps, |ps|, i, j);
    }
  }

  ghost predicate ExactShare<T>(xs: seq<T>, v: T, target: nat) { multiset(xs)[v] == target }

  /** The values hold for exactly their targets in as many blocks as there are values, exactly if no
      two of the blocks are of the same value. */
  lemma SharesIff<T>(xs: seq<T>, vals: seq<T>, targets: seq<nat>, starts: seq<nat>, ps: seq<nat>)
    requires AreBlocks(targets, starts, ps) && BlocksFilled(xs, vals, starts, ps) && AllDifferent(vals)
    requires |vals| == |targets| == |ps| && starts[0] <= starts[|ps|] <= |xs|
             && forall p | 0 <= p < |targets| :: targets[p] > 0
    ensures (forall p: nat | p < |ps| :: ExactShare(xs[starts[0]..starts[|ps|]], vals[p], targets[p]))
            <==> AllDifferent(ps)
  {
    var n, window := |ps|, xs[starts[0]..starts[|ps|]];
    forall p: nat | p < n ensures ExactShare(window, vals[p], targets[p]) <==> Times(ps, n, p) == 1 {
      BlocksCount(xs, vals, targets, starts, ps, n, p);
      TurnsOnce(ps, n, p, targets[p]);
    }
    forall j | 0 <= j < n ensures ps[j] < n { assert BlockAt(targets, starts, ps, j); }
    EachOnceIff(ps);
    if AllDifferent(ps) {
      forall p: nat | p < n ensures ExactShare(window, vals[p], targets[p]) { assert Times(ps, n, p) == 1; }
    } else {
      var p: nat :| p < n && Times(ps, n, p) != 1;
      assert !ExactShare(window, vals[p], targets[p]);
    }
  }
}
