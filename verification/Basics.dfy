/** What the components share: result types, the time unit, bytes, substrings, names without repetition.

Instants and durations are whole nanoseconds, as in the standard clock type; an instant is
read once per modelled step and passed in as `now`.
*/
module Basics {
  datatype Option<+T> = None | Some(value: T)

  datatype Result<+T, +E> = Ok(value: T) | Err(error: E)

  const SECOND: int := 1_000_000_000

  function MinNat(x: nat, y: nat): nat { if x <= y then x else y }

  function MaxNat(x: nat, y: nat): nat { if x >= y then x else y }

  type byte = b: int | 0 <= b < 256

  // ---------------------------------------------------------------- substrings

  predicate OccursAt(s: string, sub: string, i: nat) {
    i + |sub| <= |s| && s[i..i + |sub|] == sub
  }

  predicate Contains(s: string, sub: string) {
    exists i | 0 <= i <= |s| - |sub| :: OccursAt(s, sub, i)
  }

  /** A text contains another exactly if it is that text between two others. */
  lemma ContainsIff(s: string, sub: string)
    ensures Contains(s, sub) <==> exists a, b :: s == a + sub + b
  {
    if i :| 0 <= i <= |s| - |sub| && OccursAt(s, sub, i) {
      assert s == s[..i] + sub + s[i + |sub|..];
    }
    if a, b :| s == a + sub + b { assert OccursAt(s, sub, |a|); }
  }

  // ---------------------------------------------------------------- names without repetition

  function SetOf(names: seq<string>): set<string> { set n | n in names }

  ghost predicate Distinct(names: seq<string>) { forall i, j | 0 <= i < j < |names| :: names[i] != names[j] }

  lemma {:induction false} DistinctSize(names: seq<string>)
    requires Distinct(names)
    ensures |SetOf(names)| == |names|
  {
    if names != [] {
      DistinctSize(names[..|names| - 1]);
      assert SetOf(names) == SetOf(names[..|names| - 1]) + {names[|names| - 1]};
    }
  }

  lemma SubsetSize(a: set<string>, b: set<string>)
    requires a <= b
    ensures |a| <= |b|
  {
    assert b == a + (b - a);
  }

  // ---------------------------------------------------------------- iteration

  /** The state after the first `n` elements. */
  function Iterated<S, E>(f: (E, nat, S) -> S, start: S, es: seq<E>, n: nat): S
    requires n <= |es|
  {
    if n == 0 then start else f(es[n - 1], n - 1, Iterated(f, start, es, n - 1))
  }

  lemma {:induction false} IteratedKeeps<S(!new), E>(f: (E, nat, S) -> S, start: S, es: seq<E>, n: nat,
                                                     inv: (S, nat) -> bool)
    requires n <= |es| && inv(start, 0)
    requires forall i: nat, s | i < |es| && inv(s, i) :: inv(f(es[i], i, s), i + 1)
    ensures inv(Iterated(f, start, es, n), n)
  {
    if n > 0 { IteratedKeeps(f, start, es, n - 1, inv); }
  }

  lemma {:induction false} IteratedStays<S, E(!new)>(f: (E, nat, S) -> S, start: S, es: seq<E>, k: nat, n: nat)
    requires k <= n <= |es|
    requires forall e, i :: f(e, i, Iterated(f, start, es, k)) == Iterated(f, start, es, k)
    ensures Iterated(f, start, es, n) == Iterated(f, start, es, k)
  {
    if k < n { IteratedStays(f, start, es, k, n - 1); }
  }

  // ---------------------------------------------------------------- steps

  /** The state after a list of steps, none if one of them is not possible where it happens. */
  function Steps<S, E>(step: (S, E) -> Option<S>, s: S, es: seq<E>): Option<S> {
    if es == [] then Some(s)
    else
      var before := Steps(step, s, es[..|es| - 1]);
      if before.None? then None else step(before.value, es[|es| - 1])
  }

  lemma {:induction false} StepsJoin<S, E>(step: (S, E) -> Option<S>, s: S, a: seq<E>, b: seq<E>)
    requires Steps(step, s, a).Some?
    ensures Steps(step, s, a + b) == Steps(step, Steps(step, s, a).value, b)
  {
    if b == [] {
      assert a + b == a;
    } else {
      assert (a + b)[..|a + b| - 1] == a + b[..|b| - 1];
      StepsJoin(step, s, a, b[..|b| - 1]);
    }
  }

  lemma Onwards<S, E>(step: (S, E) -> Option<S>, s: S, done: seq<E>, more: seq<E>, mid: S, end: S)
    requires Steps(step, s, done) == Some(mid) && Steps(step, mid, more) == Some(end)
    ensures Steps(step, s, done + more) == Some(end)
  {
    StepsJoin(step, s, done, more);
  }

  lemma OneStep<S, E>(step: (S, E) -> Option<S>, s: S, e: E)
    ensures Steps(step, s, [e]) == step(s, e)
  {
    assert [e][..0] == [];
    assert Steps(step, s, []) == Some(s);
  }

  lemma Then<S, E>(step: (S, E) -> Option<S>, s: S, done: seq<E>, e: E, mid: S, next: S)
    requires Steps(step, s, done) == Some(mid) && step(mid, e) == Some(next)
    ensures Steps(step, s, done + [e]) == Some(next)
  {
    OneStep(step, mid, e);
    Onwards(step, s, done, [e], mid, next);
  }

  // ---------------------------------------------------------------- sequences piece by piece

  /** What `f` makes of each element, one after the other. */
  function Gather<A, B>(f: A -> seq<B>, xs: seq<A>): seq<B> {
    if xs == [] then [] else Gather(f, xs[..|xs| - 1]) + f(xs[|xs| - 1])
  }

  lemma GatherGrows<A, B>(f: A -> seq<B>, xs: seq<A>, x: A, all: seq<A>)
    requires all == xs + [x]
    ensures Gather(f, all) == Gather(f, xs) + f(x)
  {
    assert all[..|all| - 1] == xs;
  }

  lemma GatherNext<A, B>(f: A -> seq<B>, xs: seq<A>, i: nat, done: seq<B>, next: seq<B>)
    requires i < |xs| && done == Gather(f, xs[..i]) && next == done + f(xs[i])
    ensures next == Gather(f, xs[..i + 1])
  {
    GatherGrows(f, xs[..i], xs[i], xs[..i + 1]);
  }

  lemma GatherOne<A, B>(f: A -> seq<B>, x: A)
    ensures Gather(f, [x]) == f(x) && Gather(f, []) == []
  {
    assert [x][..0] == [];
    assert [] + f(x) == f(x);
  }

  lemma {:induction false} GatherJoin<A, B>(f: A -> seq<B>, a: seq<A>, b: seq<A>)
    ensures Gather(f, a + b) == Gather(f, a) + Gather(f, b)
  {
    if b == [] {
      assert a + b == a;
    } else {
      var front, last := b[..|b| - 1], b[|b| - 1];
      GatherJoin(f, a, front);
      GatherGrows(f, a + front, last, a + b);
      Chained(Gather(f, a), Gather(f, front), Gather(f, a + front), f(last), Gather(f, a + b), Gather(f, b));
    }
  }

  /** Gathering from what was gathered is gathering at once. */
  lemma {:induction false} GatherThrough<A, B, C>(f: A -> seq<B>, g: B -> seq<C>, k: A -> seq<C>, xs: seq<A>)
    requires forall i | 0 <= i < |xs| :: Gather(g, f(xs[i])) == k(xs[i])
    ensures Gather(g, Gather(f, xs)) == Gather(k, xs)
  {
    if xs != [] {
      var front, last := xs[..|xs| - 1], xs[|xs| - 1];
      GatherThrough(f, g, k, front);
      GatherJoin(g, Gather(f, front), f(last));
    }
  }

  lemma {:induction false} GatherUnits<A, B>(f: A -> seq<B>, h: A -> B, xs: seq<A>)
    requires forall i | 0 <= i < |xs| :: f(xs[i]) == [h(xs[i])]
    ensures |Gather(f, xs)| == |xs| && forall i | 0 <= i < |xs| :: Gather(f, xs)[i] == h(xs[i])
  {
    if xs != [] { GatherUnits(f, h, xs[..|xs| - 1]); }
  }

  lemma {:induction false} GatherLength<A, B, C>(f: A -> seq<B>, g: A -> seq<C>, xs: seq<A>)
    requires forall i | 0 <= i < |xs| :: |f(xs[i])| == 1 + |g(xs[i])|
    ensures |Gather(f, xs)| == |xs| + |Gather(g, xs)|
  {
    if xs != [] { GatherLength(f, g, xs[..|xs| - 1]); }
  }

  /** What grows by two pieces, one after the other, has grown by both. */
  lemma Chained<T>(start: seq<T>, first: seq<T>, middle: seq<T>, second: seq<T>, end: seq<T>, both: seq<T>)
    requires middle == start + first && end == middle + second && both == first + second
    ensures end == start + both
  {
  }
}
