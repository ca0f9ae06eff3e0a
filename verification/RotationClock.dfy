/** The rotation as a clock: positions of a round, each holding for a given number of ticks. */
module RotationClock {

  datatype Slot = Slot(pos: nat, count: nat)

  ghost predicate IsRound(targets: seq<nat>) {
    targets != [] && forall i | 0 <= i < |targets| :: targets[i] >= 1
  }

  ghost predicate On(targets: seq<nat>, s: Slot) {
    s.pos < |targets| && 1 <= s.count <= targets[s.pos]
  }

  /** The position after `pos`, the first one after the last. */
  function Following(pos: nat, len: nat): nat { if pos + 1 < len then pos + 1 else 0 }

  /** Stay until the target is reached, then start the next position. */
  function Tick(targets: seq<nat>, s: Slot): Slot
    requires s.pos < |targets|
  {
    if s.count < targets[s.pos] then Slot(s.pos, s.count + 1) else Slot(Following(s.pos, |targets|), 1)
  }

  function Ticks(targets: seq<nat>, s: Slot, n: nat): (r: Slot)
    requires s.pos < |targets|
    ensures r.pos < |targets|
  {
    if n == 0 then s else Tick(targets, Ticks(targets, s, n - 1))
  }

  /** How many of the `n` slots from `s` on are at position `p`. */
  function Tally(targets: seq<nat>, s: Slot, n: nat, p: nat): nat
    requires s.pos < |targets|
  {
    if n == 0 then 0
    else Tally(targets, s, n - 1, p) + if Ticks(targets, s, n - 1).pos == p then 1 else 0
  }

  function Sum(targets: seq<nat>, n: nat): nat
    requires n <= |targets|
  {
    if n == 0 then 0 else Sum(targets, n - 1) + targets[n - 1]
  }

  lemma {:induction false} TicksStayOn(targets: seq<nat>, s: Slot, n: nat)
    requires IsRound(targets) && On(targets, s)
    ensures On(targets, Ticks(targets, s, n))
  {
    if n > 0 { TicksStayOn(targets, s, n - 1); }
  }

  lemma {:induction false} TicksAdd(targets: seq<nat>, s: Slot, m: nat, n: nat)
    requires s.pos < |targets|
    ensures Ticks(targets, s, m + n) == Ticks(targets, Ticks(targets, s, m), n)
  {
    if n > 0 { TicksAdd(targets, s, m, n - 1); }
  }

  lemma {:induction false} TallyAdd(targets: seq<nat>, s: Slot, m: nat, n: nat, p: nat)
    requires s.pos < |targets|
    ensures Tally(targets, s, m + n, p) == Tally(targets, s, m, p) + Tally(targets, Ticks(targets, s, m), n, p)
  {
    if n > 0 {
      TallyAdd(targets, s, m, n - 1, p);
      TicksAdd(targets, s, m, n - 1);
    }
  }

  /** Within a block the position rests. */
  lemma {:induction false} WithinBlock(targets: seq<nat>, pos: nat, n: nat, p: nat)
    requires IsRound(targets) && pos < |targets| && n < targets[pos]
    ensures Ticks(targets, Slot(pos, 1), n) == Slot(pos, 1 + n)
    ensures Tally(targets, Slot(pos, 1), n + 1, p) == if pos == p then n + 1 else 0
  {
    if n > 0 { WithinBlock(targets, pos, n - 1, p); }
  }

  lemma WholeBlock(targets: seq<nat>, pos: nat, p: nat)
    requires IsRound(targets) && pos < |targets|
    ensures Ticks(targets, Slot(pos, 1), targets[pos]) == Slot(Following(pos, |targets|), 1)
    ensures Tally(targets, Slot(pos, 1), targets[pos], p) == if pos == p then targets[pos] else 0
  {
    WithinBlock(targets, pos, targets[pos] - 1, p);
  }

  lemma BlocksFromStart(targets: seq<nat>, pos: nat, p: nat)
    requires IsRound(targets) && pos <= |targets| && p < |targets|
    ensures Ticks(targets, Slot(0, 1), Sum(targets, pos)) == Slot(if pos < |targets| then pos else 0, 1)
    ensures Tally(targets, Slot(0, 1), Sum(targets, pos), p) == if p < pos then targets[p] else 0
  {
    BlockTicks(targets, pos);
    BlockTallies(targets, pos, p);
  }

  lemma {:induction false} BlockTicks(targets: seq<nat>, pos: nat)
    requires IsRound(targets) && pos <= |targets|
    ensures Ticks(targets, Slot(0, 1), Sum(targets, pos)) == Slot(if pos < |targets| then pos else 0, 1)
  {
    if pos > 0 {
      BlockTicks(targets, pos - 1);
      WholeBlock(targets, pos - 1, 0);
      TicksAdd(targets, Slot(0, 1), Sum(targets, pos - 1), targets[pos - 1]);
    }
  }

  lemma {:induction false} BlockTallies(targets: seq<nat>, pos: nat, p: nat)
    requires IsRound(targets) && pos <= |targets| && p < |targets|
    ensures Tally(targets, Slot(0, 1), Sum(targets, pos), p) == if p < pos then targets[p] else 0
  {
    if pos > 0 {
      BlockTallies(targets, pos - 1, p);
      BlockTicks(targets, pos - 1);
      WholeBlock(targets, pos - 1, p);
      TallyAdd(targets, Slot(0, 1), Sum(targets, pos - 1), targets[pos - 1], p);
    }
  }

  /** Whatever slot the clock is on, one round of ticks gives every position exactly its target. */
  lemma RoundIsFair(targets: seq<nat>, s: Slot, p: nat)
    requires IsRound(targets) && On(targets, s) && p < |targets|
    ensures Tally(targets, s, Sum(targets, |targets|), p) == targets[p]
    ensures Ticks(targets, s, Sum(targets, |targets|)) == s
  {
    var zero, round := Slot(0, 1), Sum(targets, |targets|);
    var lead := Sum(targets, s.pos) + (s.count - 1);
    BlocksFromStart(targets, s.pos, p);
    WithinBlock(targets, s.pos, s.count - 1, p);
    TicksAdd(targets, zero, Sum(targets, s.pos), s.count - 1);
    assert Ticks(targets, zero, lead) == s;
    BlocksFromStart(targets, |targets|, p);
    TallyAdd(targets, zero, lead, round, p);
    TallyAdd(targets, zero, round, lead, p);
    TicksAdd(targets, zero, lead, round);
    TicksAdd(targets, zero, round, lead);
    assert lead + round == round + lead;
  }

  /** In a sequence that lists the values of the slots tick by tick, the values in a window number
      as many as the slots at their position. */
  lemma {:induction false} CountIsTally<T>(xs: seq<T>, vals: seq<T>, targets: seq<nat>, s: Slot, start: nat, n: nat,
                                           p: nat)
    requires s.pos < |targets| == |vals| && p < |vals| && start + n <= |xs|
    requires forall i, j | 0 <= i < j < |vals| :: vals[i] != vals[j]
    requires forall i | 0 <= i < n :: xs[start + i] == vals[Ticks(targets, s, i).pos]
    ensures multiset(xs[start..start + n])[vals[p]] == Tally(targets, s, n, p)
  {
    if n > 0 {
      CountIsTally(xs, vals, targets, s, start, n - 1, p);
      assert xs[start..start + n] == xs[start..start + n - 1] + [xs[start + (n - 1)]];
    }
  }

  lemma ShiftedSlot<T>(xs: seq<T>, vals: seq<T>, targets: seq<nat>, s: Slot, start: nat, i: nat)
    requires s.pos < |targets| == |vals| && start + i < |xs|
    requires xs[start + i] == vals[Ticks(targets, s, start + i + 1).pos]
    ensures xs[start + i] == vals[Ticks(targets, Ticks(targets, s, start + 1), i).pos]
  {
    TicksAdd(targets, s, start + 1, i);
    assert start + i + 1 == start + 1 + i;
  }

  /** Every window of one round holds every value exactly as often as its target. */
  lemma WindowIsFair<T>(xs: seq<T>, vals: seq<T>, targets: seq<nat>, s: Slot, start: nat, p: nat)
    requires IsRound(targets) && On(targets, s) && |vals| == |targets| && p < |vals|
    requires start + Sum(targets, |targets|) <= |xs|
    requires forall i, j | 0 <= i < j < |vals| :: vals[i] != vals[j]
    requires forall i | 0 <= i < |xs| :: xs[i] == vals[Ticks(targets, s, i + 1).pos]
    ensures multiset(xs[start..start + Sum(targets, |targets|)])[vals[p]] == targets[p]
  {
    var s', round := Ticks(targets, s, start + 1), Sum(targets, |targets|);
    TicksStayOn(targets, s, start + 1);
    forall i | 0 <= i < round ensures xs[start + i] == vals[Ticks(targets, s', i).pos] {
      ShiftedSlot(xs, vals, targets, s, start, i);
    }
    CountIsTally(xs, vals, targets, s', start, round, p);
    RoundIsFair(targets, s', p);
  }
}
