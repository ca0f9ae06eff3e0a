/** Selections of several models over the scheduler they share. */
module ModelRuns {
  import opened Basics
  import opened Blocks
  import opened Scheduler
  import opened SchedulerRuns
  import opened RotationClock
  import opened Rotation
  import opened SharedRotation

  // ---------------------------------------------------------------- all models together

  ghost predicate SelectsAt(calls: seq<Call>, models: seq<string>, turns: seq<Turn>, answers: seq<Choice>, i: nat)
    requires i < |calls| == |models| == |answers| && |turns| == |calls| + 1
  {
    turns[i].roundRobin + 1 < U64 && Leads(calls[i], models[i], turns[i], turns[i + 1], answers[i])
  }

  /** A series of selections, each for a model of its own, whatever happens to the buckets between them. */
  ghost predicate IsSystem(calls: seq<Call>, models: seq<string>, turns: seq<Turn>, answers: seq<Choice>) {
    && |turns| == |calls| + 1 && |models| == |answers| == |calls|
    && (forall i | 0 <= i < |calls| :: SelectsAt(calls, models, turns, answers, i))
  }

  /** A selection for another model keeps this model's entry, and moves the index by at most one. */
  lemma OtherKeepsEntry(c: Call, other: string, t: Turn, t': Turn, r: Choice, model: string)
    requires Leads(c, other, t, t', r) && other != model && t.roundRobin + 1 < U64
    ensures StickyOf(t'.serving, model) == StickyOf(t.serving, model)
            && t.roundRobin <= t'.roundRobin <= t.roundRobin + 1
  {
    SelectKeepsOthers(View(c.buckets, t.serving, t.roundRobin), c.keys, other, c.tried, c.now, model);
    SelectMovesIndex(View(c.buckets, t.serving, t.roundRobin), c.keys, other, c.tried, c.now);
  }

  lemma SelectMovesIndex(v: View, keys: seq<UpstreamKey>, model: string, tried: set<string>, now: int)
    requires v.roundRobin + 1 < U64
    ensures v.roundRobin <= Select(v, keys, model, tried, now).0.roundRobin <= v.roundRobin + 1
  {
    if keys != [] {
      var cands := Candidates(v.buckets, keys, HasScoped(keys, model), model, tried, now);
      if cands != [] { PickMovesIndex(cands, StickyOf(v.serving, model), v.roundRobin); }
    }
  }

  lemma SelectKeepsOthers(v: View, keys: seq<UpstreamKey>, model: string, tried: set<string>, now: int, other: string)
    requires other != model
    ensures StickyOf(Select(v, keys, model, tried, now).0.serving, other) == StickyOf(v.serving, other)
  {
  }

  lemma PickMovesIndex(cands: seq<UpstreamKey>, sticky: Option<Serving>, rr: nat)
    requires cands != [] && rr + 1 < U64
    ensures rr <= Pick(cands, sticky, rr).roundRobin <= rr + 1
  {
  }

  lemma OthersStep(calls: seq<Call>, models: seq<string>, turns: seq<Turn>, answers: seq<Choice>, i: nat, model: string)
    requires IsSystem(calls, models, turns, answers) && i < |calls| && models[i] != model
    ensures StickyOf(turns[i + 1].serving, model) == StickyOf(turns[i].serving, model)
            && turns[i].roundRobin <= turns[i + 1].roundRobin
  {
    assert SelectsAt(calls, models, turns, answers, i);
    OtherKeepsEntry(calls[i], models[i], turns[i], turns[i + 1], answers[i], model);
  }

  ghost predicate Gap(models: seq<string>, model: string, lo: nat, hi: nat) {
    lo < hi <= |models| && forall i | lo < i < hi :: models[i] != model
  }

  lemma {:induction false} EntryKept(calls: seq<Call>, models: seq<string>, turns: seq<Turn>, answers: seq<Choice>,
                                     model: string, lo: nat, hi: nat)
    requires IsSystem(calls, models, turns, answers) && lo < hi <= |calls| && Gap(models, model, lo, hi)
    ensures StickyOf(turns[hi].serving, model) == StickyOf(turns[lo + 1].serving, model)
            && turns[lo + 1].roundRobin <= turns[hi].roundRobin
    decreases hi
  {
    if lo + 1 < hi {
      EntryKept(calls, models, turns, answers, model, lo, hi - 1);
      OthersStep(calls, models, turns, answers, hi - 1, model);
    }
  }

  ghost function PickOf(cands: seq<UpstreamKey>, t: Turn, model: string): Picked
    requires cands != []
  {
    Pick(cands, StickyOf(t.serving, model), t.roundRobin)
  }

  ghost function HistoryOf(cands: seq<UpstreamKey>, turns: seq<Turn>, model: string, own: seq<nat>): History
    requires cands != [] && forall j | 0 <= j < |own| :: own[j] < |turns|
  {
    History(seq(|own|, j requires 0 <= j < |own| => StickyOf(turns[own[j]].serving, model)),
            seq(|own|, j requires 0 <= j < |own| => turns[own[j]].roundRobin),
            seq(|own|, j requires 0 <= j < |own| => PickOf(cands, turns[own[j]], model)))
  }

  lemma OwnStep(calls: seq<Call>, models: seq<string>, turns: seq<Turn>, answers: seq<Choice>, model: string,
                cands: seq<UpstreamKey>, i: nat)
    requires IsSystem(calls, models, turns, answers) && i < |calls| && models[i] == model && cands != []
             && Offers(calls[i], model, cands)
    ensures var p := PickOf(cands, turns[i], model);
            && turns[i].roundRobin + 1 < U64 && answers[i] == Ok(p.key)
            && StickyOf(turns[i + 1].serving, model) == Some(Serving(p.key.id, p.count))
               && turns[i + 1].roundRobin == p.roundRobin
  {
    assert SelectsAt(calls, models, turns, answers, i);
    AnswerIsPick(calls[i], model, turns[i], cands);
  }

  /** Selection `own[j]` is for the model and finds the candidates. */
  ghost predicate OwnAt(calls: seq<Call>, models: seq<string>, model: string, cands: seq<UpstreamKey>, own: seq<nat>,
                        j: nat)
    requires |models| == |calls| && j < |own|
  {
    own[j] < |calls| && models[own[j]] == model && Offers(calls[own[j]], model, cands)
  }

  /** `own` lists all selections for the model, one after the other, and all find the candidates. */
  ghost predicate AreTurnsOf(calls: seq<Call>, models: seq<string>, model: string, cands: seq<UpstreamKey>,
                             own: seq<nat>)
  {
    && cands != [] && |models| == |calls|
    && (forall j | 0 <= j < |own| :: OwnAt(calls, models, model, cands, own, j))
    && (forall j | 0 <= j < |own| - 1 :: Gap(models, model, own[j], own[j + 1]))
  }

  lemma OwnSelection(calls: seq<Call>, models: seq<string>, turns: seq<Turn>, answers: seq<Choice>, model: string,
                     cands: seq<UpstreamKey>, own: seq<nat>, h: History, j: nat)
    requires IsSystem(calls, models, turns, answers) && cands != [] && j < |own|
             && OwnAt(calls, models, model, cands, own, j)
    requires forall k | 0 <= k < |own| :: own[k] < |turns|
    requires h == HistoryOf(cands, turns, model, own)
    ensures SelectionAt(cands, h, j) && answers[own[j]] == Answers(h)[j]
  {
    OwnStep(calls, models, turns, answers, model, cands, own[j]);
  }

  lemma AcrossGap(calls: seq<Call>, models: seq<string>, turns: seq<Turn>, answers: seq<Choice>, model: string,
                  cands: seq<UpstreamKey>, lo: nat, hi: nat, p: Picked)
    requires IsSystem(calls, models, turns, answers) && cands != [] && lo < hi < |calls| && Gap(models, model, lo, hi)
    requires models[lo] == model && Offers(calls[lo], model, cands) && p == PickOf(cands, turns[lo], model)
    ensures StickyOf(turns[hi].serving, model) == Some(Serving(p.key.id, p.count))
            && p.roundRobin <= turns[hi].roundRobin
  {
    OwnStep(calls, models, turns, answers, model, cands, lo);
    EntryKept(calls, models, turns, answers, model, lo, hi);
  }

  lemma OwnPasses(calls: seq<Call>, models: seq<string>, turns: seq<Turn>, answers: seq<Choice>, model: string,
                  cands: seq<UpstreamKey>, own: seq<nat>, h: History, j: nat)
    requires IsSystem(calls, models, turns, answers) && cands != [] && j + 1 < |own|
             && OwnAt(calls, models, model, cands, own, j)
    requires forall k | 0 <= k < |own| :: own[k] < |turns|
    requires own[j + 1] < |calls| && Gap(models, model, own[j], own[j + 1]) && h == HistoryOf(cands, turns, model, own)
    ensures PassesOn(h, j)
  {
    AcrossGap(calls, models, turns, answers, model, cands, own[j], own[j + 1], PickOf(cands, turns[own[j]], model));
  }

  /** What a model sees of a run of all models is a history of its own, and what it is answered are
      the answers of that history. */
  lemma OwnHistory(calls: seq<Call>, models: seq<string>, turns: seq<Turn>, answers: seq<Choice>, model: string,
                   cands: seq<UpstreamKey>, own: seq<nat>)
    returns (h: History)
    requires IsSystem(calls, models, turns, answers) && AreTurnsOf(calls, models, model, cands, own)
    ensures |h.picks| == |own| && IsHistory(cands, h)
    ensures forall j | 0 <= j < |own| :: own[j] < |calls| && models[own[j]] == model && answers[own[j]] == Answers(h)[j]
    ensures own != [] ==> h.entries[0] == StickyOf(turns[own[0]].serving, model)
    ensures forall j | 0 <= j < |own| :: h.indices[j] == turns[own[j]].roundRobin
  {
    forall j | 0 <= j < |own| ensures own[j] < |turns| { assert OwnAt(calls, models, model, cands, own, j); }
    h := HistoryOf(cands, turns, model, own);
    forall j | 0 <= j < |own|
      ensures SelectionAt(cands, h, j) && own[j] < |calls| && models[own[j]] == model
              && answers[own[j]] == Answers(h)[j]
    {
      assert OwnAt(calls, models, model, cands, own, j);
      OwnSelection(calls, models, turns, answers, model, cands, own, h, j);
    }
    forall j | 0 <= j < |own| - 1 ensures PassesOn(h, j) {
      assert OwnAt(calls, models, model, cands, own, j) && OwnAt(calls, models, model, cands, own, j + 1);
      assert Gap(models, model, own[j], own[j + 1]);
      OwnPasses(calls, models, turns, answers, model, cands, own, h, j);
    }
  }

  /** The index that the model's selections find, and their answers. */
  ghost function OwnIndices(turns: seq<Turn>, own: seq<nat>): seq<nat>
    requires forall j | 0 <= j < |own| :: own[j] < |turns|
  {
    seq(|own|, j requires 0 <= j < |own| => turns[own[j]].roundRobin)
  }

  ghost function OwnAnswers(answers: seq<Choice>, own: seq<nat>): seq<Choice>
    requires forall j | 0 <= j < |own| :: own[j] < |answers|
  {
    seq(|own|, j requires 0 <= j < |own| => answers[own[j]])
  }

  /** A model among others, over as many of its blocks as there are keys: each key serves it exactly
      its target, exactly if the shared index points at different positions when the blocks start. */
  lemma ModelSharesIff(calls: seq<Call>, models: seq<string>, turns: seq<Turn>, answers: seq<Choice>, model: string,
                       cands: seq<UpstreamKey>, sorted: seq<UpstreamKey>, own: seq<nat>, starts: seq<nat>, ps: seq<nat>,
                       b: nat)
    requires IsSystem(calls, models, turns, answers) && AreTurnsOf(calls, models, model, cands, own)
             && Ordered(cands, sorted)
    requires forall j | 0 <= j < |own| :: own[j] < |calls|
    requires own != [] && StartsBlock(cands, StickyOf(turns[own[0]].serving, model))
    requires HasBlocks(sorted, OwnIndices(turns, own), starts, ps) && b + |sorted| <= |ps|
    ensures starts[b] <= starts[b + |sorted|] <= |own|
    ensures (forall p: nat | p < |sorted| ::
               ExactShare(OwnAnswers(answers, own)[starts[b]..starts[b + |sorted|]], Ok(sorted[p]),
                          RotationTarget(sorted[p])))
       <==> AllDifferent(ps[b..b + |sorted|])
  {
    var h := OwnHistory(calls, models, turns, answers, model, cands, own);
    assert h.indices == OwnIndices(turns, own);
    assert Answers(h) == OwnAnswers(answers, own);
    EqualSharesIff(cands, sorted, h, starts, ps, b);
  }

  /** And its blocks follow the id order, exactly as far as the other models move the index by
      multiples of the number of keys between their starts. */
  lemma ModelFollowsOrderIff(calls: seq<Call>, models: seq<string>, turns: seq<Turn>, answers: seq<Choice>,
                             model: string, cands: seq<UpstreamKey>, sorted: seq<UpstreamKey>, own: seq<nat>,
                             starts: seq<nat>, ps: seq<nat>, k: nat, i: nat, i': nat, others: nat)
    requires IsSystem(calls, models, turns, answers) && AreTurnsOf(calls, models, model, cands, own)
             && Ordered(cands, sorted)
    requires forall j | 0 <= j < |own| :: own[j] < |calls|
    requires own != [] && StartsBlock(cands, StickyOf(turns[own[0]].serving, model))
    requires HasBlocks(sorted, OwnIndices(turns, own), starts, ps) && k + 1 < |ps| && starts[k] < |own|
             && starts[k + 1] < |own|
    requires i == own[starts[k]] && i' == own[starts[k + 1]] && turns[i'].roundRobin == turns[i].roundRobin + 1 + others
    ensures ps[k] < |sorted| && ps[k + 1] < |sorted| && answers[i] == Ok(sorted[ps[k]])
            && answers[i'] == Ok(sorted[ps[k + 1]])
    ensures ps[k + 1] == Following(ps[k], |sorted|) <==> others % |sorted| == 0
    ensures ps[k + 1] == ps[k] <==> (others + 1) % |sorted| == 0
  {
    var h := OwnHistory(calls, models, turns, answers, model, cands, own);
    assert h.indices == OwnIndices(turns, own);
    NextBlockIff(cands, sorted, h, starts, ps, k, others);
    BlockBeginsWith(cands, sorted, h, starts, ps, k);
    BlockBeginsWith(cands, sorted, h, starts, ps, k + 1);
  }

  // ---------------------------------------------------------------- two models in turn

  /** Two models ask in turn, each for a whole block of the key that the other does not get. */
  ghost predicate AskInTurn(models: seq<string>, m0: string, m1: string, targets: seq<nat>) {
    && |targets| == 2
    && forall i | 0 <= i < |models| :: models[i] == Asker(m0, m1, Ticks(targets, Slot(1, targets[1]), i + 1))
  }

  function Asker(m0: string, m1: string, s: Slot): string { if s.pos == 0 then m0 else m1 }

  function EntryOf(t: Turn, m0: string, m1: string, pos: nat): Option<Serving> {
    StickyOf(t.serving, if pos == 0 then m0 else m1)
  }

  /** The model of the slot is served by the slot's key; the other one has had its turns with the
      other key, or has not asked yet. */
  ghost predicate BothPinned(sorted: seq<UpstreamKey>, m0: string, m1: string, t: Turn, s: Slot) {
    && |sorted| == 2 && Agrees(sorted, EntryOf(t, m0, m1, s.pos), t.roundRobin, s)
    && var q, entry := Following(s.pos, 2), EntryOf(t, m0, m1, Following(s.pos, 2));
       entry == None || entry == Some(Serving(sorted[q].id, RotationTarget(sorted[q])))
  }

  lemma PinnedPick(cands: seq<UpstreamKey>, sorted: seq<UpstreamKey>, m0: string, m1: string, t: Turn, s: Slot)
    requires Ordered(cands, sorted) && BothPinned(sorted, m0, m1, t, s) && t.roundRobin + 1 < U64
    ensures var s' := Tick(Targets(sorted), s);
            Pick(cands, EntryOf(t, m0, m1, s'.pos), t.roundRobin)
            == Picked(sorted[s'.pos], s'.count, if s'.pos == s.pos then t.roundRobin else t.roundRobin + 1)
  {
    SortedMembers(cands, s.pos);
    if s.count < RotationTarget(sorted[s.pos]) {
      PickStays(cands, sorted[s.pos], s.count, t.roundRobin);
    } else {
      var q := Following(s.pos, 2);
      SortedMembers(cands, q);
      PickMoves(cands, sorted[q], EntryOf(t, m0, m1, q), t.roundRobin);
    }
  }

  lemma StaysPinned(cands: seq<UpstreamKey>, sorted: seq<UpstreamKey>, m0: string, m1: string, c: Call, t: Turn,
                    t': Turn, r: Choice, s: Slot)
    requires Ordered(cands, sorted) && BothPinned(sorted, m0, m1, t, s) && t.roundRobin + 1 < U64 && m0 != m1
    requires var m := Asker(m0, m1, Tick(Targets(sorted), s)); Leads(c, m, t, t', r) && Offers(c, m, cands)
    ensures var s' := Tick(Targets(sorted), s); r == Ok(sorted[s'.pos]) && BothPinned(sorted, m0, m1, t', s')
  {
    var s' := Tick(Targets(sorted), s);
    var m, other := Asker(m0, m1, s'), if s'.pos == 0 then m1 else m0;
    PinnedPick(cands, sorted, m0, m1, t, s);
    AnswerIsPick(c, m, t, cands);
    OtherKeepsEntry(c, m, t, t', r, other);
    NextPosition(t.roundRobin, 2);
    RotationTargetRange(sorted[s'.pos]);
  }

  /** The index is shared, and that can bind models to single keys: when two models ask in turn for
      blocks over the same two keys, every selection for the first is answered with the one key and
      every selection for the second with the other, for as long as they go on. */
  lemma {:induction false} InterleavedModelsPinKeys(calls: seq<Call>, models: seq<string>, turns: seq<Turn>,
                                                    answers: seq<Choice>, cands: seq<UpstreamKey>,
                                                    sorted: seq<UpstreamKey>, m0: string, m1: string, i: nat)
    requires IsSystem(calls, models, turns, answers) && Ordered(cands, sorted) && |sorted| == 2 && m0 != m1
    requires AskInTurn(models, m0, m1, Targets(sorted)) && i <= |calls|
    requires forall j | 0 <= j < |calls| :: Offers(calls[j], models[j], cands)
    requires m0 !in turns[0].serving && m1 !in turns[0].serving && IndexInto(turns[0].roundRobin, 2) == 0
    ensures BothPinned(sorted, m0, m1, turns[i], Ticks(Targets(sorted), Slot(1, Targets(sorted)[1]), i))
    ensures i > 0 ==> answers[i - 1] == Ok(if models[i - 1] == m0 then sorted[0] else sorted[1])
  {
    var targets, start := Targets(sorted), Slot(1, Targets(sorted)[1]);
    if i == 0 {
      RotationTargetRange(sorted[1]);
    } else {
      InterleavedModelsPinKeys(calls, models, turns, answers, cands, sorted, m0, m1, i - 1);
      StepPinned(calls, models, turns, answers, cands, sorted, m0, m1, i - 1, Ticks(targets, start, i - 1));
    }
  }

  lemma StepPinned(calls: seq<Call>, models: seq<string>, turns: seq<Turn>, answers: seq<Choice>,
                   cands: seq<UpstreamKey>, sorted: seq<UpstreamKey>, m0: string, m1: string, i: nat, s: Slot)
    requires IsSystem(calls, models, turns, answers) && Ordered(cands, sorted) && |sorted| == 2 && m0 != m1
             && i < |calls|
    requires Offers(calls[i], models[i], cands) && BothPinned(sorted, m0, m1, turns[i], s)
    requires models[i] == Asker(m0, m1, Tick(Targets(sorted), s))
    ensures var s' := Tick(Targets(sorted), s);
            BothPinned(sorted, m0, m1, turns[i + 1], s')
              && answers[i] == Ok(if models[i] == m0 then sorted[0] else sorted[1])
  {
    assert SelectsAt(calls, models, turns, answers, i);
    StaysPinned(cands, sorted, m0, m1, calls[i], turns[i], turns[i + 1], answers[i], s);
  }

  // ---------------------------------------------------------------- runs of the scheduler itself

  /** A scheduler that starts empty and only selects: one key list, a model and a clock reading each. */
  function Selections(keys: seq<UpstreamKey>, models: seq<string>, ats: seq<int>): (ops: seq<Op>)
    requires |models| == |ats|
    ensures |ops| == |models|
    ensures forall i | 0 <= i < |models| :: ops[i] == SelectOp(keys, models[i], {}, ats[i])
  {
    seq(|models|, i requires 0 <= i < |models| => SelectOp(keys, models[i], {}, ats[i]))
  }

  function ViewAt(ops: seq<Op>, i: nat): View
    requires i <= |ops|
  {
    Run(Initial, ops[..i])
  }

  /** The calls of such a run, each with the buckets that the selections before it have left. */
  function CallsOf(keys: seq<UpstreamKey>, ops: seq<Op>, ats: seq<int>): (calls: seq<Call>)
    requires |ops| == |ats|
    ensures |calls| == |ops|
    ensures forall i | 0 <= i < |ops| :: calls[i] == Call(ViewAt(ops, i).buckets, keys, {}, ats[i])
  {
    seq(|ops|, i requires 0 <= i < |ops| => Call(ViewAt(ops, i).buckets, keys, {}, ats[i]))
  }

  function TurnsOf(ops: seq<Op>): (turns: seq<Turn>)
    ensures |turns| == |ops| + 1
    ensures forall i | 0 <= i <= |ops| :: turns[i] == Turn(ViewAt(ops, i).serving, ViewAt(ops, i).roundRobin)
  {
    seq(|ops| + 1, i requires 0 <= i <= |ops| => Turn(ViewAt(ops, i).serving, ViewAt(ops, i).roundRobin))
  }

  /** What the `i`-th selection of a run answers. */
  function AnswerAt(keys: seq<UpstreamKey>, models: seq<string>, ats: seq<int>, i: nat): Choice
    requires |models| == |ats| && i < |models|
  {
    Select(ViewAt(Selections(keys, models, ats), i), keys, models[i], {}, ats[i]).1
  }

  function AnswersOf(keys: seq<UpstreamKey>, models: seq<string>, ats: seq<int>): (answers: seq<Choice>)
    requires |models| == |ats|
    ensures |answers| == |models|
    ensures forall i | 0 <= i < |models| :: answers[i] == AnswerAt(keys, models, ats, i)
  {
    seq(|models|, i requires 0 <= i < |models| => AnswerAt(keys, models, ats, i))
  }

  lemma NextView(keys: seq<UpstreamKey>, models: seq<string>, ats: seq<int>, i: nat)
    requires |models| == |ats| && i < |models|
    ensures var ops := Selections(keys, models, ats);
            ViewAt(ops, i + 1) == Select(ViewAt(ops, i), keys, models[i], {}, ats[i]).0
  {
    var ops := Selections(keys, models, ats);
    assert ops[..i + 1][..i] == ops[..i] && ops[..i + 1][i] == SelectOp(keys, models[i], {}, ats[i]);
  }

  lemma {:induction false} IndexBelow(keys: seq<UpstreamKey>, models: seq<string>, ats: seq<int>, i: nat)
    requires |models| == |ats| && i <= |models| < U64
    ensures ViewAt(Selections(keys, models, ats), i).roundRobin <= i
  {
    if i > 0 {
      IndexBelow(keys, models, ats, i - 1);
      NextView(keys, models, ats, i - 1);
      SelectMovesIndex(ViewAt(Selections(keys, models, ats), i - 1), keys, models[i - 1], {}, ats[i - 1]);
    }
  }

  /** A run of the scheduler is a system of selections. */
  lemma SelectionsAreSystem(keys: seq<UpstreamKey>, models: seq<string>, ats: seq<int>)
    requires |models| == |ats| < U64
    ensures var ops := Selections(keys, models, ats);
            IsSystem(CallsOf(keys, ops, ats), models, TurnsOf(ops), AnswersOf(keys, models, ats))
  {
    var ops := Selections(keys, models, ats);
    var calls, turns, answers := CallsOf(keys, ops, ats), TurnsOf(ops), AnswersOf(keys, models, ats);
    forall i | 0 <= i < |models| ensures SelectsAt(calls, models, turns, answers, i) {
      NextView(keys, models, ats, i);
      IndexBelow(keys, models, ats, i);
      var v := ViewAt(ops, i);
      assert View(v.buckets, v.serving, v.roundRobin) == v;
    }
  }

  /** Buckets that selections alone have made: whole, and never cooling later than now. */
  ghost predicate OnlySelected(buckets: map<string, Bucket>, now: int) {
    forall id | id in buckets :: Unharmed(buckets[id], now)
  }

  predicate Unharmed(b: Bucket, now: int) {
    b.cooldownUntil <= now && b.healthScore == 100.0 && b.inflight == 0
  }

  lemma {:induction false} SelectionsHarmNothing(keys: seq<UpstreamKey>, models: seq<string>, ats: seq<int>, i: nat,
                                                 now: int)
    requires |models| == |ats| && i <= |models| && forall j | 0 <= j < i :: ats[j] <= now
    ensures OnlySelected(ViewAt(Selections(keys, models, ats), i).buckets, now)
  {
    if i > 0 {
      SelectionsHarmNothing(keys, models, ats, i - 1, now);
      NextView(keys, models, ats, i - 1);
      SelectHarmsNothing(ViewAt(Selections(keys, models, ats), i - 1), keys, models[i - 1], ats[i - 1], now);
    }
  }

  lemma SelectHarmsNothing(v: View, keys: seq<UpstreamKey>, model: string, at: int, now: int)
    requires OnlySelected(v.buckets, now) && at <= now
    ensures OnlySelected(Select(v, keys, model, {}, at).0.buckets, now)
  {
    SelectTouches(v, keys, model, {}, at);
  }

  /** Two keys without a scope. */
  function TwoKeys(): seq<UpstreamKey> { [UpstreamKey("a", 1, 0, ""), UpstreamKey("b", 1, 0, "")] }

  lemma OneMoreCandidate(buckets: map<string, Bucket>, keys: seq<UpstreamKey>, k: UpstreamKey, model: string, now: int)
    requires Admissible(buckets, k, false, model, {}, now)
    ensures Candidates(buckets, keys + [k], false, model, {}, now)
            == Candidates(buckets, keys, false, model, {}, now) + [k]
  {
    assert (keys + [k])[..|keys|] == keys;
  }

  lemma TwoCandidates(buckets: map<string, Bucket>, a: UpstreamKey, b: UpstreamKey, model: string, now: int)
    requires Admissible(buckets, a, false, model, {}, now) && Admissible(buckets, b, false, model, {}, now)
    ensures Candidates(buckets, [a, b], false, model, {}, now) == [a, b]
  {
    OneMoreCandidate(buckets, [], a, model, now);
    OneMoreCandidate(buckets, [a], b, model, now);
    assert [] + [a] == [a] && [a] + [b] == [a, b];
    assert Candidates(buckets, [], false, model, {}, now) == [];
  }

  lemma NoScope(a: UpstreamKey, b: UpstreamKey, model: string)
    requires a.modelScope == b.modelScope == ""
    ensures !HasScoped([a, b], model)
  {
  }

  lemma TwoKeysServeAll(buckets: map<string, Bucket>, model: string, now: int)
    requires OnlySelected(buckets, now)
    ensures Offers(Call(buckets, TwoKeys(), {}, now), model, TwoKeys())
  {
    var a, b := UpstreamKey("a", 1, 0, ""), UpstreamKey("b", 1, 0, "");
    NoScope(a, b, model);
    assert Ready(BucketOf(buckets, "a", now), a, now) && Ready(BucketOf(buckets, "b", now), b, now);
    TwoCandidates(buckets, a, b, model, now);
  }

  lemma TwoKeysInOrder()
    ensures Ordered(TwoKeys(), TwoKeys())
  {
    var a, b := UpstreamKey("a", 1, 0, ""), UpstreamKey("b", 1, 0, "");
    assert TwoKeys()[..1] == [a] && [a][..0] == [];
    assert InsertById(a, []) == [a] && SortById([]) == [] && SortById([a]) == [a];
    assert Before("a", "b") && InsertById(b, [a]) == [a, b];
  }

  function Askers(m0: string, m1: string, targets: seq<nat>, n: nat): (ms: seq<string>)
    requires |targets| == 2
    ensures |ms| == n && AskInTurn(ms, m0, m1, targets)
  {
    seq(n, i requires 0 <= i < n => Asker(m0, m1, Ticks(targets, Slot(1, targets[1]), i + 1)))
  }

  lemma SelectionsOffer(models: seq<string>, ats: seq<int>)
    requires |models| == |ats| && forall i, j | 0 <= i <= j < |ats| :: ats[i] <= ats[j]
    ensures var calls := CallsOf(TwoKeys(), Selections(TwoKeys(), models, ats), ats);
            forall j | 0 <= j < |calls| :: Offers(calls[j], models[j], TwoKeys())
  {
    var ops := Selections(TwoKeys(), models, ats);
    forall j | 0 <= j < |ats| ensures Offers(CallsOf(TwoKeys(), ops, ats)[j], models[j], TwoKeys()) {
      SelectionsHarmNothing(TwoKeys(), models, ats, j, ats[j]);
      TwoKeysServeAll(ViewAt(ops, j).buckets, models[j], ats[j]);
    }
  }

  lemma FirstTurn(ops: seq<Op>)
    ensures TurnsOf(ops)[0] == Turn(map[], 0)
  {
    assert ops[..0] == [];
  }

  /** Selections of two models in turn, over two keys that they always find. */
  lemma SelectionsPinned(keys: seq<UpstreamKey>, models: seq<string>, m0: string, m1: string, ats: seq<int>)
    requires |models| == |ats| < U64 && Ordered(keys, keys) && |keys| == 2 && m0 != m1
    requires AskInTurn(models, m0, m1, Targets(keys))
    requires var calls := CallsOf(keys, Selections(keys, models, ats), ats);
             forall j | 0 <= j < |calls| :: Offers(calls[j], models[j], keys)
    ensures forall i | 0 <= i < |ats| ::
            AnswerAt(keys, models, ats, i) == Ok(if models[i] == m0 then keys[0] else keys[1])
  {
    var ops := Selections(keys, models, ats);
    SelectionsAreSystem(keys, models, ats);
    FirstTurn(ops);
    AnswersPinned(CallsOf(keys, ops, ats), models, TurnsOf(ops), AnswersOf(keys, models, ats), keys, keys, m0, m1);
  }

  /** Such runs happen: for any two models, any length and any clock, a scheduler that starts empty
      and offers two keys binds the one to key a and the other to key b. */
  lemma PinningRun(m0: string, m1: string, ats: seq<int>)
    requires m0 != m1 && |ats| < U64 && forall i, j | 0 <= i <= j < |ats| :: ats[i] <= ats[j]
    ensures var models := Askers(m0, m1, Targets(TwoKeys()), |ats|);
            forall i | 0 <= i < |ats| ::
              AnswerAt(TwoKeys(), models, ats, i) == Ok(if models[i] == m0 then TwoKeys()[0] else TwoKeys()[1])
  {
    var models := Askers(m0, m1, Targets(TwoKeys()), |ats|);
    TwoKeysInOrder();
    SelectionsOffer(models, ats);
    SelectionsPinned(TwoKeys(), models, m0, m1, ats);
  }

  lemma AnswersPinned(calls: seq<Call>, models: seq<string>, turns: seq<Turn>, answers: seq<Choice>,
                      cands: seq<UpstreamKey>, sorted: seq<UpstreamKey>, m0: string, m1: string)
    requires IsSystem(calls, models, turns, answers) && Ordered(cands, sorted) && |sorted| == 2 && m0 != m1
    requires AskInTurn(models, m0, m1, Targets(sorted))
    requires forall j | 0 <= j < |calls| :: Offers(calls[j], models[j], cands)
    requires m0 !in turns[0].serving && m1 !in turns[0].serving && IndexInto(turns[0].roundRobin, 2) == 0
    ensures forall i | 0 <= i < |calls| :: answers[i] == Ok(if models[i] == m0 then sorted[0] else sorted[1])
  {
    forall i | 0 <= i < |calls| ensures answers[i] == Ok(if models[i] == m0 then sorted[0] else sorted[1]) {
      AnswerPinned(calls, models, turns, answers, cands, sorted, m0, m1, i);
    }
  }

  lemma AnswerPinned(calls: seq<Call>, models: seq<string>, turns: seq<Turn>, answers: seq<Choice>,
                     cands: seq<UpstreamKey>, sorted: seq<UpstreamKey>, m0: string, m1: string, i: nat)
    requires IsSystem(calls, models, turns, answers) && Ordered(cands, sorted) && |sorted| == 2 && m0 != m1
    requires AskInTurn(models, m0, m1, Targets(sorted)) && i < |calls|
    requires forall j | 0 <= j < |calls| :: Offers(calls[j], models[j], cands)
    requires m0 !in turns[0].serving && m1 !in turns[0].serving && IndexInto(turns[0].roundRobin, 2) == 0
    ensures answers[i] == Ok(if models[i] == m0 then sorted[0] else sorted[1])
  {
    InterleavedModelsPinKeys(calls, models, turns, answers, cands, sorted, m0, m1, i + 1);
  }
}
