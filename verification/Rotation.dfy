/** Fairness of the sticky round robin: whom a model is served by over a whole run of selections. */
module Rotation {
  import opened Basics
  import opened Scheduler
  import opened RotationClock

  lemma RotationTargetRange(k: UpstreamKey)
    ensures 6 <= RotationTarget(k) <= 40
    ensures k.weight <= 1 <==> RotationTarget(k) == 6
    ensures k.weight >= 7 <==> RotationTarget(k) == 40
    ensures RotationTarget(k) < 40 ==> RotationTarget(k) == 6 * (if k.weight < 1 then 1 else k.weight)
  {
  }

  ghost predicate DistinctIds(ks: seq<UpstreamKey>) {
    forall i, j | 0 <= i < j < |ks| :: ks[i].id != ks[j].id
  }

  function Targets(ks: seq<UpstreamKey>): (r: seq<nat>)
    ensures |r| == |ks| && forall i | 0 <= i < |ks| :: r[i] == RotationTarget(ks[i])
  {
    if ks == [] then [] else Targets(ks[..|ks| - 1]) + [RotationTarget(ks[|ks| - 1])]
  }

  /** `sorted` lists the candidates by id. */
  ghost predicate Ordered(cands: seq<UpstreamKey>, sorted: seq<UpstreamKey>) {
    cands != [] && DistinctIds(cands) && sorted == SortById(cands)
  }

  /** The serving entry and the index agree with a slot of the clock: the entry names the key of
      the slot and how often it has served, and the index points at the position after it. When
      the key has had its turns, the entry may be missing. */
  ghost predicate Agrees(sorted: seq<UpstreamKey>, sticky: Option<Serving>, rr: nat, s: Slot) {
    && sorted != [] && On(Targets(sorted), s)
    && IndexInto(rr, |sorted|) == Following(s.pos, |sorted|)
    && (if sticky.Some? then sticky.value == Serving(sorted[s.pos].id, s.count)
        else s.count == RotationTarget(sorted[s.pos]))
  }

  // ---------------------------------------------------------------- one selection is one tick

  lemma {:induction false} NextPosition(rr: nat, len: nat)
    requires len > 0
    ensures IndexInto(rr + 1, len) == Following(IndexInto(rr, len), len)
    decreases rr
  {
    if rr >= len { NextPosition(rr - len, len); }
  }

  lemma SortedMembers(cands: seq<UpstreamKey>, i: nat)
    requires i < |cands|
    ensures SortById(cands)[i] in cands
  {
    assert SortById(cands)[i] in multiset(SortById(cands));
  }

  lemma PositionIsUnique(ks: seq<UpstreamKey>, k: UpstreamKey)
    requires DistinctIds(ks) && k in ks
    ensures PositionOf(ks, k.id).Some? && ks[PositionOf(ks, k.id).value] == k
  {
    var i :| 0 <= i < |ks| && ks[i] == k;
    assert ks[i].id == k.id;
  }

  lemma PickStays(cands: seq<UpstreamKey>, k: UpstreamKey, count: nat, rr: nat)
    requires DistinctIds(cands) && k in cands && count < RotationTarget(k)
    ensures Pick(cands, Some(Serving(k.id, count)), rr) == Picked(k, count + 1, rr)
  {
    PositionIsUnique(cands, k);
  }

  lemma PickMoves(cands: seq<UpstreamKey>, k: UpstreamKey, sticky: Option<Serving>, rr: nat)
    requires DistinctIds(cands) && k in cands && rr + 1 < U64
    requires sticky == None || sticky == Some(Serving(k.id, RotationTarget(k)))
    ensures Pick(cands, sticky, rr) == Picked(SortById(cands)[IndexInto(rr, |cands|)], 1, rr + 1)
  {
    PositionIsUnique(cands, k);
  }

  /** One selection serves the key of the next slot and leaves entry and index in agreement with it. */
  lemma PickTicks(cands: seq<UpstreamKey>, sorted: seq<UpstreamKey>, sticky: Option<Serving>, rr: nat, s: Slot)
    requires Ordered(cands, sorted) && Agrees(sorted, sticky, rr, s) && rr + 1 < U64
    ensures var p, s' := Pick(cands, sticky, rr), Tick(Targets(sorted), s);
            && p.key == sorted[s'.pos]
            && Agrees(sorted, Some(Serving(p.key.id, p.count)), p.roundRobin, s')
            && p.roundRobin <= rr + 1
  {
    var k := sorted[s.pos];
    SortedMembers(cands, s.pos);
    if s.count < RotationTarget(k) {
      PickStays(cands, k, s.count, rr);
    } else {
      PickMoves(cands, k, sticky, rr);
      NextPosition(rr, |sorted|);
      RotationTargetRange(sorted[IndexInto(rr, |sorted|)]);
    }
  }

  // ---------------------------------------------------------------- the calls of the scheduler

  /** What one selection call finds besides the serving entry and the index. */
  datatype Call = Call(buckets: map<string, Bucket>, keys: seq<UpstreamKey>, tried: set<string>, now: int)

  ghost predicate Offers(c: Call, model: string, cands: seq<UpstreamKey>) {
    c.keys != [] && Candidates(c.buckets, c.keys, HasScoped(c.keys, model), model, c.tried, c.now) == cands
  }

  /** The model's serving entry lives in `serving`; the index is shared by all models. */
  datatype Turn = Turn(serving: map<string, Serving>, roundRobin: nat)

  function Answer(c: Call, model: string, t: Turn): (View, Choice) {
    Select(View(c.buckets, t.serving, t.roundRobin), c.keys, model, c.tried, c.now)
  }

  /** The call answers `r` and leaves `t'`. */
  ghost predicate Leads(c: Call, model: string, t: Turn, t': Turn, r: Choice) {
    var a := Answer(c, model, t);
    a.1 == r && t' == Turn(a.0.serving, a.0.roundRobin)
  }

  /** A series of selections for one model, whatever happens to the buckets between them, as long
      as nobody else moves the model's entry or the index. */
  ghost predicate IsRun(calls: seq<Call>, model: string, turns: seq<Turn>, answers: seq<Choice>) {
    && |turns| == |calls| + 1 && |answers| == |calls|
    && forall i | 0 <= i < |calls| :: Leads(calls[i], model, turns[i], turns[i + 1], answers[i])
  }

  lemma AnswerIsPick(c: Call, model: string, t: Turn, cands: seq<UpstreamKey>)
    requires cands != [] && Offers(c, model, cands)
    ensures var (v, r) := Answer(c, model, t);
            var p := Pick(cands, StickyOf(t.serving, model), t.roundRobin);
            r == Ok(p.key) && StickyOf(v.serving, model) == Some(Serving(p.key.id, p.count))
              && v.roundRobin == p.roundRobin
  {
  }

  ghost predicate TurnAgrees(t: Turn, model: string, sorted: seq<UpstreamKey>, s: Slot) {
    Agrees(sorted, StickyOf(t.serving, model), t.roundRobin, s)
  }

  lemma AnswerTicks(c: Call, model: string, t: Turn, t': Turn, r: Choice, cands: seq<UpstreamKey>,
                    sorted: seq<UpstreamKey>, s: Slot)
    requires Leads(c, model, t, t', r) && Offers(c, model, cands)
    requires Ordered(cands, sorted) && TurnAgrees(t, model, sorted, s) && t.roundRobin + 1 < U64
    ensures r == Ok(sorted[Tick(Targets(sorted), s).pos])
    ensures TurnAgrees(t', model, sorted, Tick(Targets(sorted), s))
    ensures t'.roundRobin <= t.roundRobin + 1
  {
    AnswerIsPick(c, model, t, cands);
    PickTicks(cands, sorted, StickyOf(t.serving, model), t.roundRobin, s);
  }

  lemma NextTurn(calls: seq<Call>, model: string, turns: seq<Turn>, answers: seq<Choice>, cands: seq<UpstreamKey>,
                 sorted: seq<UpstreamKey>, s: Slot, i: nat)
    requires IsRun(calls, model, turns, answers) && Ordered(cands, sorted) && i < |calls|
             && Offers(calls[i], model, cands)
    requires s.pos < |sorted| && TurnAgrees(turns[i], model, sorted, Ticks(Targets(sorted), s, i))
             && turns[i].roundRobin + 1 < U64
    ensures answers[i] == Ok(sorted[Ticks(Targets(sorted), s, i + 1).pos])
    ensures TurnAgrees(turns[i + 1], model, sorted, Ticks(Targets(sorted), s, i + 1))
    ensures turns[i + 1].roundRobin <= turns[i].roundRobin + 1
  {
    assert Leads(calls[i], model, turns[i], turns[i + 1], answers[i]);
    AnswerTicks(calls[i], model, turns[i], turns[i + 1], answers[i], cands, sorted, Ticks(Targets(sorted), s, i));
  }

  lemma {:induction false} TurnOnTheClock(calls: seq<Call>, model: string, turns: seq<Turn>, answers: seq<Choice>,
                                          cands: seq<UpstreamKey>, sorted: seq<UpstreamKey>, s: Slot, i: nat)
    requires IsRun(calls, model, turns, answers) && Ordered(cands, sorted) && TurnAgrees(turns[0], model, sorted, s)
    requires turns[0].roundRobin + |calls| < U64 && i <= |calls|
    requires forall i | 0 <= i < |calls| :: Offers(calls[i], model, cands)
    ensures TurnAgrees(turns[i], model, sorted, Ticks(Targets(sorted), s, i))
    ensures turns[i].roundRobin <= turns[0].roundRobin + i
  {
    if i > 0 {
      TurnOnTheClock(calls, model, turns, answers, cands, sorted, s, i - 1);
      NextTurn(calls, model, turns, answers, cands, sorted, s, i - 1);
    }
  }

  /** A run of selections with unchanging candidates follows the clock: the keys serve in id order
      from the global index on, each exactly as often in a row as its target. */
  lemma SelectionsFollowClock(calls: seq<Call>, model: string, turns: seq<Turn>, answers: seq<Choice>,
                              cands: seq<UpstreamKey>, sorted: seq<UpstreamKey>, s: Slot)
    requires IsRun(calls, model, turns, answers) && Ordered(cands, sorted) && TurnAgrees(turns[0], model, sorted, s)
    requires turns[0].roundRobin + |calls| < U64
    requires forall i | 0 <= i < |calls| :: Offers(calls[i], model, cands)
    ensures forall i | 0 <= i < |calls| :: answers[i] == Ok(sorted[Ticks(Targets(sorted), s, i + 1).pos])
  {
    forall i | 0 <= i < |calls| ensures answers[i] == Ok(sorted[Ticks(Targets(sorted), s, i + 1).pos]) {
      TurnOnTheClock(calls, model, turns, answers, cands, sorted, s, i);
      NextTurn(calls, model, turns, answers, cands, sorted, s, i);
    }
  }

  /** Where a run may begin: a model that nobody serves yet joins the rotation at the global index. */
  lemma FreshModelAgrees(cands: seq<UpstreamKey>, sorted: seq<UpstreamKey>, rr: nat) returns (s: Slot)
    requires Ordered(cands, sorted)
    ensures Agrees(sorted, None, rr, s) && Tick(Targets(sorted), s) == Slot(IndexInto(rr, |sorted|), 1)
  {
    var pos := IndexInto(rr, |sorted|);
    var last := if pos == 0 then |sorted| - 1 else pos - 1;
    RotationTargetRange(sorted[last]);
    s := Slot(last, RotationTarget(sorted[last]));
  }

  // ---------------------------------------------------------------- equal shares

  lemma TargetsAreRound(ks: seq<UpstreamKey>)
    requires ks != []
    ensures IsRound(Targets(ks))
  {
    forall i | 0 <= i < |ks| ensures Targets(ks)[i] >= 1 { RotationTargetRange(ks[i]); }
  }

  lemma SortKeepsDistinct(ks: seq<UpstreamKey>)
    requires DistinctIds(ks)
    ensures DistinctIds(SortById(ks))
  {
    var sorted := SortById(ks);
    forall i, j | 0 <= i < j < |sorted| ensures sorted[i].id != sorted[j].id {
      if sorted[i].id == sorted[j].id {
        SortedMembers(ks, i);
        SortedMembers(ks, j);
        var p :| 0 <= p < |ks| && ks[p] == sorted[i];
        var q :| 0 <= q < |ks| && ks[q] == sorted[j];
        assert p == q;
        TwiceInSeq(sorted, i, j);
        OnceInSeq(ks, p);
      }
    }
  }

  lemma TwiceInSeq(s: seq<UpstreamKey>, i: nat, j: nat)
    requires i < j < |s| && s[i] == s[j]
    ensures multiset(s)[s[i]] >= 2
  {
    assert s == s[..i] + [s[i]] + s[i + 1..j] + [s[j]] + s[j + 1..];
  }

  lemma OnceInSeq(s: seq<UpstreamKey>, p: nat)
    requires p < |s| && DistinctIds(s)
    ensures multiset(s)[s[p]] == 1
  {
    assert s == s[..p] + [s[p]] + s[p + 1..];
    assert multiset(s[..p])[s[p]] == 0 && multiset(s[p + 1..])[s[p]] == 0;
  }

  function Served(ks: seq<UpstreamKey>): seq<Choice> {
    seq(|ks|, i requires 0 <= i < |ks| => Ok(ks[i]))
  }

  lemma ClockShares(answers: seq<Choice>, sorted: seq<UpstreamKey>, s: Slot, start: nat, p: nat)
    requires sorted != [] && DistinctIds(sorted) && On(Targets(sorted), s) && p < |sorted|
    requires start + Sum(Targets(sorted), |sorted|) <= |answers|
    requires forall i | 0 <= i < |answers| :: answers[i] == Ok(sorted[Ticks(Targets(sorted), s, i + 1).pos])
    ensures multiset(answers[start..start + Sum(Targets(sorted), |sorted|)])[Ok(sorted[p])] == RotationTarget(sorted[p])
  {
    var vals := Served(sorted);
    TargetsAreRound(sorted);
    forall i, j | 0 <= i < j < |vals| ensures vals[i] != vals[j] {
      assert sorted[i].id != sorted[j].id;
    }
    WindowIsFair(answers, vals, Targets(sorted), s, start, p);
  }

  /** Fairness: every window of as many consecutive selections as the targets sum to, wherever it
      starts, serves each key exactly as often as its target. */
  lemma EqualShares(calls: seq<Call>, model: string, turns: seq<Turn>, answers: seq<Choice>, cands: seq<UpstreamKey>,
                    sorted: seq<UpstreamKey>, s: Slot, start: nat, p: nat)
    requires IsRun(calls, model, turns, answers) && Ordered(cands, sorted) && TurnAgrees(turns[0], model, sorted, s)
    requires turns[0].roundRobin + |calls| < U64
    requires forall i | 0 <= i < |calls| :: Offers(calls[i], model, cands)
    requires p < |sorted| && start + Sum(Targets(sorted), |sorted|) <= |calls|
    ensures multiset(answers[start..start + Sum(Targets(sorted), |sorted|)])[Ok(sorted[p])] == RotationTarget(sorted[p])
  {
    SelectionsFollowClock(calls, model, turns, answers, cands, sorted, s);
    SortKeepsDistinct(cands);
    ClockShares(answers, sorted, s, start, p);
  }
}
