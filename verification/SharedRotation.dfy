/** The round-robin index is shared by all models. What that means for one of them: when its blocks
follow the id order, when a round of blocks is fair, and when it is bound to a single key. */
module SharedRotation {
  import opened Basics
  import opened Scheduler
  import opened Blocks
  import opened RotationClock
  import opened Rotation

  // ---------------------------------------------------------------- the index in residues

  lemma {:induction false} IndexSum(a: nat, b: nat, len: nat)
    requires len > 0
    ensures var sum := IndexInto(a, len) + IndexInto(b, len);
            IndexInto(a + b, len) == if sum < len then sum else sum - len
    decreases a + b
  {
    if a >= len {
      IndexSum(a - len, b, len);
    } else if b >= len {
      IndexSum(a, b - len, len);
    }
  }

  /** The index after a block start and `others` further steps points at the position that follows,
      exactly if the further steps make whole rounds; and at the same position, exactly if they
      complete one. */
  lemma NextStart(rr: nat, others: nat, len: nat)
    requires len > 0
    ensures IndexInto(rr + 1 + others, len) == Following(IndexInto(rr, len), len) <==> IndexInto(others, len) == 0
    ensures IndexInto(rr + 1 + others, len) == IndexInto(rr, len) <==> IndexInto(others + 1, len) == 0
  {
    NextPosition(rr, len);
    IndexSum(rr + 1, others, len);
    IndexSum(rr, others + 1, len);
  }

  // ---------------------------------------------------------------- one model among others

  /** One model's selections in order: the entry and the index that each finds, and what it picks. */
  datatype History = History(entries: seq<Option<Serving>>, indices: seq<nat>, picks: seq<Picked>)

  function Answers(h: History): seq<Choice> {
    seq(|h.picks|, i requires 0 <= i < |h.picks| => Ok(h.picks[i].key))
  }

  ghost predicate SelectionAt(cands: seq<UpstreamKey>, h: History, i: nat)
    requires cands != [] && |h.entries| == |h.indices| == |h.picks| && i < |h.indices|
  {
    h.indices[i] + 1 < U64 && h.picks[i] == Pick(cands, h.entries[i], h.indices[i])
  }

  /** The next selection finds the entry as this one left it, and the index moved on by others or not. */
  ghost predicate PassesOn(h: History, i: nat)
    requires |h.entries| == |h.indices| == |h.picks| && i + 1 < |h.indices|
  {
    h.entries[i + 1] == Some(Serving(h.picks[i].key.id, h.picks[i].count)) && h.picks[i].roundRobin <= h.indices[i + 1]
  }

  ghost predicate IsHistory(cands: seq<UpstreamKey>, h: History) {
    && cands != [] && |h.entries| == |h.indices| == |h.picks|
    && (forall i | 0 <= i < |h.indices| :: SelectionAt(cands, h, i))
    && (forall i | 0 <= i < |h.indices| - 1 :: PassesOn(h, i))
  }

  /** A selection starts a block: there is no entry, or its key has had its turns or is no candidate. */
  predicate StartsBlock(cands: seq<UpstreamKey>, entry: Option<Serving>) {
    var pos := if entry.Some? then PositionOf(cands, entry.value.id) else None;
    !(pos.Some? && entry.value.count < RotationTarget(cands[pos.value]))
  }

  lemma PickAtStart(cands: seq<UpstreamKey>, sorted: seq<UpstreamKey>, entry: Option<Serving>, rr: nat)
    requires Ordered(cands, sorted) && StartsBlock(cands, entry) && rr + 1 < U64
    ensures Pick(cands, entry, rr) == Picked(sorted[IndexInto(rr, |sorted|)], 1, rr + 1)
  {
  }

  /** A block serves the key at `pos`, where the index points when it starts, for exactly its target. */
  lemma {:induction false} BlockServes(cands: seq<UpstreamKey>, sorted: seq<UpstreamKey>, h: History, i: nat, j: nat,
                                       pos: nat)
    requires IsHistory(cands, h) && Ordered(cands, sorted) && i + j < |h.indices| && StartsBlock(cands, h.entries[i])
    requires pos == IndexInto(h.indices[i], |sorted|) && j < RotationTarget(sorted[pos])
    ensures h.picks[i + j] == Picked(sorted[pos], j + 1, if j == 0 then h.indices[i] + 1 else h.indices[i + j])
    decreases j
  {
    if j == 0 {
      BlockBegins(cands, sorted, h, i);
    } else {
      BlockServes(cands, sorted, h, i, j - 1, pos);
      SortedMembers(cands, pos);
      BlockGoesOn(cands, h, i + j, sorted[pos], j);
    }
  }

  lemma BlockBegins(cands: seq<UpstreamKey>, sorted: seq<UpstreamKey>, h: History, i: nat)
    requires IsHistory(cands, h) && Ordered(cands, sorted) && i < |h.indices| && StartsBlock(cands, h.entries[i])
    ensures h.picks[i] == Picked(sorted[IndexInto(h.indices[i], |sorted|)], 1, h.indices[i] + 1)
  {
    assert SelectionAt(cands, h, i);
    PickAtStart(cands, sorted, h.entries[i], h.indices[i]);
  }

  lemma BlockGoesOn(cands: seq<UpstreamKey>, h: History, i: nat, k: UpstreamKey, j: nat)
    requires IsHistory(cands, h) && DistinctIds(cands) && k in cands && 0 < i < |h.indices| && j < RotationTarget(k)
    requires h.picks[i - 1].key == k && h.picks[i - 1].count == j
    ensures h.picks[i] == Picked(k, j + 1, h.indices[i])
  {
    assert SelectionAt(cands, h, i);
    assert PassesOn(h, i - 1);
    PickStays(cands, k, j, h.indices[i]);
  }

  lemma BlockAnswers(cands: seq<UpstreamKey>, sorted: seq<UpstreamKey>, h: History, start: nat, i: nat, pos: nat)
    requires IsHistory(cands, h) && Ordered(cands, sorted) && start <= i < |h.indices|
             && StartsBlock(cands, h.entries[start])
    requires pos == IndexInto(h.indices[start], |sorted|) && i < start + RotationTarget(sorted[pos])
    ensures Answers(h)[i] == Ok(sorted[pos])
  {
    BlockServes(cands, sorted, h, start, i - start, pos);
  }

  /** After a block the next one starts. */
  lemma NextBlockStarts(cands: seq<UpstreamKey>, sorted: seq<UpstreamKey>, h: History, i: nat, next: nat, pos: nat)
    requires IsHistory(cands, h) && Ordered(cands, sorted) && i < next < |h.indices| && StartsBlock(cands, h.entries[i])
    requires pos == IndexInto(h.indices[i], |sorted|) && next == i + RotationTarget(sorted[pos])
    ensures StartsBlock(cands, h.entries[next])
  {
    SortedMembers(cands, pos);
    BlockServes(cands, sorted, h, i, next - i - 1, pos);
    FullEntryStarts(cands, h, next, sorted[pos]);
  }

  lemma FullEntryStarts(cands: seq<UpstreamKey>, h: History, i: nat, k: UpstreamKey)
    requires IsHistory(cands, h) && DistinctIds(cands) && k in cands && 0 < i < |h.indices|
    requires h.picks[i - 1].key == k && h.picks[i - 1].count == RotationTarget(k)
    ensures StartsBlock(cands, h.entries[i])
  {
    assert PassesOn(h, i - 1);
    PositionIsUnique(cands, k);
  }

  ghost predicate BlockOf(sorted: seq<UpstreamKey>, indices: seq<nat>, starts: seq<nat>, ps: seq<nat>, k: nat)
    requires sorted != [] && |starts| == |ps| + 1 && k < |ps|
  {
    starts[k] < |indices| && ps[k] == IndexInto(indices[starts[k]], |sorted|)
      && starts[k + 1] == starts[k] + RotationTarget(sorted[ps[k]])
  }

  /** The blocks of a history: where each begins, and the position that the index points at there. */
  ghost predicate HasBlocks(sorted: seq<UpstreamKey>, indices: seq<nat>, starts: seq<nat>, ps: seq<nat>) {
    && sorted != [] && |starts| == |ps| + 1 && starts[0] == 0 && starts[|ps|] <= |indices|
    && (forall k | 0 <= k < |ps| :: BlockOf(sorted, indices, starts, ps, k))
  }

  lemma {:induction false} BlocksStart(cands: seq<UpstreamKey>, sorted: seq<UpstreamKey>, h: History, starts: seq<nat>,
                                       ps: seq<nat>, k: nat)
    requires IsHistory(cands, h) && Ordered(cands, sorted) && HasBlocks(sorted, h.indices, starts, ps)
    requires k <= |ps| && starts[k] < |h.indices| && StartsBlock(cands, h.entries[0])
    ensures StartsBlock(cands, h.entries[starts[k]])
  {
    if k > 0 {
      assert BlockOf(sorted, h.indices, starts, ps, k - 1);
      RotationTargetRange(sorted[ps[k - 1]]);
      BlocksStart(cands, sorted, h, starts, ps, k - 1);
      NextBlockStarts(cands, sorted, h, starts[k - 1], starts[k], ps[k - 1]);
    }
  }

  lemma BlockBeginsWith(cands: seq<UpstreamKey>, sorted: seq<UpstreamKey>, h: History, starts: seq<nat>, ps: seq<nat>,
                        k: nat)
    requires IsHistory(cands, h) && Ordered(cands, sorted) && HasBlocks(sorted, h.indices, starts, ps)
    requires k < |ps| && starts[k] < |h.indices| && StartsBlock(cands, h.entries[0])
    ensures ps[k] < |sorted| && Answers(h)[starts[k]] == Ok(sorted[ps[k]])
  {
    assert BlockOf(sorted, h.indices, starts, ps, k);
    RotationTargetRange(sorted[ps[k]]);
    BlocksStart(cands, sorted, h, starts, ps, k);
    BlockAnswers(cands, sorted, h, starts[k], starts[k], ps[k]);
  }

  /** Each block serves the key that the index points at when it starts, whatever others do meanwhile. */
  lemma BlocksServe(cands: seq<UpstreamKey>, sorted: seq<UpstreamKey>, h: History, starts: seq<nat>, ps: seq<nat>)
    requires IsHistory(cands, h) && Ordered(cands, sorted) && HasBlocks(sorted, h.indices, starts, ps)
    requires h.entries != [] && StartsBlock(cands, h.entries[0])
    ensures AreBlocks(Targets(sorted), starts, ps) && BlocksFilled(Answers(h), Served(sorted), starts, ps)
  {
    forall k | 0 <= k < |ps|
      ensures BlockAt(Targets(sorted), starts, ps, k)
    {
      assert BlockOf(sorted, h.indices, starts, ps, k);
    }
    forall k | 0 <= k < |ps|
      ensures ps[k] < |sorted| && Filled(Answers(h), starts[k], starts[k + 1], Ok(sorted[ps[k]]))
    {
      assert BlockOf(sorted, h.indices, starts, ps, k);
      StartsGrow(Targets(sorted), starts, ps, k + 1, |ps|);
      BlocksStart(cands, sorted, h, starts, ps, k);
      forall i | starts[k] <= i < starts[k + 1] ensures Answers(h)[i] == Ok(sorted[ps[k]]) {
        BlockAnswers(cands, sorted, h, starts[k], i, ps[k]);
      }
    }
  }

  lemma PickKeepsIndex(cands: seq<UpstreamKey>, h: History, i: nat)
    requires IsHistory(cands, h) && i < |h.indices|
    ensures h.indices[i] <= h.picks[i].roundRobin
  {
    assert SelectionAt(cands, h, i);
  }

  lemma {:induction false} IndexMoves(cands: seq<UpstreamKey>, sorted: seq<UpstreamKey>, h: History, i: nat, j: nat)
    requires IsHistory(cands, h) && Ordered(cands, sorted) && i < j < |h.indices| && StartsBlock(cands, h.entries[i])
    ensures h.indices[i] + 1 <= h.indices[j]
    decreases j
  {
    assert PassesOn(h, j - 1);
    if j > i + 1 {
      IndexMoves(cands, sorted, h, i, j - 1);
      PickKeepsIndex(cands, h, j - 1);
    } else {
      BlockBegins(cands, sorted, h, i);
    }
  }

  /** A block is followed by the block of the next key in id order, exactly if the other models move
      the index by a multiple of the number of keys between the two starts; and by a block of the
      same key, exactly if they move it by one less than such a multiple. */
  lemma NextBlockIff(cands: seq<UpstreamKey>, sorted: seq<UpstreamKey>, h: History, starts: seq<nat>, ps: seq<nat>,
                     k: nat, others: nat)
    requires IsHistory(cands, h) && Ordered(cands, sorted) && HasBlocks(sorted, h.indices, starts, ps)
    requires k + 1 < |ps| && h.entries != [] && StartsBlock(cands, h.entries[0])
    requires starts[k] < |h.indices| && starts[k + 1] < |h.indices|
             && h.indices[starts[k + 1]] == h.indices[starts[k]] + 1 + others
    ensures ps[k + 1] == Following(ps[k], |sorted|) <==> others % |sorted| == 0
    ensures ps[k + 1] == ps[k] <==> (others + 1) % |sorted| == 0
  {
    assert BlockOf(sorted, h.indices, starts, ps, k) && BlockOf(sorted, h.indices, starts, ps, k + 1);
    BlocksStart(cands, sorted, h, starts, ps, k);
    RotationTargetRange(sorted[ps[k]]);
    IndexMoves(cands, sorted, h, starts[k], starts[k + 1]);
    NextStart(h.indices[starts[k]], others, |sorted|);
    IndexIsRemainder(others, |sorted|);
    IndexIsRemainder(others + 1, |sorted|);
  }

  /** As many blocks as there are keys, however other models move the index: each key serves exactly
      its target, exactly if the index points at different positions when the blocks start. */
  lemma EqualSharesIff(cands: seq<UpstreamKey>, sorted: seq<UpstreamKey>, h: History, starts: seq<nat>, ps: seq<nat>,
                       b: nat)
    requires IsHistory(cands, h) && Ordered(cands, sorted) && HasBlocks(sorted, h.indices, starts, ps)
    requires b + |sorted| <= |ps| && h.entries != [] && StartsBlock(cands, h.entries[0])
    ensures starts[b] <= starts[b + |sorted|] <= |Answers(h)|
    ensures (forall p: nat | p < |sorted| ::
               ExactShare(Answers(h)[starts[b]..starts[b + |sorted|]], Ok(sorted[p]), RotationTarget(sorted[p])))
       <==> AllDifferent(ps[b..b + |sorted|])
  {
    var n, targets := |sorted|, Targets(sorted);
    var starts', ps' := starts[b..b + n + 1], ps[b..b + n];
    BlocksServe(cands, sorted, h, starts, ps);
    StartsGrow(targets, starts, ps, b, b + n);
    StartsGrow(targets, starts, ps, b + n, |ps|);
    forall j | 0 <= j < n ensures BlockAt(targets, starts', ps', j) { assert BlockAt(targets, starts, ps, b + j); }
    forall j | 0 <= j < n ensures ps'[j] < n && Filled(Answers(h), starts'[j], starts'[j + 1], Served(sorted)[ps'[j]]) {
      assert ps[b + j] < n && Filled(Answers(h), starts[b + j], starts[b + j + 1], Served(sorted)[ps[b + j]]);
    }
    ServedDiffer(cands, sorted);
    TargetsAreRound(sorted);
    SharesIff(Answers(h), Served(sorted), targets, starts', ps');
  }

  lemma ServedDiffer(cands: seq<UpstreamKey>, sorted: seq<UpstreamKey>)
    requires Ordered(cands, sorted)
    ensures AllDifferent(Served(sorted))
  {
    SortKeepsDistinct(cands);
    forall i, j | 0 <= i < j < |sorted|
      ensures Served(sorted)[i] != Served(sorted)[j]
    {
      assert sorted[i].id != sorted[j].id;
    }
  }
}
