/** Request tokens: signature, time window, and the table of nonces that stops a second use.

Times are Unix seconds. The MAC, the payload decoding and the integer parser are library code;
they come in as `Tools` and nothing is assumed about them.
*/
module Signing {
  import opened Basics

  const SIGN_WINDOW: nat := 300
  const NONCE_TTL: nat := 600
  const NONCE_CACHE_MAX: nat := 10000

  datatype Tools = Tools(sign: string -> string, decode: string -> Option<string>, parseInt: string -> Option<int>)

  datatype Claim = Claim(client: string, ts: int, nonce: string)

  datatype Refusal =
    | InvalidFormat | InvalidSignature | BadEncoding | NoTimestamp | BadTimestamp | NoNonce | OutsideWindow | Replay

  /** The text before and after the last dot. */
  function SplitLast(s: string): Option<(string, string)> {
    if s == "" then None
    else if s[|s| - 1] == '.' then Some((s[..|s| - 1], ""))
    else
      var r := SplitLast(s[..|s| - 1]);
      if r.None? then None else Some((r.value.0, r.value.1 + [s[|s| - 1]]))
  }

  /** The parts between dots; there is always at least one. */
  function SplitDots(s: string): (r: seq<string>)
    ensures r != []
  {
    if s == "" then [""]
    else
      var r := SplitDots(s[1..]);
      if s[0] == '.' then [""] + r else [[s[0]] + r[0]] + r[1..]
  }

  /** A token that is signed and readable. */
  function Parse(t: Tools, token: string): Result<Claim, Refusal> {
    var halves := SplitLast(token);
    if halves.None? then Err(InvalidFormat)
    else if halves.value.1 != t.sign(halves.value.0) then Err(InvalidSignature)
    else
      var payload := t.decode(halves.value.0);
      if payload.None? then Err(BadEncoding)
      else
        var parts := SplitDots(payload.value);
        if |parts| < 2 then Err(NoTimestamp)
        else
          var ts := t.parseInt(parts[1]);
          if ts.None? then Err(BadTimestamp)
          else if |parts| < 3 then Err(NoNonce)
          else Ok(Claim(parts[0], ts.value, parts[2]))
  }

  predicate InWindow(ts: int, now: int) { -(SIGN_WINDOW as int) <= now - ts <= SIGN_WINDOW }

  function Pruned(t: map<string, int>, now: int): map<string, int> {
    map n | n in t && now - t[n] < NONCE_TTL :: t[n]
  }

  /** `kept` is `full` cut down to the limit, oldest entries first. */
  ghost predicate Trimmed(full: map<string, int>, kept: map<string, int>) {
    && (forall n | n in kept :: n in full && kept[n] == full[n])
    && |kept| == MinNat(|full|, 10_000)
    && (forall d, k | d in full && d !in kept && k in kept :: full[d] <= full[k])
  }

  /** What one check of a readable claim does to the table. */
  ghost predicate Checks(t: map<string, int>, c: Claim, now: int, t': map<string, int>, accepted: bool) {
    if !InWindow(c.ts, now) then t' == t && !accepted
    else if c.nonce in Pruned(t, now) then t' == Pruned(t, now) && !accepted
    else Trimmed(Pruned(t, now)[c.nonce := now], t') && accepted
  }

  /** The answer for a token. */
  ghost function Verdict(t: Tools, table: map<string, int>, token: string, now: int): Result<string, Refusal> {
    match Parse(t, token)
    case Err(e) => Err(e)
    case Ok(c) =>
      if !InWindow(c.ts, now) then Err(OutsideWindow)
      else if c.nonce in Pruned(table, now) then Err(Replay)
      else Ok(c.client)
  }

  class SigningManager {
    const tools: Tools
    var nonces: map<string, int>

    constructor (tools: Tools)
      ensures this.tools == tools && nonces == map[]
    {
      this.tools := tools;
      nonces := map[];
    }

    method VerifyToken(token: string, now: int) returns (r: Result<string, Refusal>)
      modifies this
      ensures r == Verdict(tools, old(nonces), token, now)
      ensures match Parse(tools, token)
              case Err(_) => nonces == old(nonces)
              case Ok(c) => Checks(old(nonces), c, now, nonces, r.Ok?)
    {
      var p := Parse(tools, token);
      if p.Err? {
        return Err(p.error);
      }
      var c := p.value;
      var age := if now >= c.ts then now - c.ts else c.ts - now;
      if age > SIGN_WINDOW {
        return Err(OutsideWindow);
      }
      nonces := map n | n in nonces && now - nonces[n] < NONCE_TTL :: nonces[n];
      if c.nonce in nonces {
        return Err(Replay);
      }
      nonces := nonces[c.nonce := now];
      Evict();
      r := Ok(c.client);
    }

    /** Drops the oldest entries until the table fits. */
    method Evict()
      modifies this
      ensures Trimmed(old(nonces), nonces)
    {
      ghost var full := nonces;
      while |nonces| > NONCE_CACHE_MAX
        invariant forall n | n in nonces :: n in full && nonces[n] == full[n]
        invariant |nonces| == |full| || (NONCE_CACHE_MAX <= |nonces| < |full|)
        invariant forall d, k | d in full && d !in nonces && k in nonces :: full[d] <= full[k]
        decreases |nonces|
      {
        var oldest := Oldest(nonces);
        RemoveShrinks(nonces, oldest);
        nonces := nonces - {oldest};
      }
    }
  }

  lemma RemoveShrinks(t: map<string, int>, n: string)
    requires n in t
    ensures |t - {n}| == |t| - 1
  {
    assert (t - {n}).Keys == t.Keys - {n};
    assert |t.Keys| == |t| && |(t - {n}).Keys| == |t - {n}|;
  }

  /** Some entry with the smallest time. */
  method Oldest(t: map<string, int>) returns (oldest: string)
    requires |t| > 0
    ensures oldest in t && forall n | n in t :: t[oldest] <= t[n]
  {
    var left := t.Keys;
    assert left != {} by { assert |left| == |t|; }
    oldest :| oldest in left;
    left := left - {oldest};
    while left != {}
      invariant oldest in t && left <= t.Keys
      invariant forall n | n in t && n !in left :: t[oldest] <= t[n]
      decreases left
    {
      var n :| n in left;
      if t[n] < t[oldest] {
        oldest := n;
      }
      left := left - {n};
    }
  }

  // ---------------------------------------------------------------- runs

  datatype Call = Call(claim: Claim, at: int)

  ghost predicate IsRun(tables: seq<map<string, int>>, calls: seq<Call>, accepted: seq<bool>) {
    && |tables| == |calls| + 1 && |accepted| == |calls| && tables[0] == map[]
    && (forall i | 0 <= i < |calls| :: Checks(tables[i], calls[i].claim, calls[i].at, tables[i + 1], accepted[i]))
    && (forall i, j | 0 <= i <= j < |calls| :: calls[i].at <= calls[j].at)
  }

  /** The acceptances up to call `i` that lie less than the time to live before it. */
  ghost function Recent(calls: seq<Call>, accepted: seq<bool>, i: nat): set<nat>
    requires i < |calls| == |accepted|
  {
    set j: nat | j <= i && accepted[j] && calls[i].at - calls[j].at < NONCE_TTL
  }

  ghost predicate WithinCapacity(calls: seq<Call>, accepted: seq<bool>)
    requires |calls| == |accepted|
  {
    forall i | 0 <= i < |calls| :: |Recent(calls, accepted, i)| <= 10_000
  }

  /** Every entry comes from an acceptance. */
  ghost predicate FromAcceptance(t: map<string, int>, calls: seq<Call>, accepted: seq<bool>, i: nat, n: string)
    requires i <= |calls| == |accepted|
  {
    n in t ==> exists j | 0 <= j < i :: accepted[j] && calls[j].claim.nonce == n && calls[j].at == t[n]
  }

  /** An acceptance is on record as long as it is recent at `now`. */
  ghost predicate OnRecord(t: map<string, int>, c: Call, now: int) {
    now - c.at < NONCE_TTL ==> c.claim.nonce in t && t[c.claim.nonce] == c.at
  }

  ghost predicate TableFits(t: map<string, int>, calls: seq<Call>, accepted: seq<bool>, i: nat, now: int)
    requires i <= |calls| == |accepted|
  {
    && (forall n | n in t :: FromAcceptance(t, calls, accepted, i, n))
    && (forall j | 0 <= j < i && accepted[j] :: OnRecord(t, calls[j], now))
  }

  lemma {:induction false} ImageSize(s: set<nat>, names: set<string>, calls: seq<Call>)
    requires forall j | j in s :: j < |calls|
    requires forall n | n in names :: exists j | j in s :: calls[j].claim.nonce == n
    ensures |names| <= |s|
  {
    if names != {} {
      var n :| n in names;
      var j :| j in s && calls[j].claim.nonce == n;
      forall m | m in names - {n} ensures exists k | k in s - {j} :: calls[k].claim.nonce == m {
        var k :| k in s && calls[k].claim.nonce == m;
        assert k in s - {j};
      }
      ImageSize(s - {j}, names - {n}, calls);
    }
  }

  lemma SameSizeSameMap(full: map<string, int>, kept: map<string, int>)
    requires Trimmed(full, kept) && |full| <= NONCE_CACHE_MAX
    ensures kept == full
  {
    assert kept.Keys <= full.Keys && |kept.Keys| == |full.Keys|;
    assert |full.Keys - kept.Keys| == |full.Keys| - |kept.Keys|;
    assert kept.Keys == full.Keys;
  }

  /** An accepting call records its nonce beside exactly the recent ones: nothing is evicted. */
  lemma AcceptingKeepsAll(tables: seq<map<string, int>>, calls: seq<Call>, accepted: seq<bool>, i: nat)
    requires IsRun(tables, calls, accepted) && i < |calls| && accepted[i] && WithinCapacity(calls, accepted)
    requires TableFits(tables[i], calls, accepted, i, calls[i].at)
    ensures tables[i + 1] == Pruned(tables[i], calls[i].at)[calls[i].claim.nonce := calls[i].at]
  {
    var now := calls[i].at;
    var full := Pruned(tables[i], now)[calls[i].claim.nonce := now];
    assert Checks(tables[i], calls[i].claim, now, tables[i + 1], accepted[i]);
    forall n | n in full.Keys ensures exists j | j in Recent(calls, accepted, i) :: calls[j].claim.nonce == n {
      if n == calls[i].claim.nonce {
        assert i in Recent(calls, accepted, i);
      } else {
        assert FromAcceptance(tables[i], calls, accepted, i, n);
        var j :| 0 <= j < i && accepted[j] && calls[j].claim.nonce == n && calls[j].at == tables[i][n];
        assert j in Recent(calls, accepted, i);
      }
    }
    ImageSize(Recent(calls, accepted, i), full.Keys, calls);
    assert |Recent(calls, accepted, i)| <= NONCE_CACHE_MAX;
    assert |full.Keys| == |full|;
    SameSizeSameMap(full, tables[i + 1]);
  }

  lemma FitsLater(t: map<string, int>, calls: seq<Call>, accepted: seq<bool>, i: nat, now: int, later: int)
    requires i <= |calls| == |accepted| && TableFits(t, calls, accepted, i, now) && now <= later
    ensures TableFits(t, calls, accepted, i, later)
  {
    forall j | 0 <= j < i && accepted[j] ensures OnRecord(t, calls[j], later) { assert OnRecord(t, calls[j], now); }
  }

  lemma EntriesStayBacked(tables: seq<map<string, int>>, calls: seq<Call>, accepted: seq<bool>, i: nat, n: string)
    requires IsRun(tables, calls, accepted) && i < |calls| && n in tables[i + 1]
    requires accepted[i] ==> tables[i + 1] == Pruned(tables[i], calls[i].at)[calls[i].claim.nonce := calls[i].at]
    requires n in tables[i] ==> FromAcceptance(tables[i], calls, accepted, i, n)
    ensures FromAcceptance(tables[i + 1], calls, accepted, i + 1, n)
  {
    assert Checks(tables[i], calls[i].claim, calls[i].at, tables[i + 1], accepted[i]);
    if accepted[i] && n == calls[i].claim.nonce {
      assert accepted[i] && calls[i].at == tables[i + 1][n];
    } else {
      assert n in tables[i] && tables[i][n] == tables[i + 1][n];
    }
  }

  lemma RecordStays(tables: seq<map<string, int>>, calls: seq<Call>, accepted: seq<bool>, i: nat, j: nat)
    requires IsRun(tables, calls, accepted) && j < i < |calls| && accepted[j]
             && OnRecord(tables[i], calls[j], calls[i].at)
    requires accepted[i] ==> tables[i + 1] == Pruned(tables[i], calls[i].at)[calls[i].claim.nonce := calls[i].at]
    ensures OnRecord(tables[i + 1], calls[j], calls[i].at)
  {
    assert Checks(tables[i], calls[i].claim, calls[i].at, tables[i + 1], accepted[i]);
  }

  /** One call keeps the books. */
  lemma CallFits(tables: seq<map<string, int>>, calls: seq<Call>, accepted: seq<bool>, i: nat)
    requires IsRun(tables, calls, accepted) && i < |calls| && WithinCapacity(calls, accepted)
    requires TableFits(tables[i], calls, accepted, i, calls[i].at)
    ensures TableFits(tables[i + 1], calls, accepted, i + 1, calls[i].at)
  {
    if accepted[i] { AcceptingKeepsAll(tables, calls, accepted, i); }
    var after := tables[i + 1];
    forall n | n in after ensures FromAcceptance(after, calls, accepted, i + 1, n) {
      assert n in tables[i] ==> FromAcceptance(tables[i], calls, accepted, i, n);
      EntriesStayBacked(tables, calls, accepted, i, n);
    }
    forall j | 0 <= j < i + 1 && accepted[j] ensures OnRecord(tables[i + 1], calls[j], calls[i].at) {
      if j < i { RecordStays(tables, calls, accepted, i, j); }
    }
  }

  lemma {:induction false} TablesFit(tables: seq<map<string, int>>, calls: seq<Call>, accepted: seq<bool>, i: nat,
                                     now: int)
    requires IsRun(tables, calls, accepted) && i <= |calls| && WithinCapacity(calls, accepted)
    requires i > 0 ==> calls[i - 1].at <= now
    ensures TableFits(tables[i], calls, accepted, i, now)
  {
    if i > 0 {
      assert i > 1 ==> calls[i - 2].at <= calls[i - 1].at;
      TablesFit(tables, calls, accepted, i - 1, calls[i - 1].at);
      CallFits(tables, calls, accepted, i - 1);
      FitsLater(tables[i], calls, accepted, i, calls[i - 1].at, now);
    }
  }

  /** After an acceptance, an entry is a recent acceptance, and a recent acceptance is an entry. */
  lemma EntryIsRecent(tables: seq<map<string, int>>, calls: seq<Call>, accepted: seq<bool>, i: nat, n: string)
    requires IsRun(tables, calls, accepted) && i < |calls| && accepted[i] && WithinCapacity(calls, accepted)
    requires n in tables[i + 1]
    ensures exists j | j in Recent(calls, accepted, i) :: calls[j].claim.nonce == n
  {
    TablesFit(tables, calls, accepted, i, calls[i].at);
    AcceptingKeepsAll(tables, calls, accepted, i);
    if n == calls[i].claim.nonce {
      assert i in Recent(calls, accepted, i);
    } else {
      assert FromAcceptance(tables[i], calls, accepted, i, n);
      var j :| 0 <= j < i && accepted[j] && calls[j].claim.nonce == n && calls[j].at == tables[i][n];
      assert j in Recent(calls, accepted, i);
    }
  }

  lemma RecentIsEntry(tables: seq<map<string, int>>, calls: seq<Call>, accepted: seq<bool>, i: nat, j: nat)
    requires IsRun(tables, calls, accepted) && i < |calls| && accepted[i] && WithinCapacity(calls, accepted)
    requires j in Recent(calls, accepted, i)
    ensures calls[j].claim.nonce in tables[i + 1] && tables[i + 1][calls[j].claim.nonce] == calls[j].at
  {
    TablesFit(tables, calls, accepted, i + 1, calls[i].at);
    assert OnRecord(tables[i + 1], calls[j], calls[i].at);
  }

  /** With at most 10000 acceptances in any 600 seconds, the table after an acceptance holds exactly
      the nonces accepted in the last 600 seconds, with their times. */
  lemma TableIsLastWindow(tables: seq<map<string, int>>, calls: seq<Call>, accepted: seq<bool>, i: nat, n: string)
    requires IsRun(tables, calls, accepted) && i < |calls| && accepted[i] && WithinCapacity(calls, accepted)
    ensures n in tables[i + 1] <==> exists j | j in Recent(calls, accepted, i) :: calls[j].claim.nonce == n
    ensures forall j | j in Recent(calls, accepted, i) && calls[j].claim.nonce == n :: tables[i + 1][n] == calls[j].at
  {
    if n in tables[i + 1] { EntryIsRecent(tables, calls, accepted, i, n); }
    forall j | j in Recent(calls, accepted, i) && calls[j].claim.nonce == n
      ensures n in tables[i + 1] && tables[i + 1][n] == calls[j].at
    {
      RecentIsEntry(tables, calls, accepted, i, j);
    }
  }

  /** The table never outgrows its limit. */
  lemma {:induction false} TableIsBounded(tables: seq<map<string, int>>, calls: seq<Call>, accepted: seq<bool>, i: nat)
    requires IsRun(tables, calls, accepted) && i <= |calls|
    ensures |tables[i]| <= 10_000
  {
    if i > 0 {
      TableIsBounded(tables, calls, accepted, i - 1);
      var c := calls[i - 1];
      assert Checks(tables[i - 1], c.claim, c.at, tables[i - 1 + 1], accepted[i - 1]);
      SmallerMap(Pruned(tables[i - 1], c.at), tables[i - 1]);
    }
  }

  lemma SmallerMap(part: map<string, int>, whole: map<string, int>)
    requires forall n | n in part :: n in whole
    ensures |part| <= |whole|
  {
    assert |part.Keys| == |part| && |whole.Keys| == |whole|;
    SubsetSize(part.Keys, whole.Keys);
  }

  /** A claim that was accepted is accepted again only if it was dated exactly 300 seconds ahead of
      its acceptance, and then exactly 600 seconds later. */
  lemma AcceptedAgainOnlyAtEdge(tables: seq<map<string, int>>, calls: seq<Call>, accepted: seq<bool>, j: nat, k: nat)
    requires IsRun(tables, calls, accepted) && WithinCapacity(calls, accepted)
    requires j < k < |calls| && accepted[j] && accepted[k] && calls[j].claim == calls[k].claim
    ensures calls[j].claim.ts - calls[j].at == SIGN_WINDOW && calls[k].at == calls[j].at + NONCE_TTL
  {
    assert Checks(tables[j], calls[j].claim, calls[j].at, tables[j + 1], accepted[j]);
    assert Checks(tables[k], calls[k].claim, calls[k].at, tables[k + 1], accepted[k]);
    assert calls[k - 1].at <= calls[k].at;
    TablesFit(tables, calls, accepted, k, calls[k].at);
    assert OnRecord(tables[k], calls[j], calls[k].at);
  }

  /** At that edge it is: the window still holds the claim when the table has let it go. */
  lemma EdgeClaimIsAcceptedAgain(c: Claim)
    returns (tables: seq<map<string, int>>, calls: seq<Call>, accepted: seq<bool>)
    ensures IsRun(tables, calls, accepted) && WithinCapacity(calls, accepted)
    ensures calls == [Call(c, c.ts - SIGN_WINDOW), Call(c, c.ts + SIGN_WINDOW)] && accepted == [true, true]
  {
    var first, second := c.ts - SIGN_WINDOW, c.ts + SIGN_WINDOW;
    calls, accepted := [Call(c, first), Call(c, second)], [true, true];
    tables := [map[], map[c.nonce := first], map[c.nonce := second]];
    var none: map<string, int> := map[];
    assert Pruned(none, first)[c.nonce := first] == tables[1];
    assert Pruned(tables[1], second) == none;
    assert |tables[1]| == 1 && |tables[2]| == 1;
    assert Recent(calls, accepted, 0) == {0} && Recent(calls, accepted, 1) == {1};
  }
}
