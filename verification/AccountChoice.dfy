/** How `acquire` picks an account: the longest idle one that is ready at once, or else the one
with the shortest wait. */
module AccountChoice {
  import opened Basics
  import opened AccountPool

  class Account {
    var status: Status
    var cooldownUntil: int
    var lastReleased: nat     // milliseconds
    var lastUsed: int

    constructor (now: int)
      ensures status == Idle && cooldownUntil == now && lastReleased == 0 && lastUsed == now - 3600 * SECOND
    {
      status, cooldownUntil, lastReleased, lastUsed := Idle, now, 0, now - 3600 * SECOND;
    }

    predicate Available(now: int) reads this { status == Idle && cooldownUntil <= now }

    /** Whole seconds since the last use. */
    function Rested(now: int): nat reads this { if now <= lastUsed then 0 else (now - lastUsed) / SECOND }

    /** Seconds until the interval between two uses has passed. */
    function Wait(now: int, throttle: nat): nat reads this {
      if Rested(now) >= throttle then 0 else throttle - Rested(now)
    }
  }

  datatype Candidate = Candidate(released: nat, account: Account)

  predicate Sorted(cands: seq<Candidate>) {
    forall i, j | 0 <= i < j < |cands| :: cands[i].released <= cands[j].released
  }

  /** Where a stable sort by release time puts one more candidate. */
  function Place(cands: seq<Candidate>, released: nat): (p: nat)
    requires Sorted(cands)
    ensures p <= |cands|
    ensures forall i | 0 <= i < p :: cands[i].released <= released
    ensures forall i | p <= i < |cands| :: released < cands[i].released
  {
    if cands == [] || cands[|cands| - 1].released <= released then |cands| else Place(cands[..|cands| - 1], released)
  }

  /** The candidates in order with one more at its place. */
  function Inserted(cands: seq<Candidate>, c: Candidate): (r: seq<Candidate>)
    requires Sorted(cands)
    ensures Sorted(r) && c in r
    ensures forall x | x in cands :: x in r
    ensures forall x | x in r :: x in cands || x == c
  {
    var p := Place(cands, c.released);
    assert cands == cands[..p] + cands[p..];
    cands[..p] + [c] + cands[p..]
  }

  predicate Stands(c: Candidate, accounts: seq<Account>, now: int)
    reads c.account
  {
    c.released == c.account.lastReleased && c.account in accounts && c.account.Available(now)
  }

  method Candidates(accounts: seq<Account>, now: int) returns (cands: seq<Candidate>)
    ensures Sorted(cands)
    ensures forall a | a in accounts && a.Available(now) :: Candidate(a.lastReleased, a) in cands
    ensures forall c | c in cands :: Stands(c, accounts, now)
  {
    cands := [];
    for i := 0 to |accounts|
      invariant Sorted(cands)
      invariant forall a | a in accounts[..i] && a.Available(now) :: Candidate(a.lastReleased, a) in cands
      invariant forall c | c in cands :: Stands(c, accounts, now)
    {
      assert accounts[..i + 1] == accounts[..i] + [accounts[i]];
      if accounts[i].Available(now) {
        cands := Inserted(cands, Candidate(accounts[i].lastReleased, accounts[i]));
      }
    }
  }

  /** The account to take and the seconds to wait for it. */
  method Choose(accounts: seq<Account>, now: int, throttle: nat) returns (best: Option<(nat, Account)>)
    ensures best.None? <==> forall a | a in accounts :: !a.Available(now)
    ensures best.Some? ==>
              var (wait, a) := best.value;
              && a in accounts && a.Available(now) && wait == a.Wait(now, throttle)
              && (wait == 0 ==> forall b | b in accounts && b.Available(now) && b.Wait(now, throttle) == 0 ::
                                  a.lastReleased <= b.lastReleased)
              && (wait > 0 ==> forall b | b in accounts && b.Available(now) ::
                                 || wait < b.Wait(now, throttle)
                                 || (wait == b.Wait(now, throttle) && a.lastReleased <= b.lastReleased))
  {
    var cands := Candidates(accounts, now);
    best := None;
    for i := 0 to |cands|
      invariant best.None? <==> i == 0
      invariant best.Some? ==>
                  var (wait, a) := best.value;
                  && Candidate(a.lastReleased, a) in cands[..i] && wait == a.Wait(now, throttle) && wait > 0
                  && forall j | 0 <= j < i :: var b := cands[j].account;
                       wait < b.Wait(now, throttle) || (wait == b.Wait(now, throttle)
                                                        && a.lastReleased <= b.lastReleased)
    {
      var a := cands[i].account;
      assert Stands(cands[i], accounts, now);
      assert Candidate(a.lastReleased, a) == cands[i];
      if a.Rested(now) >= throttle {
        best := Some((0, a));
        forall b | b in accounts && b.Available(now) && b.Wait(now, throttle) == 0
          ensures a.lastReleased <= b.lastReleased
        {
          assert Candidate(b.lastReleased, b) in cands;
          var j :| 0 <= j < |cands| && cands[j] == Candidate(b.lastReleased, b);
          assert j >= i;
        }
        return;
      }
      var wait := throttle - a.Rested(now);
      if best.None? || wait < best.value.0 {
        best := Some((wait, a));
      }
    }
    forall b | b in accounts && b.Available(now) ensures best.Some? {
      assert Candidate(b.lastReleased, b) in cands;
    }
    if best.Some? {
      assert Candidate(best.value.1.lastReleased, best.value.1) in cands;
      forall b | b in accounts && b.Available(now)
        ensures || best.value.0 < b.Wait(now, throttle)
                || (best.value.0 == b.Wait(now, throttle) && best.value.1.lastReleased <= b.lastReleased)
      {
        assert Candidate(b.lastReleased, b) in cands;
        var j :| 0 <= j < |cands| && cands[j] == Candidate(b.lastReleased, b);
      }
    }
  }
}
