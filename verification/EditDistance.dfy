/** Model-name correction: the two-row edit distance and the similarity built on it.

The specification is not a recurrence but a search space: a script of single-character
edits that turns one string into the other. The distance is the cost of a cheapest script.
*/
module EditDistance {
  import opened Basics

  datatype Edit = Keep(c: char) | Replace(c: char, d: char) | Insert(d: char) | Delete(c: char)

  /** What an edit reads, what it writes, and what it costs: keeping a character is free. */
  function Reads(e: Edit): string { if e.Insert? then [] else [e.c] }
  function Writes(e: Edit): string { if e.Delete? then [] else if e.Keep? then [e.c] else [e.d] }
  function Price(e: Edit): nat { if e.Keep? then 0 else 1 }

  /** The text a script reads. */
  function Source(script: seq<Edit>): string {
    if script == [] then "" else Source(script[..|script| - 1]) + Reads(script[|script| - 1])
  }

  /** The text a script writes. */
  function Target(script: seq<Edit>): string {
    if script == [] then "" else Target(script[..|script| - 1]) + Writes(script[|script| - 1])
  }

  function Cost(script: seq<Edit>): nat {
    if script == [] then 0 else Cost(script[..|script| - 1]) + Price(script[|script| - 1])
  }

  function Mismatch(c: char, d: char): nat { if c == d then 0 else 1 }
  function Front(s: string): string requires s != "" { s[..|s| - 1] }
  function Last(s: string): char requires s != "" { s[|s| - 1] }

  /** The recurrence that the rows of the table follow. */
  function Distance(a: string, b: string): nat
    decreases |a| + |b|
  {
    if a == "" then |b|
    else if b == "" then |a|
    else MinNat(MinNat(Distance(Front(a), b) + 1, Distance(a, Front(b)) + 1),
             Distance(Front(a), Front(b)) + Mismatch(Last(a), Last(b)))
  }

  lemma ScriptExtends(script: seq<Edit>, e: Edit)
    ensures Source(script + [e]) == Source(script) + Reads(e)
    ensures Target(script + [e]) == Target(script) + Writes(e)
    ensures Cost(script + [e]) == Cost(script) + Price(e)
  {
    assert (script + [e])[..|script|] == script;
  }

  /** One more character on either side, or on both, changes the distance by at most one. */
  lemma {:induction false} DistanceSteps(a: string, b: string, c: char, d: char)
    ensures Distance(a + [c], b) <= Distance(a, b) + 1
    ensures Distance(a, b + [d]) <= Distance(a, b) + 1
    ensures Distance(a + [c], b + [d]) <= Distance(a, b) + Mismatch(c, d)
  {
    assert Front(a + [c]) == a && Front(b + [d]) == b;
    assert Distance("", b + [d]) == |b| + 1 && Distance(a + [c], "") == |a| + 1;
  }

  lemma EditSteps(a: string, b: string, e: Edit)
    ensures Distance(a + Reads(e), b + Writes(e)) <= Distance(a, b) + Price(e)
  {
    DistanceSteps(a, b, if e.Insert? then ' ' else e.c, if e.Delete? then ' ' else Writes(e)[0]);
    assert a + [] == a && b + [] == b;
  }

  /** No script is cheaper than the distance. */
  lemma {:induction false} NoCheaperScript(script: seq<Edit>)
    ensures Distance(Source(script), Target(script)) <= Cost(script)
  {
    if script != [] {
      var rest, e := script[..|script| - 1], script[|script| - 1];
      NoCheaperScript(rest);
      EditSteps(Source(rest), Target(rest), e);
    }
  }

  /** A script of exactly that cost exists. */
  lemma {:induction false} CheapestScript(a: string, b: string) returns (script: seq<Edit>)
    ensures Source(script) == a && Target(script) == b && Cost(script) == Distance(a, b)
    decreases |a| + |b|
  {
    if a == "" && b == "" {
      return [];
    }
    var e := LastEdit(a, b);
    var a', b' := if e.Insert? then a else Front(a), if e.Delete? then b else Front(b);
    FittingEditEnds(a, b, e);
    LastEditIsDue(a, b, e);
    var rest := CheapestScript(a', b');
    ScriptExtends(rest, e);
    script := rest + [e];
  }

  predicate Fits(a: string, b: string, e: Edit) {
    && (!e.Insert? ==> a != "" && e.c == Last(a))
    && (e.Keep? ==> b != "" && e.c == Last(b))
    && (e.Insert? || e.Replace? ==> b != "" && e.d == Last(b))
  }

  lemma FittingEditEnds(a: string, b: string, e: Edit)
    requires Fits(a, b, e)
    ensures a == (if e.Insert? then a else Front(a)) + Reads(e)
    ensures b == (if e.Delete? then b else Front(b)) + Writes(e)
  {
  }

  /** The last edit of a cheapest script. */
  function LastEdit(a: string, b: string): (e: Edit)
    requires a != "" || b != ""
    ensures Fits(a, b, e)
  {
    if b == "" || (a != "" && Distance(a, b) == Distance(Front(a), b) + 1) then Delete(Last(a))
    else if a == "" || Distance(a, b) == Distance(a, Front(b)) + 1 then Insert(Last(b))
    else if Last(a) == Last(b) then Keep(Last(a))
    else Replace(Last(a), Last(b))
  }

  lemma LastEditIsDue(a: string, b: string, e: Edit)
    requires (a != "" || b != "") && e == LastEdit(a, b)
    ensures var a', b' := if e.Insert? then a else Front(a), if e.Delete? then b else Front(b);
            Distance(a, b) == Distance(a', b') + Price(e)
  {
  }

  /** `row` holds the distances from `a` to the shorter prefixes of `b`. */
  ghost predicate IsRow(row: seq<nat>, a: string, b: string) {
    |row| <= |b| + 1 && forall j :: 0 <= j < |row| ==> row[j] == Distance(a, b[..j])
  }

  lemma NextCell(prev: seq<nat>, cur: seq<nat>, a: string, b: string, i: nat, j: nat)
    requires i < |a| && j < |b| && |prev| == |b| + 1 && |cur| == j + 1
    requires IsRow(prev, a[..i], b) && IsRow(cur, a[..i + 1], b)
    ensures IsRow(cur + [MinNat(MinNat(prev[j + 1] + 1, cur[j] + 1), prev[j] + Mismatch(a[i], b[j]))], a[..i + 1], b)
  {
    assert Front(a[..i + 1]) == a[..i] && Front(b[..j + 1]) == b[..j];
  }

  /** The rows of the table are computed one from the other; the last cell is the distance. */
  method Levenshtein(a: string, b: string) returns (d: nat)
    ensures d == Distance(a, b)
  {
    var prev: seq<nat> := seq(|b| + 1, j => j);
    for i := 0 to |a|
      invariant |prev| == |b| + 1 && IsRow(prev, a[..i], b)
    {
      var cur: seq<nat> := [i + 1];
      for j := 0 to |b|
        invariant |cur| == j + 1 && IsRow(cur, a[..i + 1], b)
      {
        var cost := if a[i] == b[j] then 0 else 1;
        NextCell(prev, cur, a, b, i, j);
        cur := cur + [MinNat(MinNat(prev[j + 1] + 1, cur[j] + 1), prev[j] + cost)];
      }
      prev := cur;
    }
    assert a[..|a|] == a && b[..|b|] == b;
    d := prev[|b|];
  }

  lemma {:induction false} DistanceZero(a: string, b: string)
    ensures Distance(a, b) == 0 <==> a == b
    decreases |a|
  {
    if a != "" && b != "" {
      DistanceZero(Front(a), Front(b));
      assert a == Front(a) + [Last(a)] && b == Front(b) + [Last(b)];
    }
  }

  lemma {:induction false} DistanceSymmetric(a: string, b: string)
    ensures Distance(a, b) == Distance(b, a)
    decreases |a| + |b|
  {
    if a != "" && b != "" {
      DistanceSymmetric(Front(a), b);
      DistanceSymmetric(a, Front(b));
      DistanceSymmetric(Front(a), Front(b));
    }
  }

  /** The distance lies between the difference of the lengths and the longer length. */
  lemma {:induction false} DistanceBounds(a: string, b: string)
    ensures |a| - |b| <= Distance(a, b) && |b| - |a| <= Distance(a, b)
    ensures Distance(a, b) <= MaxNat(|a|, |b|)
    decreases |a| + |b|
  {
    if a != "" && b != "" {
      DistanceBounds(Front(a), b);
      DistanceBounds(a, Front(b));
      DistanceBounds(Front(a), Front(b));
    }
  }

  lemma {:induction false} TriangleInequality(a: string, b: string, c: string)
    ensures Distance(a, c) <= Distance(a, b) + Distance(b, c)
    decreases |a| + |b| + |c|
  {
    if b == "" || a == "" || c == "" {
      DistanceBounds(a, c);
      DistanceBounds(a, b);
      DistanceBounds(b, c);
    } else {
      TriangleInequality(Front(a), b, c);
      TriangleInequality(a, b, Front(c));
      TriangleInequality(a, Front(b), c);
      TriangleInequality(a, Front(b), Front(c));
      TriangleInequality(Front(a), Front(b), c);
      TriangleInequality(Front(a), Front(b), Front(c));
    }
  }

  /** One minus the distance over the longer length; equal strings short-cut to one. */
  method SimilarityRatio(a: string, b: string) returns (r: real)
    ensures 0.0 <= r <= 1.0
    ensures r == 1.0 <==> a == b
    ensures a != b ==> r == 1.0 - Distance(a, b) as real / MaxNat(|a|, |b|) as real
  {
    if a == b {
      return 1.0;
    }
    DistanceZero(a, b);
    DistanceBounds(a, b);
    var dist := Levenshtein(a, b);
    var maxLen := MaxNat(|a|, |b|);
    if maxLen == 0 {
      return 1.0;
    }
    ProperFraction(dist as real, maxLen as real);
    r := 1.0 - dist as real / maxLen as real;
  }

  lemma ProperFraction(d: real, n: real)
    requires 0.0 < d <= n
    ensures 0.0 < d / n <= 1.0
  {
  }
}
