/** Lines of a byte string, however the bytes are cut. */
module SseLines {
  import opened Basics
  import opened Sse

  /** The complete lines of a byte string, and what follows the last newline. */
  function Lines(b: seq<byte>): seq<seq<byte>> {
    if b == [] then []
    else
      var front, last := b[..|b| - 1], b[|b| - 1];
      Lines(front) + if last == NEWLINE then [Rest(front)] else []
  }

  function Rest(b: seq<byte>): seq<byte> {
    if b == [] || b[|b| - 1] == NEWLINE then [] else Rest(b[..|b| - 1]) + [b[|b| - 1]]
  }

  // ---------------------------------------------------------------- cutting bytes anywhere

  predicate HasNewline(b: seq<byte>) { NEWLINE in b }

  /** Where the parser cuts its buffer. */
  function FirstNewline(b: seq<byte>): (p: nat)
    requires HasNewline(b)
    ensures p < |b| && b[p] == NEWLINE && NEWLINE !in b[..p]
  {
    if b[0] == NEWLINE then 0 else FirstNewline(b[1..]) + 1
  }

  lemma OneMoreByte(b: seq<byte>, c: byte)
    ensures Lines(b + [c]) == Lines(b) + if c == NEWLINE then [Rest(b)] else []
    ensures Rest(b + [c]) == if c == NEWLINE then [] else Rest(b) + [c]
  {
    assert (b + [c])[..|b|] == b;
  }

  lemma RestGrows(b: seq<byte>, c: byte)
    ensures Rest(b + [c]) == if c == NEWLINE then [] else Rest(b) + [c]
  {
    assert (b + [c])[..|b|] == b;
  }

  /** What follows depends on the unfinished line only. */
  lemma {:induction false} SameRest(a: seq<byte>, a': seq<byte>, b: seq<byte>)
    requires Rest(a) == Rest(a')
    ensures Rest(a + b) == Rest(a' + b)
  {
    if b == [] {
      assert a + b == a && a' + b == a';
    } else {
      var front, last := b[..|b| - 1], b[|b| - 1];
      SameRest(a, a', front);
      SameRestGrows(a + front, a' + front, last, a + b, a' + b);
    }
  }

  lemma SameRestGrows(a: seq<byte>, a': seq<byte>, c: byte, b: seq<byte>, b': seq<byte>)
    requires Rest(a) == Rest(a') && b == a + [c] && b' == a' + [c]
    ensures Rest(b) == Rest(b')
  {
    RestGrows(a, c);
    RestGrows(a', c);
  }

  lemma RestJoin(a: seq<byte>, b: seq<byte>)
    ensures Rest(a + b) == Rest(Rest(a) + b)
  {
    RestIsPartial(a);
    NoLines(Rest(a));
    SameRest(a, Rest(a), b);
  }

  lemma {:induction false} LinesJoin(a: seq<byte>, b: seq<byte>)
    ensures Lines(a + b) == Lines(a) + Lines(Rest(a) + b)
  {
    if b == [] {
      assert a + b == a && Rest(a) + b == Rest(a);
      RestIsPartial(a);
      NoLines(Rest(a));
    } else {
      var front, last := b[..|b| - 1], b[|b| - 1];
      LinesJoin(a, front);
      RestJoin(a, front);
      OneMoreByte(a + front, last);
      OneMoreByte(Rest(a) + front, last);
      assert a + b == a + front + [last] && Rest(a) + b == Rest(a) + front + [last];
      var more := if last == NEWLINE then [Rest(a + front)] else [];
      assert Lines(a) + Lines(Rest(a) + front) + more == Lines(a) + (Lines(Rest(a) + front) + more);
    }
  }

  lemma {:induction false} RestIsPartial(b: seq<byte>)
    ensures !HasNewline(Rest(b))
  {
    if b != [] { RestIsPartial(b[..|b| - 1]); }
  }

  lemma {:induction false} NoLines(b: seq<byte>)
    requires !HasNewline(b)
    ensures Lines(b) == [] && Rest(b) == b
  {
    if b != [] { NoLines(b[..|b| - 1]); }
  }

  /** Bytes with a newline are a first line, the newline and a tail. */
  lemma FirstLine(first: seq<byte>, tail: seq<byte>)
    requires !HasNewline(first)
    ensures Lines(first + [NEWLINE] + tail) == [first] + Lines(tail) && Rest(first + [NEWLINE] + tail) == Rest(tail)
  {
    var line := first + [NEWLINE];
    NoLines(first);
    assert line[..|line| - 1] == first;
    LinesJoin(line, tail);
    RestJoin(line, tail);
    assert [] + tail == tail;
  }

  /** Taking the first line leaves the same lines in all. */
  lemma CutKeepsTotal(raw: seq<byte>, tail: seq<byte>, b: seq<byte>, taken: seq<seq<byte>>, total: seq<seq<byte>>)
    requires !HasNewline(raw) && b == raw + [NEWLINE] + tail && taken + Lines(b) == total
    ensures taken + [raw] + Lines(tail) == total && Rest(b) == Rest(tail)
  {
    FirstLine(raw, tail);
    assert taken + ([raw] + Lines(tail)) == taken + [raw] + Lines(tail);
  }
}
