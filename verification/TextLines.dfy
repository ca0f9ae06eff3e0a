/** Texts as lines joined by newlines. */
module TextLines {
  function Join(lines: seq<string>): string {
    if lines == [] then ""
    else if |lines| == 1 then lines[0] else Join(lines[..|lines| - 1]) + "\n" + lines[|lines| - 1]
  }

  /** Text cut at its newlines. */
  function CutAtNewlines(s: string): (r: seq<string>)
    ensures r != []
  {
    if s == "" then [""]
    else
      var r, c := CutAtNewlines(s[..|s| - 1]), s[|s| - 1];
      if c == '\n' then r + [""] else r[|r| - 1 := r[|r| - 1] + [c]]
  }

  lemma {:induction false} CutBehind(a: string, b: string)
    requires '\n' !in b
    ensures CutAtNewlines(a + "\n" + b) == CutAtNewlines(a) + [b]
  {
    var s := a + "\n" + b;
    if b == "" {
      assert s[..|s| - 1] == a;
    } else {
      var front := b[..|b| - 1];
      assert s[..|s| - 1] == a + "\n" + front;
      CutBehind(a, front);
      assert front + [b[|b| - 1]] == b;
    }
  }

  lemma {:induction false} CutPlain(s: string)
    requires '\n' !in s
    ensures CutAtNewlines(s) == [s]
  {
    if s != "" {
      CutPlain(s[..|s| - 1]);
      assert s[..|s| - 1] + [s[|s| - 1]] == s;
    }
  }

  /** Cutting joined lines gives them back. */
  lemma {:induction false} JoinedComeBack(lines: seq<string>)
    requires lines != [] && forall i | 0 <= i < |lines| :: '\n' !in lines[i]
    ensures CutAtNewlines(Join(lines)) == lines
  {
    var front, last := lines[..|lines| - 1], lines[|lines| - 1];
    if front == [] {
      CutPlain(last);
    } else {
      JoinedComeBack(front);
      CutBehind(Join(front), last);
    }
    assert front + [last] == lines;
  }
}
