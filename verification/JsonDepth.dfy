/** The request guard: a byte scanner for nesting depth, measured against the JSON tree itself. */
module JsonDepth {
  import opened Basics

  const QUOTE: byte := 0x22
  const BACKSLASH: byte := 0x5C
  const OPEN_BRACE: byte := 0x7B
  const CLOSE_BRACE: byte := 0x7D
  const OPEN_BRACKET: byte := 0x5B
  const CLOSE_BRACKET: byte := 0x5D
  const COMMA: byte := 0x2C
  const COLON: byte := 0x3A

  const MAX_REQUEST_BODY_SIZE: nat := 10 * 1024 * 1024
  const MAX_JSON_DEPTH: nat := 20

  // ---------------------------------------------------------------- values and their texts

  /** One element of a string: a byte other than quote and backslash, or a backslash and any byte
      (`\u` is followed by plain digits). */
  datatype Char = Plain(b: byte) | Escape(b: byte)

  /** A value with the insignificant white space around it (RFC 8259, section 2). A scalar is a
      number, `true`, `false` or `null`. */
  datatype Json = Json(before: seq<byte>, node: Node, after: seq<byte>)
  datatype Node =
    | Scalar(text: seq<byte>)
    | Str(chars: seq<Char>)
    | Arr(inner: seq<byte>, items: Items)
    | Obj(inner: seq<byte>, members: Members)
  datatype Items = NoItems | Item(head: Json, tail: Items)
  datatype Members =
    | NoMembers | Member(beforeKey: seq<byte>, key: seq<Char>, afterKey: seq<byte>, value: Json, rest: Members)

  predicate IsWhitespace(s: seq<byte>) { forall i | 0 <= i < |s| :: s[i] in {0x20, 0x09, 0x0A, 0x0D} }

  /** No byte of a number or a literal name is structural or a quote. */
  predicate IsScalar(s: seq<byte>) {
    forall i | 0 <= i < |s| :: s[i] !in {QUOTE, OPEN_BRACE, CLOSE_BRACE, OPEN_BRACKET, CLOSE_BRACKET}
  }

  predicate AreChars(chars: seq<Char>) { forall c | c in chars :: c.Plain? ==> c.b != QUOTE && c.b != BACKSLASH }

  predicate WellFormed(v: Json) { IsWhitespace(v.before) && IsWhitespace(v.after) && NodeWellFormed(v.node) }

  predicate NodeWellFormed(n: Node) {
    match n
    case Scalar(text) => IsScalar(text)
    case Str(chars) => AreChars(chars)
    case Arr(inner, items) => IsWhitespace(inner) && ItemsWellFormed(items)
    case Obj(inner, members) => IsWhitespace(inner) && MembersWellFormed(members)
  }

  predicate ItemsWellFormed(items: Items) {
    items.Item? ==> WellFormed(items.head) && ItemsWellFormed(items.tail)
  }

  predicate MembersWellFormed(ms: Members) {
    ms.Member? ==>
      && IsWhitespace(ms.beforeKey) && AreChars(ms.key) && IsWhitespace(ms.afterKey)
      && WellFormed(ms.value) && MembersWellFormed(ms.rest)
  }

  function PrintChars(chars: seq<Char>): seq<byte> {
    if chars == [] then []
    else (if chars[0].Plain? then [chars[0].b] else [BACKSLASH, chars[0].b]) + PrintChars(chars[1..])
  }

  function PrintString(chars: seq<Char>): seq<byte> { [QUOTE] + PrintChars(chars) + [QUOTE] }

  /** The text of a value (RFC 8259, sections 4, 5 and 7). */
  function Print(v: Json): seq<byte> { v.before + PrintNode(v.node) + v.after }

  function PrintNode(n: Node): seq<byte> {
    match n
    case Scalar(text) => text
    case Str(chars) => PrintString(chars)
    case Arr(inner, items) => [OPEN_BRACKET] + inner + PrintItems(items) + [CLOSE_BRACKET]
    case Obj(inner, members) => [OPEN_BRACE] + inner + PrintMembers(members) + [CLOSE_BRACE]
  }

  function PrintItems(items: Items): seq<byte> {
    match items
    case NoItems => []
    case Item(head, tail) => Print(head) + (if tail.NoItems? then [] else [COMMA]) + PrintItems(tail)
  }

  function PrintMembers(ms: Members): seq<byte> {
    match ms
    case NoMembers => []
    case Member(beforeKey, key, afterKey, value, rest) =>
      beforeKey + PrintString(key) + afterKey + [COLON] + Print(value) + (if rest.NoMembers? then [] else [COMMA])
        + PrintMembers(rest)
  }

  /** Arrays and objects that enclose one another. */
  function Depth(n: Node): nat {
    match n
    case Scalar(_) => 0
    case Str(_) => 0
    case Arr(_, items) => 1 + ItemsDepth(items)
    case Obj(_, members) => 1 + MembersDepth(members)
  }

  function ItemsDepth(items: Items): nat {
    if items.NoItems? then 0 else MaxNat(Depth(items.head.node), ItemsDepth(items.tail))
  }

  function MembersDepth(ms: Members): nat {
    if ms.NoMembers? then 0 else MaxNat(Depth(ms.value.node), MembersDepth(ms.rest))
  }

  // ---------------------------------------------------------------- the scanner

  datatype Scan = Scan(depth: nat, max: nat, inString: bool, escaped: bool)

  function Step(s: Scan, c: byte): Scan {
    if s.inString then
      if s.escaped then s.(escaped := false)
      else if c == BACKSLASH then s.(escaped := true)
      else if c == QUOTE then s.(inString := false)
      else s
    else if c == QUOTE then s.(inString := true)
    else if c == OPEN_BRACE || c == OPEN_BRACKET then s.(depth := s.depth + 1, max := MaxNat(s.max, s.depth + 1))
    else if c == CLOSE_BRACE || c == CLOSE_BRACKET then s.(depth := if s.depth > 0 then s.depth - 1 else 0)
    else s
  }

  function Scanned(s: Scan, body: seq<byte>): Scan
    decreases body
  {
    if body == [] then s else Scanned(Step(s, body[0]), body[1..])
  }

  const Start: Scan := Scan(0, 0, false, false)

  method MaxJsonDepth(body: seq<byte>) returns (max: nat)
    ensures max == Scanned(Start, body).max
  {
    var depth := 0;
    max := 0;
    var inString, escaped := false, false;
    for i := 0 to |body|
      invariant depth >= 0
      invariant Scanned(Scan(depth, max, inString, escaped), body[i..]) == Scanned(Start, body)
    {
      var c := body[i];
      assert body[i..][1..] == body[i + 1..];
      if inString {
        if escaped {
          escaped := false;
        } else if c == BACKSLASH {
          escaped := true;
        } else if c == QUOTE {
          inString := false;
        }
        continue;
      }
      if c == QUOTE {
        inString := true;
      } else if c == OPEN_BRACE || c == OPEN_BRACKET {
        depth := depth + 1;
        if depth > max {
          max := depth;
        }
      } else if c == CLOSE_BRACE || c == CLOSE_BRACKET {
        if depth > 0 {
          depth := depth - 1;
        }
      }
    }
  }

  datatype Rejection = BodyTooLarge | NestingTooDeep

  function Verdict(body: seq<byte>): Result<(), Rejection> {
    if |body| > MAX_REQUEST_BODY_SIZE then Err(BodyTooLarge)
    else if Scanned(Start, body).max > MAX_JSON_DEPTH then Err(NestingTooDeep)
    else Ok(())
  }

  method ValidateRequestSafety(body: seq<byte>) returns (r: Result<(), Rejection>)
    ensures r == Verdict(body)
  {
    if |body| > MAX_REQUEST_BODY_SIZE {
      return Err(BodyTooLarge);
    }
    var depth := MaxJsonDepth(body);
    if depth > MAX_JSON_DEPTH {
      return Err(NestingTooDeep);
    }
    r := Ok(());
  }

  // ---------------------------------------------------------------- scanning texts

  lemma {:induction false} ScanConcat(s: Scan, a: seq<byte>, b: seq<byte>)
    ensures Scanned(s, a + b) == Scanned(Scanned(s, a), b)
    decreases a
  {
    if a == [] {
      assert a + b == b;
    } else {
      assert (a + b)[1..] == a[1..] + b;
      ScanConcat(Step(s, a[0]), a[1..], b);
    }
  }

  lemma ScanByte(s: Scan, c: byte)
    ensures Scanned(s, [c]) == Step(s, c)
  {
    assert Scanned(Step(s, c), []) == Step(s, c);
  }

  /** Bytes outside strings that are neither structural nor a quote change nothing. */
  lemma {:induction false} ScanInert(s: Scan, text: seq<byte>)
    requires !s.inString && IsScalar(text)
    ensures Scanned(s, text) == s
    decreases text
  {
    if text != [] {
      assert Step(s, text[0]) == s;
      ScanInert(s, text[1..]);
    }
  }

  lemma WhitespaceIsInert(text: seq<byte>)
    requires IsWhitespace(text)
    ensures IsScalar(text)
  {
  }

  /** Whatever a string holds, the scanner comes out of it as it went in. */
  lemma {:induction false} ScanChars(s: Scan, chars: seq<Char>)
    requires s.inString && !s.escaped && AreChars(chars)
    ensures Scanned(s, PrintChars(chars)) == s
  {
    if chars != [] {
      var c := chars[0];
      var head := if c.Plain? then [c.b] else [BACKSLASH, c.b];
      assert Scanned(s, head) == s by {
        if c.Plain? { ScanByte(s, c.b); }
        else {
          assert head == [BACKSLASH] + [c.b];
          ScanConcat(s, [BACKSLASH], [c.b]);
          ScanByte(s, BACKSLASH);
          ScanByte(Step(s, BACKSLASH), c.b);
        }
      }
      ScanConcat(s, head, PrintChars(chars[1..]));
      ScanChars(s, chars[1..]);
    }
  }

  lemma ScanString(s: Scan, chars: seq<Char>)
    requires !s.inString && !s.escaped && AreChars(chars)
    ensures Scanned(s, PrintString(chars)) == s
  {
    var inside := s.(inString := true);
    ScanByte(s, QUOTE);
    ScanConcat(s, [QUOTE] + PrintChars(chars), [QUOTE]);
    ScanConcat(s, [QUOTE], PrintChars(chars));
    ScanChars(inside, chars);
    ScanByte(inside, QUOTE);
  }

  /** A value leaves the depth as it was and raises the maximum to its own depth below it. */
  function Raised(s: Scan, d: nat): Scan { s.(max := MaxNat(s.max, s.depth + d)) }

  ghost predicate Outside(s: Scan) { !s.inString && !s.escaped && s.depth <= s.max }

  lemma {:induction false} ScanValue(s: Scan, v: Json)
    requires Outside(s) && WellFormed(v)
    ensures Scanned(s, Print(v)) == Raised(s, Depth(v.node))
    decreases v, 1
  {
    WhitespaceIsInert(v.before);
    WhitespaceIsInert(v.after);
    ScanConcat(s, v.before + PrintNode(v.node), v.after);
    ScanConcat(s, v.before, PrintNode(v.node));
    ScanInert(s, v.before);
    ScanNode(s, v.node);
    ScanInert(Raised(s, Depth(v.node)), v.after);
  }

  lemma {:induction false} ScanNode(s: Scan, n: Node)
    requires Outside(s) && NodeWellFormed(n)
    ensures Scanned(s, PrintNode(n)) == Raised(s, Depth(n))
    decreases n, 0
  {
    match n
    case Scalar(text) => ScanInert(s, text);
    case Str(chars) => ScanString(s, chars);
    case Arr(inner, items) =>
      var deeper := Step(s, OPEN_BRACKET);
      ScanItems(deeper, items);
      ScanEnclosed(s, OPEN_BRACKET, inner, PrintItems(items), CLOSE_BRACKET, ItemsDepth(items));
    case Obj(inner, members) =>
      var deeper := Step(s, OPEN_BRACE);
      ScanMembers(deeper, members);
      ScanEnclosed(s, OPEN_BRACE, inner, PrintMembers(members), CLOSE_BRACE, MembersDepth(members));
  }

  lemma ScanEnclosed(s: Scan, open: byte, inner: seq<byte>, content: seq<byte>, close: byte, d: nat)
    requires Outside(s) && IsWhitespace(inner)
    requires (open == OPEN_BRACKET && close == CLOSE_BRACKET) || (open == OPEN_BRACE && close == CLOSE_BRACE)
    requires Scanned(Step(s, open), content) == Raised(Step(s, open), d)
    ensures Scanned(s, [open] + inner + content + [close]) == Raised(s, 1 + d)
  {
    WhitespaceIsInert(inner);
    ScanConcat(s, [open] + inner + content, [close]);
    ScanConcat(s, [open] + inner, content);
    ScanConcat(s, [open], inner);
    ScanByte(s, open);
    ScanInert(Step(s, open), inner);
    ScanByte(Raised(Step(s, open), d), close);
  }

  lemma ScanSeparator(s: Scan, last: bool)
    requires Outside(s)
    ensures Scanned(s, if last then [] else [COMMA]) == s
  {
    ScanByte(s, COMMA);
  }

  lemma {:induction false} ScanItems(s: Scan, items: Items)
    requires Outside(s) && ItemsWellFormed(items)
    ensures Scanned(s, PrintItems(items)) == Raised(s, ItemsDepth(items))
    decreases items
  {
    match items
    case NoItems =>
    case Item(head, tail) =>
      var separator := if tail.NoItems? then [] else [COMMA];
      var s' := Raised(s, Depth(head.node));
      ScanConcat(s, Print(head) + separator, PrintItems(tail));
      ScanConcat(s, Print(head), separator);
      ScanValue(s, head);
      ScanSeparator(s', tail.NoItems?);
      ScanItems(s', tail);
  }

  lemma {:induction false} ScanMembers(s: Scan, ms: Members)
    requires Outside(s) && MembersWellFormed(ms)
    ensures Scanned(s, PrintMembers(ms)) == Raised(s, MembersDepth(ms))
    decreases ms
  {
    match ms
    case NoMembers =>
    case Member(beforeKey, key, afterKey, value, rest) =>
      var separator := if rest.NoMembers? then [] else [COMMA];
      var name := beforeKey + PrintString(key) + afterKey + [COLON];
      var s' := Raised(s, Depth(value.node));
      ScanConcat(s, name + Print(value) + separator, PrintMembers(rest));
      ScanConcat(s, name + Print(value), separator);
      ScanConcat(s, name, Print(value));
      ScanName(s, beforeKey, key, afterKey);
      ScanValue(s, value);
      ScanSeparator(s', rest.NoMembers?);
      ScanMembers(s', rest);
  }

  lemma ScanName(s: Scan, beforeKey: seq<byte>, key: seq<Char>, afterKey: seq<byte>)
    requires Outside(s) && IsWhitespace(beforeKey) && AreChars(key) && IsWhitespace(afterKey)
    ensures Scanned(s, beforeKey + PrintString(key) + afterKey + [COLON]) == s
  {
    WhitespaceIsInert(beforeKey);
    WhitespaceIsInert(afterKey);
    ScanConcat(s, beforeKey + PrintString(key) + afterKey, [COLON]);
    ScanConcat(s, beforeKey + PrintString(key), afterKey);
    ScanConcat(s, beforeKey, PrintString(key));
    ScanInert(s, beforeKey);
    ScanString(s, key);
    ScanInert(s, afterKey);
    ScanByte(s, COLON);
  }

  /** On the text of any JSON value, the scanner finds the nesting depth of the value. */
  lemma ScannerFindsDepth(v: Json)
    requires WellFormed(v)
    ensures Scanned(Start, Print(v)).max == Depth(v.node)
  {
    ScanValue(Start, v);
  }

  /** The guard lets the text of a JSON value pass exactly if it is no longer than 10 MiB and the
      value no deeper than 20; the size is judged first. */
  lemma GuardJudgesTree(v: Json)
    requires WellFormed(v)
    ensures Verdict(Print(v)).Ok? <==> |Print(v)| <= 10_485_760 && Depth(v.node) <= 20
    ensures Verdict(Print(v)) == Err(BodyTooLarge) <==> |Print(v)| > 10_485_760
  {
    ScannerFindsDepth(v);
  }

  // ---------------------------------------------------------------- texts that are no JSON

  /** A bracket outside strings, as a step up or down. */
  ghost function StepUp(body: seq<byte>, k: nat): int
    requires k < |body|
  {
    if Scanned(Start, body[..k]).inString then 0
    else if body[k] in {0x5B, 0x7B} then 1
    else if body[k] in {0x5D, 0x7D} then -1
    else 0
  }

  /** Opening less closing brackets outside strings, from byte `i` to before byte `j`. */
  ghost function Rise(body: seq<byte>, i: nat, j: nat): int
    requires i <= j <= |body|
    decreases j
  {
    if i == j then 0 else Rise(body, i, j - 1) + StepUp(body, j - 1)
  }

  /** No stretch that ends at `n` rises by more, and the one from `from` rises by so much. */
  ghost predicate LargestTo(body: seq<byte>, n: nat, rise: int, from: nat)
    requires n <= |body|
  {
    from <= n && Rise(body, from, n) == rise && forall i | 0 <= i <= n :: Rise(body, i, n) <= rise
  }

  ghost predicate LargestIn(body: seq<byte>, n: nat, rise: int, from: nat, to: nat)
    requires n <= |body|
  {
    from <= to <= n && Rise(body, from, to) == rise && forall i, j | 0 <= i <= j <= n :: Rise(body, i, j) <= rise
  }

  lemma ScanOneMore(body: seq<byte>, n: nat)
    requires n < |body|
    ensures Scanned(Start, body[..n + 1]) == Step(Scanned(Start, body[..n]), body[n])
  {
    assert body[..n + 1] == body[..n] + [body[n]];
    ScanConcat(Start, body[..n], [body[n]]);
    ScanByte(Scanned(Start, body[..n]), body[n]);
  }

  lemma {:induction false} DepthIsLargestRise(body: seq<byte>, n: nat) returns (from: nat)
    requires n <= |body|
    ensures LargestTo(body, n, Scanned(Start, body[..n]).depth, from)
  {
    if n == 0 {
      from := 0;
    } else {
      from := DepthIsLargestRise(body, n - 1);
      ScanOneMore(body, n - 1);
      var before := Scanned(Start, body[..n - 1]).depth;
      forall i | 0 <= i < n ensures Rise(body, i, n) <= before + StepUp(body, n - 1) {
        assert Rise(body, i, n - 1) <= before;
      }
      if before + StepUp(body, n - 1) < 0 { from := n; }
    }
  }

  /** On any bytes at all, the scanner finds the largest rise of any stretch: brackets that close
      nothing count for nothing. */
  lemma {:induction false} ScannerFindsLargestRise(body: seq<byte>, n: nat) returns (from: nat, to: nat)
    requires n <= |body|
    ensures LargestIn(body, n, Scanned(Start, body[..n]).max, from, to)
  {
    if n == 0 {
      from, to := 0, 0;
    } else {
      from, to := ScannerFindsLargestRise(body, n - 1);
      var start := DepthIsLargestRise(body, n);
      ScanOneMore(body, n - 1);
      MaxGrows(Scanned(Start, body[..n - 1]), body[n - 1]);
      if Scanned(Start, body[..n]).max > Scanned(Start, body[..n - 1]).max { from, to := start, n; }
      DepthBelowMax(body, n);
      forall i, j | 0 <= i <= j <= n ensures Rise(body, i, j) <= Scanned(Start, body[..n]).max {
        if j < n { assert Rise(body, i, j) <= Scanned(Start, body[..n - 1]).max; }
      }
    }
  }

  lemma MaxGrows(s: Scan, c: byte)
    ensures s.max <= Step(s, c).max && (Step(s, c).max > s.max ==> Step(s, c).max == Step(s, c).depth)
  {
  }

  lemma {:induction false} DepthBelowMax(body: seq<byte>, n: nat)
    requires n <= |body|
    ensures Scanned(Start, body[..n]).depth <= Scanned(Start, body[..n]).max
  {
    if n > 0 {
      DepthBelowMax(body, n - 1);
      ScanOneMore(body, n - 1);
    }
  }
}
