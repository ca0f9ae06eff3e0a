/** What a token has to be for the check to accept it, and for each of its refusals. */
module Tokens {
  import opened Basics
  import opened Signing

  predicate Plain(s: string) { '.' !in s }

  /** A payload, the last dot, and a signature. */
  predicate Halved(token: string, payload: string, mac: string) { token == payload + "." + mac && Plain(mac) }

  predicate Signed(t: Tools, token: string, payload: string, mac: string) {
    Halved(token, payload, mac) && mac == t.sign(payload)
  }

  /** Nothing, or a dot and more. */
  function Tail(more: Option<string>): string { if more.None? then "" else "." + more.value }

  /** The parts of a token. What comes behind the nonce is not looked at. */
  datatype Reading = Reading(payload: string, mac: string, client: string, ts: string, nonce: string,
                             more: Option<string>)

  predicate Reads(t: Tools, token: string, x: Reading) {
    && Signed(t, token, x.payload, x.mac)
    && t.decode(x.payload) == Some(x.client + "." + x.ts + "." + x.nonce + Tail(x.more))
    && Plain(x.client) && Plain(x.ts) && Plain(x.nonce) && t.parseInt(x.ts).Some?
  }

  /** Dated at most 300 seconds ago or ahead. */
  predicate Timely(t: Tools, x: Reading, now: int)
    requires t.parseInt(x.ts).Some?
  {
    now - 300 <= t.parseInt(x.ts).value <= now + 300
  }

  /** Accepted less than 600 seconds ago. */
  predicate Used(table: map<string, int>, nonce: string, now: int) { nonce in table && now < table[nonce] + 600 }

  // ---------------------------------------------------------------- cutting at dots

  lemma {:induction false} CutLast(payload: string, mac: string)
    requires Plain(mac)
    ensures SplitLast(payload + "." + mac) == Some((payload, mac))
  {
    var s := payload + "." + mac;
    if mac == "" {
      assert s[..|s| - 1] == payload;
    } else {
      assert s[..|s| - 1] == payload + "." + mac[..|mac| - 1];
      CutLast(payload, mac[..|mac| - 1]);
      assert mac[..|mac| - 1] + [mac[|mac| - 1]] == mac;
    }
  }

  lemma {:induction false} LastCutIs(s: string)
    ensures SplitLast(s).None? <==> Plain(s)
    ensures SplitLast(s).Some? ==> Halved(s, SplitLast(s).value.0, SplitLast(s).value.1)
  {
    if s != "" && s[|s| - 1] != '.' { LastCutIs(s[..|s| - 1]); }
  }

  lemma {:induction false} NoDots(s: string)
    requires Plain(s)
    ensures SplitDots(s) == [s]
  {
    if s != "" {
      NoDots(s[1..]);
      assert [s[0]] + s[1..] == s;
    }
  }

  lemma {:induction false} CutFirst(part: string, rest: string)
    requires Plain(part)
    ensures SplitDots(part + "." + rest) == [part] + SplitDots(rest)
  {
    var s := part + "." + rest;
    if part == "" {
      assert s[1..] == rest;
    } else {
      assert s[1..] == part[1..] + "." + rest;
      CutFirst(part[1..], rest);
      assert [part[0]] + part[1..] == part;
    }
  }

  /** A text with a dot is a part without one, the dot, and a rest. */
  lemma {:induction false} FirstDot(s: string) returns (part: string, rest: string)
    requires !Plain(s)
    ensures s == part + "." + rest && Plain(part)
  {
    if s[0] == '.' {
      part, rest := "", s[1..];
    } else {
      part, rest := FirstDot(s[1..]);
      part := [s[0]] + part;
    }
  }

  lemma PartThenTail(part: string, more: Option<string>)
    requires Plain(part)
    ensures SplitDots(part + Tail(more)) == [part] + if more.None? then [] else SplitDots(more.value)
  {
    if more.None? {
      NoDots(part);
      assert part + "" == part;
    } else {
      CutFirst(part, more.value);
      assert part + Tail(more) == part + "." + more.value;
    }
  }

  lemma Regroup(a: string, b: string, c: string)
    ensures a + "." + b + c == a + "." + (b + c)
  {
  }

  lemma TwoParts(a: string, b: string, more: Option<string>)
    requires Plain(a) && Plain(b)
    ensures SplitDots(a + "." + b + Tail(more)) == [a, b] + if more.None? then [] else SplitDots(more.value)
  {
    var rest := b + Tail(more);
    Regroup(a, b, Tail(more));
    PartThenTail(b, more);
    CutFirst(a, rest);
    FrontOfTwo(a, b, SplitDots(rest), if more.None? then [] else SplitDots(more.value));
  }

  lemma FrontOfTwo(a: string, b: string, rest: seq<string>, more: seq<string>)
    requires rest == [b] + more
    ensures [a] + rest == [a, b] + more
  {
  }

  // ---------------------------------------------------------------- what each answer means

  lemma SignedParses(token: string, payload: string, mac: string)
    requires Halved(token, payload, mac)
    ensures SplitLast(token) == Some((payload, mac))
  {
    CutLast(payload, mac);
  }

  lemma ReadingParses(t: Tools, token: string, x: Reading)
    requires Reads(t, token, x)
    ensures Parse(t, token) == Ok(Claim(x.client, t.parseInt(x.ts).value, x.nonce))
  {
    SignedParses(token, x.payload, x.mac);
    var text := x.client + "." + x.ts + "." + x.nonce + Tail(x.more);
    var behind := Some(x.nonce + Tail(x.more));
    assert text == x.client + "." + x.ts + Tail(behind);
    TwoParts(x.client, x.ts, behind);
    PartThenTail(x.nonce, x.more);
  }

  lemma TextReads(t: Tools, token: string, payload: string, mac: string, text: string)
    returns (client: string, ts: string, more: Option<string>)
    requires Signed(t, token, payload, mac) && t.decode(payload) == Some(text) && !Plain(text)
    ensures Plain(client) && Plain(ts) && text == client + "." + ts + Tail(more)
    ensures Parse(t, token)
            == if t.parseInt(ts).None? then Err(BadTimestamp)
               else if more.None? then Err(NoNonce)
               else Ok(Claim(client, t.parseInt(ts).value, SplitDots(more.value)[0]))
  {
    SignedParses(token, payload, mac);
    var rest;
    client, rest := FirstDot(text);
    if Plain(rest) {
      ts, more := rest, None;
      assert ts + "" == ts;
    } else {
      var behind;
      ts, behind := FirstDot(rest);
      more := Some(behind);
    }
    assert text == client + "." + ts + Tail(more);
    TwoParts(client, ts, more);
  }

  lemma NonceOf(behind: string) returns (nonce: string, more: Option<string>)
    ensures Plain(nonce) && behind == nonce + Tail(more)
  {
    if Plain(behind) {
      nonce, more := behind, None;
      assert behind + "" == behind;
    } else {
      var rest;
      nonce, rest := FirstDot(behind);
      more := Some(rest);
      assert nonce + ("." + rest) == nonce + "." + rest;
    }
  }

  lemma Assembled(client: string, ts: string, nonce: string, more: Option<string>)
    ensures client + "." + ts + Tail(Some(nonce + Tail(more))) == client + "." + ts + "." + nonce + Tail(more)
  {
    Regroup(client + "." + ts, nonce, Tail(more));
  }

  lemma ParsedIsSigned(t: Tools, token: string) returns (payload: string, mac: string, text: string)
    requires Parse(t, token).Ok?
    ensures Signed(t, token, payload, mac) && t.decode(payload) == Some(text) && !Plain(text)
  {
    LastCutIs(token);
    payload, mac := SplitLast(token).value.0, SplitLast(token).value.1;
    text := t.decode(payload).value;
    if Plain(text) { NoDots(text); }
  }

  /** A token that parses has a reading. */
  lemma ParsesHasReading(t: Tools, token: string) returns (x: Reading)
    requires Parse(t, token).Ok?
    ensures Reads(t, token, x)
  {
    var payload, mac, text := ParsedIsSigned(t, token);
    var client, ts, more := TextReads(t, token, payload, mac, text);
    var nonce, behind := NonceOf(more.value);
    Assembled(client, ts, nonce, behind);
    x := Reading(payload, mac, client, ts, nonce, behind);
  }

  /** Accepted are exactly the tokens that end in a dot and the signature of what is before it, whose
      payload decodes to client, time stamp and nonce between dots, possibly with more behind them,
      dated at most 300 seconds from now, with a nonce not accepted in the last 600 seconds. */
  lemma AcceptedIff(t: Tools, table: map<string, int>, token: string, now: int, client: string)
    ensures Verdict(t, table, token, now) == Ok(client)
       <==> exists x :: Reads(t, token, x) && x.client == client && Timely(t, x, now) && !Used(table, x.nonce, now)
  {
    if Verdict(t, table, token, now) == Ok(client) {
      var x := ParsesHasReading(t, token);
      ReadingParses(t, token, x);
    }
    if x :| Reads(t, token, x) && x.client == client && Timely(t, x, now) && !Used(table, x.nonce, now) {
      ReadingParses(t, token, x);
    }
  }

  /** A token that is in order but for its date, or for the use of its nonce. */
  lemma OutsideWindowIff(t: Tools, table: map<string, int>, token: string, now: int)
    ensures Verdict(t, table, token, now) == Err(OutsideWindow)
       <==> exists x :: Reads(t, token, x) && !Timely(t, x, now)
  {
    if Verdict(t, table, token, now) == Err(OutsideWindow) {
      ParseRefusals(t, token);
      var x := ParsesHasReading(t, token);
      ReadingParses(t, token, x);
    }
    if x :| Reads(t, token, x) && !Timely(t, x, now) { ReadingParses(t, token, x); }
  }

  lemma ParseRefusals(t: Tools, token: string)
    ensures var p := Parse(t, token); p.Err? ==> p.error != OutsideWindow && p.error != Replay
  {
  }

  lemma ReplayIff(t: Tools, table: map<string, int>, token: string, now: int)
    ensures Verdict(t, table, token, now) == Err(Replay)
       <==> exists x :: Reads(t, token, x) && Timely(t, x, now) && Used(table, x.nonce, now)
  {
    if Verdict(t, table, token, now) == Err(Replay) {
      ParseRefusals(t, token);
      var x := ParsesHasReading(t, token);
      ReadingParses(t, token, x);
    }
    if x :| Reads(t, token, x) && Timely(t, x, now) && Used(table, x.nonce, now) { ReadingParses(t, token, x); }
  }

  /** The refusals of tokens that are not in order. */
  predicate Broken(t: Tools, token: string, e: Refusal, payload: string, mac: string, client: string, ts: string,
                   more: Option<string>)
  {
    match e
    case InvalidFormat => Plain(token)
    case InvalidSignature => Halved(token, payload, mac) && mac != t.sign(payload)
    case BadEncoding => Signed(t, token, payload, mac) && t.decode(payload).None?
    case NoTimestamp => Signed(t, token, payload, mac) && t.decode(payload) == Some(client) && Plain(client)
    case BadTimestamp =>
      && Signed(t, token, payload, mac) && t.decode(payload) == Some(client + "." + ts + Tail(more))
      && Plain(client) && Plain(ts) && t.parseInt(ts).None?
    case NoNonce =>
      && Signed(t, token, payload, mac) && t.decode(payload) == Some(client + "." + ts)
      && Plain(client) && Plain(ts) && t.parseInt(ts).Some?
    case _ => false
  }

  lemma BrokenIsRefused(t: Tools, token: string, e: Refusal, payload: string, mac: string, client: string, ts: string,
                        more: Option<string>)
    requires Broken(t, token, e, payload, mac, client, ts, more)
    ensures Parse(t, token) == Err(e)
  {
    if e == InvalidFormat {
      LastCutIs(token);
    } else {
      SignedParses(token, payload, mac);
      if e == NoTimestamp { NoDots(client); }
      if e == BadTimestamp { TwoParts(client, ts, more); }
      if e == NoNonce {
        assert client + "." + ts + Tail(None) == client + "." + ts;
        TwoParts(client, ts, None);
      }
    }
  }

  lemma RefusedIsBroken(t: Tools, token: string)
    returns (payload: string, mac: string, client: string, ts: string, more: Option<string>)
    requires Parse(t, token).Err?
    ensures Broken(t, token, Parse(t, token).error, payload, mac, client, ts, more)
  {
    payload, mac, client, ts, more := "", "", "", "", None;
    LastCutIs(token);
    if SplitLast(token).Some? {
      payload, mac := SplitLast(token).value.0, SplitLast(token).value.1;
      if mac == t.sign(payload) && t.decode(payload).Some? {
        var text := t.decode(payload).value;
        if Plain(text) {
          NoDots(text);
          client := text;
        } else {
          client, ts, more := TextReads(t, token, payload, mac, text);
          assert more.None? ==> client + "." + ts + Tail(more) == client + "." + ts;
        }
      }
    }
  }

  /** Which refusal each violation gives, and that each refusal means its violation: no dot, a wrong
      signature, a payload that does not decode, and in it no second part, an unreadable second part,
      or no third part; in this order. */
  lemma RefusedIff(t: Tools, table: map<string, int>, token: string, now: int, e: Refusal)
    requires e != OutsideWindow && e != Replay
    ensures Verdict(t, table, token, now) == Err(e)
       <==> exists payload, mac, client, ts, more :: Broken(t, token, e, payload, mac, client, ts, more)
  {
    if Verdict(t, table, token, now) == Err(e) {
      var payload, mac, client, ts, more := RefusedIsBroken(t, token);
    }
    if payload, mac, client, ts, more :| Broken(t, token, e, payload, mac, client, ts, more) {
      BrokenIsRefused(t, token, e, payload, mac, client, ts, more);
    }
  }
}
