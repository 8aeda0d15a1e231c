/** safeWebAuthn.ts: splitting clientDataJSON around its challenge. */
module ClientData {
  import opened Wrappers
  import opened Bytes
  import opened Base64Url

  const PREFIX: seq<char> := "{\"type\":\"webauthn.get\",\"challenge\":\""

  /** The characters a dot does not match in a regular expression of the source language. */
  predicate LineTerminator(c: char) {
    c == '\n' || c == '\r' || c == '\U{2028}' || c == '\U{2029}'
  }

  predicate OneLine(s: seq<char>) {
    forall i :: 0 <= i < |s| ==> !LineTerminator(s[i])
  }

  predicate AllB64url(s: seq<char>) {
    forall i :: 0 <= i < |s| ==> IsB64urlChar(s[i])
  }

  // ---- The pattern, read as a relation ----

  /** What the on-chain verifier concatenates. */
  function Rebuild(challenge: seq<char>, fields: seq<char>): seq<char> {
    PREFIX + challenge + "\"," + fields + "}"
  }

  ghost predicate Matches(text: seq<char>, challenge: seq<char>, fields: seq<char>) {
    challenge != [] && AllB64url(challenge) && OneLine(fields) && text == Rebuild(challenge, fields)
  }

  // ---- The match, computed ----

  function Span(s: seq<char>): (n: nat)
    ensures n <= |s|
  {
    if s == [] || !IsB64urlChar(s[0]) then 0 else 1 + Span(s[1..])
  }

  function ExtractClientDataFields(text: seq<char>): Option<seq<char>> {
    if !(PREFIX <= text) then None
    else
      var n := Span(text[|PREFIX|..]);
      var rest := text[|PREFIX| + n..];
      if n == 0 || |rest| < 3 || rest[0] != '"' || rest[1] != ',' || rest[|rest| - 1] != '}' then None
      else if OneLine(rest[2..|rest| - 1]) then Some(rest[2..|rest| - 1])
      else None
  }

  lemma {:induction false} SpanIsMaximal(s: seq<char>)
    ensures AllB64url(s[..Span(s)])
    ensures Span(s) < |s| ==> !IsB64urlChar(s[Span(s)])
  {
    if s != [] && IsB64urlChar(s[0]) {
      SpanIsMaximal(s[1..]);
      assert forall i :: 1 <= i < Span(s) ==> s[..Span(s)][i] == s[1..][..Span(s[1..])][i - 1];
    }
  }

  lemma {:induction false} SpanStops(run: seq<char>, after: seq<char>)
    requires AllB64url(run)
    requires after != [] && !IsB64urlChar(after[0])
    ensures Span(run + after) == |run|
  {
    if run == [] {
      assert run + after == after;
    } else {
      assert (run + after)[1..] == run[1..] + after;
      SpanStops(run[1..], after);
    }
  }

  lemma MatchIsExtracted(text: seq<char>, challenge: seq<char>, fields: seq<char>)
    requires Matches(text, challenge, fields)
    ensures ExtractClientDataFields(text) == Some(fields)
  {
    var after := "\"," + fields + "}";
    assert text == PREFIX + (challenge + after);
    assert text[|PREFIX|..] == challenge + after;
    SpanStops(challenge, after);
    assert text[|PREFIX| + |challenge|..] == after;
    assert after[2..|after| - 1] == fields;
  }

  lemma Reassemble<T>(text: seq<T>, prefix: seq<T>, n: nat, mark: seq<T>, end: seq<T>)
    requires prefix <= text && |prefix| + n + 3 <= |text| && |mark| == 2 && |end| == 1
    requires text[|prefix| + n..][..2] == mark && text[|text| - 1..] == end
    ensures text == prefix + text[|prefix|..][..n] + mark + text[|prefix| + n..][2..|text| - |prefix| - n - 1] + end
  {
    var s := text[|prefix|..];
    var rest := s[n..];
    assert rest == text[|prefix| + n..];
    assert text == prefix + s && s == s[..n] + rest;
    assert rest == mark + rest[2..|rest| - 1] + end;
  }

  lemma ExtractedMatches(text: seq<char>)
    requires ExtractClientDataFields(text).Some?
    ensures Matches(text, text[|PREFIX|..][..Span(text[|PREFIX|..])], ExtractClientDataFields(text).value)
  {
    var n := Span(text[|PREFIX|..]);
    SpanIsMaximal(text[|PREFIX|..]);
    var rest := text[|PREFIX| + n..];
    assert rest[..2] == "\"," && text[|text| - 1..] == "}";
    Reassemble(text, PREFIX, n, "\",", "}");
  }

  ghost predicate Splits(text: seq<char>, fields: seq<char>) {
    exists challenge :: Matches(text, challenge, fields)
  }

  /** The extraction succeeds with exactly the fields the pattern admits. */
  lemma ExtractIffMatches(text: seq<char>, fields: seq<char>)
    ensures ExtractClientDataFields(text) == Some(fields) <==> Splits(text, fields)
  {
    if Splits(text, fields) {
      var challenge :| Matches(text, challenge, fields);
      MatchIsExtracted(text, challenge, fields);
    }
    if ExtractClientDataFields(text) == Some(fields) {
      ExtractedMatches(text);
    }
  }

  // ---- What an authenticator emits: section 5.8.1.1 of Web Authentication Level 2 ----

  function HexDigit(d: nat): char
    requires d < 16
  {
    "0123456789abcdef"[d]
  }

  function EscapeChar(c: char): seq<char> {
    var n := c as int;
    if c == '"' then "\\\""
    else if c == '\\' then "\\\\"
    else if n >= 0x20 then [c]
    else "\\u00" + [HexDigit(n / 16), HexDigit(n % 16)]
  }

  function Escape(s: seq<char>): seq<char> {
    if s == [] then [] else EscapeChar(s[0]) + Escape(s[1..])
  }

  function CcdToString(s: seq<char>): seq<char> {
    "\"" + Escape(s) + "\""
  }

  /** The fields after the challenge; more holds the remaining members, if any, with the
      comma before them. */
  function TrailingFields(origin: seq<char>, crossOrigin: bool, more: seq<char>): seq<char> {
    "\"origin\":" + CcdToString(origin) + ",\"crossOrigin\":" + (if crossOrigin then "true" else "false") + more
  }

  function Serialize(hash: seq<Byte>, origin: seq<char>, crossOrigin: bool, more: seq<char>): seq<char> {
    "{\"type\":" + CcdToString("webauthn.get") + ",\"challenge\":" + CcdToString(BufToB64url(hash))
    + "," + TrailingFields(origin, crossOrigin, more) + "}"
  }

  lemma {:induction false} EscapeNothing(s: seq<char>)
    requires forall i :: 0 <= i < |s| ==> s[i] as int >= 0x20 && s[i] != '"' && s[i] != '\\'
    ensures Escape(s) == s
  {
    if s != [] {
      EscapeNothing(s[1..]);
      assert s == [s[0]] + s[1..];
    }
  }

  // ---- A string as section 7 of RFC 8259 reads it, its short escapes for controls left out ----

  /** -1 for a character that is no hexadecimal digit. */
  function DigitValue(c: char): int {
    if '0' <= c <= '9' then c as int - '0' as int
    else if 'a' <= c <= 'f' then c as int - 'a' as int + 10
    else if 'A' <= c <= 'F' then c as int - 'A' as int + 10
    else -1
  }

  /** The four digits after a backslash and the letter u, below the surrogates. */
  function CodePoint(t: seq<char>): Option<char>
    requires |t| >= 6
  {
    var a, b, c, d := DigitValue(t[2]), DigitValue(t[3]), DigitValue(t[4]), DigitValue(t[5]);
    var n := a * 4096 + b * 256 + c * 16 + d;
    if a < 0 || b < 0 || c < 0 || d < 0 || n >= 0xD800 then None else Some(n as char)
  }

  /** The first character of a string's text and how far it reaches. */
  function ReadChar(t: seq<char>): (r: Option<(char, nat)>)
    requires t != []
    ensures r.Some? ==> 1 <= r.value.1 <= |t|
  {
    if t[0] == '"' || t[0] as int < 0x20 then None
    else if t[0] != '\\' then Some((t[0], 1))
    else if |t| >= 2 && t[1] in ['"', '\\', '/'] then Some((t[1], 2))
    else if |t| >= 6 && t[1] == 'u' && CodePoint(t).Some? then Some((CodePoint(t).value, 6))
    else None
  }

  function Unescape(t: seq<char>): Option<seq<char>> {
    if t == [] then Some([])
    else
      var first := ReadChar(t);
      if first.None? then None
      else
        var rest := Unescape(t[first.value.1..]);
        if rest.None? then None else Some([first.value.0] + rest.value)
  }

  lemma EscapedCharRead(c: char, after: seq<char>)
    ensures ReadChar(EscapeChar(c) + after) == Some((c, |EscapeChar(c)|))
  {
    var t, n := EscapeChar(c) + after, c as int;
    if n < 0x20 {
      assert t[..6] == EscapeChar(c);
      assert DigitValue(HexDigit(n / 16)) == n / 16 && DigitValue(HexDigit(n % 16)) == n % 16 by {
        DigitIs(n / 16);
        DigitIs(n % 16);
      }
      assert CodePoint(t) == Some(c);
    } else if c == '"' || c == '\\' {
      assert t[..2] == EscapeChar(c);
    } else {
      assert t[0] == c;
    }
  }

  lemma DigitIs(d: nat)
    requires d < 16
    ensures DigitValue(HexDigit(d)) == d
  {
  }

  /** A text survives its escaping as a string. */
  lemma {:induction false} EscapeRoundTrip(s: seq<char>)
    ensures Unescape(Escape(s)) == Some(s)
  {
    if s != [] {
      var after := Escape(s[1..]);
      EscapedCharRead(s[0], after);
      EscapeRoundTrip(s[1..]);
      assert Escape(s)[|EscapeChar(s[0])|..] == after;
      assert s == [s[0]] + s[1..];
    }
  }

  predicate NoSeparator(s: seq<char>) {
    forall i :: 0 <= i < |s| ==> s[i] != '\U{2028}' && s[i] != '\U{2029}'
  }

  lemma OneLineAppend(a: seq<char>, b: seq<char>)
    ensures OneLine(a + b) <==> OneLine(a) && OneLine(b)
  {
    if OneLine(a + b) {
      assert forall i :: 0 <= i < |a| ==> a[i] == (a + b)[i];
      assert forall i :: 0 <= i < |b| ==> b[i] == (a + b)[|a| + i];
    }
  }

  /** Escaping removes every line break but the two Unicode separators, which it keeps. */
  lemma {:induction false} EscapedOneLine(s: seq<char>)
    ensures OneLine(Escape(s)) <==> NoSeparator(s)
  {
    if s != [] {
      EscapedOneLine(s[1..]);
      OneLineAppend(EscapeChar(s[0]), Escape(s[1..]));
      assert OneLine(EscapeChar(s[0])) <==> NoSeparator([s[0]]) by { EscapedCharOneLine(s[0]); }
      assert s == [s[0]] + s[1..];
      if NoSeparator(s) {
        assert [s[0]][0] == s[0];
        assert forall i :: 0 <= i < |s[1..]| ==> s[1..][i] == s[i + 1];
      }
    }
  }

  lemma EscapedCharOneLine(c: char)
    ensures OneLine(EscapeChar(c)) <==> NoSeparator([c])
  {
    var e := EscapeChar(c);
    assert [c][0] == c;
    if c as int >= 0x20 && c != '"' && c != '\\' {
      assert e[0] == c;
    } else if c as int < 0x20 {
      assert forall i :: 0 <= i < |e| ==> e[i] as int >= 0x20 && e[i] as int < 0x80;
    } else {
      assert forall i :: 0 <= i < |e| ==> e[i] == '\\' || e[i] == '"';
    }
  }

  lemma FiveOneLine(a: seq<char>, b: seq<char>, c: seq<char>, d: seq<char>, e: seq<char>)
    ensures OneLine(a + b + c + d + e) <==> OneLine(a) && OneLine(b) && OneLine(c) && OneLine(d) && OneLine(e)
  {
    OneLineAppend(a, b);
    OneLineAppend(a + b, c);
    OneLineAppend(a + b + c, d);
    OneLineAppend(a + b + c + d, e);
  }

  lemma TrailingOneLine(origin: seq<char>, crossOrigin: bool, more: seq<char>)
    ensures OneLine(TrailingFields(origin, crossOrigin, more)) <==> NoSeparator(origin) && OneLine(more)
  {
    assert OneLine(CcdToString(origin)) <==> NoSeparator(origin) by {
      EscapedOneLine(origin);
      OneLineAppend("\"", Escape(origin));
      OneLineAppend("\"" + Escape(origin), "\"");
    }
    FiveOneLine("\"origin\":", CcdToString(origin), ",\"crossOrigin\":",
      if crossOrigin then "true" else "false", more);
  }

  lemma Regroup<T>(a: seq<T>, q: seq<T>, t: seq<T>, b: seq<T>, ch: seq<T>, comma: seq<T>, f: seq<T>, end: seq<T>)
    ensures a + (q + t + q) + b + (q + ch + q) + comma + f + end == (a + q + t + q + b + q) + ch + (q + comma) + f + end
  {
    assert a + (q + t + q) == a + q + t + q;
    assert (a + q + t + q + b) + (q + ch + q) == (a + q + t + q + b + q) + ch + q;
    assert ((a + q + t + q + b + q) + ch + q) + comma == (a + q + t + q + b + q) + ch + (q + comma);
  }

  lemma PrefixParts()
    ensures "{\"type\":" + "\"" + "webauthn.get" + "\"" + ",\"challenge\":" + "\"" == PREFIX
  {
  }

  lemma {:induction false} PlainType()
    ensures CcdToString("webauthn.get") == "\"" + "webauthn.get" + "\""
  {
    EscapeNothing("webauthn.get");
  }

  lemma PlainChallenge(hash: seq<Byte>)
    ensures CcdToString(BufToB64url(hash)) == "\"" + BufToB64url(hash) + "\""
  {
    Base64UrlRoundTrip(hash);
    EscapeNothing(BufToB64url(hash));
  }

  /** The pieces of the prefix around a text between quotes. */
  lemma Joined(ch: seq<char>, f: seq<char>)
    ensures "{\"type\":" + ("\"" + "webauthn.get" + "\"") + ",\"challenge\":" + ("\"" + ch + "\"") + "," + f + "}"
         == Rebuild(ch, f)
  {
    var q, comma: seq<char> := "\"", ",";
    assert q + comma == "\",";
    PrefixParts();
    Regroup("{\"type\":", q, "webauthn.get", ",\"challenge\":", ch, comma, f, "}");
  }

  lemma {:induction false} SerializeIsRebuild(hash: seq<Byte>, origin: seq<char>, crossOrigin: bool, more: seq<char>)
    ensures Serialize(hash, origin, crossOrigin, more)
         == Rebuild(BufToB64url(hash), TrailingFields(origin, crossOrigin, more))
  {
    PlainType();
    PlainChallenge(hash);
    Joined(BufToB64url(hash), TrailingFields(origin, crossOrigin, more));
  }

  predicate Avoids(s: seq<char>, stops: seq<char>) {
    forall i :: 0 <= i < |s| ==> s[i] !in stops
  }

  lemma StopsAre(s: seq<char>)
    ensures NoSeparator(s) <==> Avoids(s, "\U{2028}\U{2029}")
    ensures OneLine(s) <==> Avoids(s, "\n\r\U{2028}\U{2029}")
  {
    var two, four: seq<char> := "\U{2028}\U{2029}", "\n\r\U{2028}\U{2029}";
    assert two == ['\U{2028}', '\U{2029}'] && four == ['\n', '\r', '\U{2028}', '\U{2029}'];
    assert forall c :: c in two <==> c == '\U{2028}' || c == '\U{2029}';
    assert forall c :: c in four <==> LineTerminator(c);
  }

  /** Every assertion laid out as the standard prescribes is split at its challenge, except
      when the origin or a further member carries a raw line separator. */
  lemma {:induction false} AuthenticatorOutputSplits(hash: seq<Byte>, origin: seq<char>, crossOrigin: bool,
                                                     more: seq<char>)
    requires hash != []
    ensures var fields := TrailingFields(origin, crossOrigin, more);
            ExtractClientDataFields(Serialize(hash, origin, crossOrigin, more))
            == if Avoids(origin, "\U{2028}\U{2029}") && Avoids(more, "\n\r\U{2028}\U{2029}") then Some(fields)
               else None
  {
    var text := Serialize(hash, origin, crossOrigin, more);
    var challenge, fields := BufToB64url(hash), TrailingFields(origin, crossOrigin, more);
    SerializeIsRebuild(hash, origin, crossOrigin, more);
    Base64UrlRoundTrip(hash);
    TrailingOneLine(origin, crossOrigin, more);
    StopsAre(origin);
    StopsAre(more);
    if OneLine(fields) {
      MatchIsExtracted(text, challenge, fields);
    } else {
      OnlyOneSplit(challenge, fields);
    }
  }

  lemma OnlyOneSplit(challenge: seq<char>, fields: seq<char>)
    requires challenge != [] && AllB64url(challenge) && !OneLine(fields)
    ensures ExtractClientDataFields(Rebuild(challenge, fields)) == None
  {
    var text := Rebuild(challenge, fields);
    var after := "\"," + fields + "}";
    assert text == PREFIX + (challenge + after);
    assert text[|PREFIX|..] == challenge + after;
    SpanStops(challenge, after);
    assert text[|PREFIX| + |challenge|..] == after;
    assert after[2..|after| - 1] == fields;
  }
}
