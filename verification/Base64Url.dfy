/** webauthnService.ts: base64url by way of standard base64, as the helpers do it. */
module Base64Url {
  import opened Bytes

  type Sextet = v: int | 0 <= v < 64

  /** Section 4 of RFC 4648. */
  function StdChar(v: Sextet): char {
    if v < 26 then 'A' + v as char
    else if v < 52 then 'a' + (v - 26) as char
    else if v < 62 then '0' + (v - 52) as char
    else if v == 62 then '+' else '/'
  }

  /** -1 for a character outside the standard alphabet. */
  function StdValue(c: char): int {
    if 'A' <= c <= 'Z' then c as int - 'A' as int
    else if 'a' <= c <= 'z' then c as int - 'a' as int + 26
    else if '0' <= c <= '9' then c as int - '0' as int + 52
    else if c == '+' then 62
    else if c == '/' then 63
    else -1
  }

  function Sextets(bs: seq<Byte>): seq<Sextet> {
    if bs == [] then []
    else if |bs| == 1 then [bs[0] / 4, (bs[0] % 4) * 16]
    else if |bs| == 2 then [bs[0] / 4, (bs[0] % 4) * 16 + bs[1] / 16, (bs[1] % 16) * 4]
    else [bs[0] / 4, (bs[0] % 4) * 16 + bs[1] / 16, (bs[1] % 16) * 4 + bs[2] / 64, bs[2] % 64] + Sextets(bs[3..])
  }

  function BytesOf(vs: seq<Sextet>): seq<Byte> {
    if |vs| < 2 then []
    else
      var a: int, b: int := vs[0], vs[1];
      var c: int := if |vs| > 2 then vs[2] else 0;
      var d: int := if |vs| > 3 then vs[3] else 0;
      var first: int, second: int, third: int := a * 4 + b / 16, (b % 16) * 16 + c / 4, (c % 4) * 64 + d;
      if |vs| == 2 then [first]
      else if |vs| == 3 then [first, second]
      else [first, second, third] + BytesOf(vs[4..])
  }

  function Text(vs: seq<Sextet>): seq<char> {
    seq(|vs|, i requires 0 <= i < |vs| => StdChar(vs[i]))
  }

  /** Padding to a multiple of four characters. */
  function Padding(n: nat): seq<char> {
    if n % 3 == 1 then "==" else if n % 3 == 2 then "=" else ""
  }

  /** Buffer.toString('base64'). */
  function ToBase64(bs: seq<Byte>): seq<char> {
    Text(Sextets(bs)) + Padding(|bs|)
  }

  /** Buffer.from(text, 'base64'): characters outside the alphabet are skipped. */
  function FromBase64(s: seq<char>): seq<Byte> {
    BytesOf(Values(s))
  }

  function Values(s: seq<char>): seq<Sextet> {
    if s == [] then []
    else Values(s[..|s| - 1])
         + var v := StdValue(s[|s| - 1]); if v < 0 then [] else [v]
  }

  function Replace(s: seq<char>, a: char, b: char): seq<char> {
    seq(|s|, i requires 0 <= i < |s| => if s[i] == a then b else s[i])
  }

  /** text.replace(/=+$/, ''). */
  function StripPadding(s: seq<char>): seq<char> {
    if s != [] && s[|s| - 1] == '=' then StripPadding(s[..|s| - 1]) else s
  }

  function BufToB64url(bs: seq<Byte>): seq<char> {
    StripPadding(Replace(Replace(ToBase64(bs), '+', '-'), '/', '_'))
  }

  function B64urlToBuf(s: seq<char>): seq<Byte> {
    FromBase64(Replace(Replace(s, '-', '+'), '_', '/'))
  }

  predicate IsB64urlChar(c: char) {
    'A' <= c <= 'Z' || 'a' <= c <= 'z' || '0' <= c <= '9' || c == '-' || c == '_'
  }

  // ---- Proof ----

  lemma {:induction false} BytesOfSextets(bs: seq<Byte>)
    ensures BytesOf(Sextets(bs)) == bs
    ensures |Sextets(bs)| >= |bs|
  {
    if |bs| >= 3 {
      BytesOfSextets(bs[3..]);
      var vs := Sextets(bs);
      assert vs[4..] == Sextets(bs[3..]);
      assert bs == [bs[0], bs[1], bs[2]] + bs[3..];
    }
  }

  lemma CharRoundTrip(v: Sextet)
    ensures StdValue(StdChar(v)) == v
    ensures StdChar(v) != '='
    ensures StdChar(v) != '-' && StdChar(v) != '_'
  {
  }

  /** The characters of the url-safe alphabet, section 5 of RFC 4648. */
  function UrlText(vs: seq<Sextet>): seq<char> {
    Replace(Replace(Text(vs), '+', '-'), '/', '_')
  }

  lemma UrlTextChars(vs: seq<Sextet>)
    ensures |UrlText(vs)| == |vs|
    ensures forall i :: 0 <= i < |vs| ==> IsB64urlChar(UrlText(vs)[i]) && UrlText(vs)[i] != '='
    ensures Replace(Replace(UrlText(vs), '-', '+'), '_', '/') == Text(vs)
  {
    forall i | 0 <= i < |vs|
      ensures IsB64urlChar(UrlText(vs)[i]) && UrlText(vs)[i] != '='
      ensures Replace(Replace(UrlText(vs), '-', '+'), '_', '/')[i] == Text(vs)[i]
    {
      CharRoundTrip(vs[i]);
    }
  }

  lemma {:induction false} ValuesOfText(vs: seq<Sextet>)
    ensures Values(Text(vs)) == vs
  {
    if vs != [] {
      ValuesOfText(vs[..|vs| - 1]);
      assert Text(vs)[..|vs| - 1] == Text(vs[..|vs| - 1]);
      CharRoundTrip(vs[|vs| - 1]);
      assert vs == vs[..|vs| - 1] + [vs[|vs| - 1]];
    }
  }

  lemma {:induction false} StripExactly(s: seq<char>, n: nat)
    requires s == [] || s[|s| - 1] != '='
    ensures StripPadding(s + seq(n, i => '=')) == s
  {
    var t := s + seq(n, i => '=');
    if n == 0 {
      assert t == s;
    } else {
      assert t[..|t| - 1] == s + seq(n - 1, i => '=');
      StripExactly(s, n - 1);
    }
  }

  lemma EncodedIsUrlText(bs: seq<Byte>)
    ensures BufToB64url(bs) == UrlText(Sextets(bs))
  {
    var vs := Sextets(bs);
    var pad := Padding(|bs|);
    UrlTextChars(vs);
    assert Replace(Replace(ToBase64(bs), '+', '-'), '/', '_') == UrlText(vs) + pad;
    assert pad == seq(|pad|, i => '=');
    StripExactly(UrlText(vs), |pad|);
  }

  lemma {:induction false} SextetCount(bs: seq<Byte>)
    ensures |Sextets(bs)| == (|bs| * 4 + 2) / 3
  {
    if |bs| >= 3 {
      SextetCount(bs[3..]);
    }
  }

  lemma PaddingLength(n: nat)
    ensures |Padding(n)| == (3 - n % 3) % 3
    ensures (n * 4 + 2) / 3 + |Padding(n)| == (n + 2) / 3 * 4
  {
    var q, r := n / 3, n % 3;
    assert n == 3 * q + r;
    assert (n * 4 + 2) / 3 == 4 * q + (r * 4 + 2) / 3;
    assert (n + 2) / 3 == q + (r + 2) / 3;
  }

  /** Three bytes make four characters, and the last group is filled with equals signs. */
  lemma PaddedToFour(bs: seq<Byte>)
    ensures |ToBase64(bs)| == (|bs| + 2) / 3 * 4
    ensures forall i :: 0 <= i < |ToBase64(bs)| ==>
              (ToBase64(bs)[i] == '=' <==> i >= |ToBase64(bs)| - (3 - |bs| % 3) % 3)
  {
    var vs, text := Sextets(bs), ToBase64(bs);
    SextetCount(bs);
    PaddingLength(|bs|);
    assert |text| == |vs| + |Padding(|bs|)|;
    forall i | 0 <= i < |text|
      ensures text[i] == '=' <==> i >= |vs|
    {
      if i < |vs| {
        CharRoundTrip(vs[i]);
      }
    }
  }

  /** Decoding inverts encoding for every byte string. */
  lemma Base64UrlRoundTrip(bs: seq<Byte>)
    ensures B64urlToBuf(BufToB64url(bs)) == bs
    ensures forall i :: 0 <= i < |BufToB64url(bs)| ==> IsB64urlChar(BufToB64url(bs)[i])
    ensures bs != [] ==> BufToB64url(bs) != []
  {
    EncodedIsUrlText(bs);
    UrlTextChars(Sextets(bs));
    ValuesOfText(Sextets(bs));
    BytesOfSextets(bs);
  }

  /** The signed-challenge check of the submit handlers: the hex of the decoded challenge
      against the hex of the prepared hash. */
  predicate ChallengeMatches(challenge: seq<char>, hash: seq<Byte>) {
    ToHex(B64urlToBuf(challenge)) == ToHex(hash)
  }

  /** A device that signed the challenge of one prepared hash passes for that hash only. */
  lemma ChallengeMatchesOnlyItsHash(signed: seq<Byte>, prepared: seq<Byte>)
    ensures ChallengeMatches(BufToB64url(signed), prepared) <==> signed == prepared
  {
    Base64UrlRoundTrip(signed);
    BytesOfHex(signed);
    BytesOfHex(prepared);
  }
}
