/** safeWebAuthn.ts: the signature bytes handed to the Safe contracts, with decoders
    written from the Solidity ABI specification and the Safe contract-signature layout. */
module SafeSignature {
  import opened Wrappers
  import opened Bytes
  import opened Base64Url
  import opened ClientData
  import opened Der
  import Utf8

  datatype Assertion = Assertion(authenticatorData: seq<Byte>, clientDataJSON: seq<Byte>, derSignature: seq<Byte>)

  /** What the on-chain signer reads out of the inner signature. */
  datatype Inner = Inner(authenticatorData: seq<Byte>, fields: seq<Byte>, r: nat, s: nat)

  // ---- Encoders ----

  function Word(n: nat): (w: seq<Byte>)
    ensures |w| == 32
  {
    ToBE(n, 32)
  }

  /** The zero bytes after a dynamic value, up to a whole word. */
  function Pad(len: nat): (p: nat)
    ensures (len + p) % 32 == 0 && p < 32
  {
    (32 - len % 32) % 32
  }

  function Dynamic(data: seq<Byte>): (bs: seq<Byte>)
    ensures |bs| == 32 + |data| + Pad(|data|)
  {
    Word(|data|) + data + Zeros(Pad(|data|))
  }

  /** abi.encode(bytes, string, uint256, uint256): four head words, then the two values. */
  function AbiEncode(v: Inner): seq<Byte> {
    Word(128) + Word(128 + |Dynamic(v.authenticatorData)|) + Word(v.r) + Word(v.s)
    + Dynamic(v.authenticatorData) + Dynamic(v.fields)
  }

  function EncodeWebAuthnSignature(a: Assertion): Option<seq<Byte>> {
    var fields := ExtractClientDataFields(Utf8.Decode(a.clientDataJSON));
    var sig := ParseDer(a.derSignature);
    if fields.None? || sig.Bad? then None
    else
      var s := LowS(sig.s);
      if sig.r >= UINT256 || s < 0 || s >= UINT256 then None
      else Some(AbiEncode(Inner(a.authenticatorData, Utf8.Encode(fields.value), sig.r, s)))
  }

  function EncodeSafeContractSignature(owner: seq<Byte>, inner: seq<Byte>): Option<seq<Byte>> {
    if |owner| > 32 then None
    else Some(Zeros(32 - |owner|) + owner + Word(65) + [0] + Word(|inner|) + inner)
  }

  // ---- Decoders ----

  function WordAt(bs: seq<Byte>, o: nat): Option<nat> {
    if o + 32 > |bs| then None else Some(FromBE(bs[o..o + 32]))
  }

  /** A length word and that many bytes, at an offset. */
  function LengthPrefixed(bs: seq<Byte>, o: nat): Option<seq<Byte>> {
    var len := WordAt(bs, o);
    if len.None? || o + 32 + len.value > |bs| then None
    else Some(bs[o + 32..o + 32 + len.value])
  }

  /** A dynamic argument: its head word holds the offset. */
  function DynamicAt(bs: seq<Byte>, head: nat): Option<seq<Byte>> {
    var o := WordAt(bs, head);
    if o.None? then None else LengthPrefixed(bs, o.value)
  }

  function AbiDecode(bs: seq<Byte>): Option<Inner> {
    var auth, fields, r, s := DynamicAt(bs, 0), DynamicAt(bs, 32), WordAt(bs, 64), WordAt(bs, 96);
    if auth.Some? && fields.Some? && r.Some? && s.Some? then Some(Inner(auth.value, fields.value, r.value, s.value))
    else None
  }

  /** One contract signature: a 65-byte slot whose last byte is zero, an offset past the
      slot, and there the length and the bytes passed to the owner. */
  function SafeDecode(bs: seq<Byte>): Option<(seq<Byte>, seq<Byte>)> {
    if |bs| < 65 || bs[64] != 0 then None
    else
      var o := FromBE(bs[32..64]);
      if o < 65 then None
      else
        var inner := LengthPrefixed(bs, o);
        if inner.None? then None else Some((bs[12..32], inner.value))
  }

  // ---- Proof ----

  /** Below any length a buffer of the runtime can have. */
  const MAX_BUFFER: nat := 0x20_0000_0000_0000

  lemma WordRead(before: seq<Byte>, n: nat, after: seq<Byte>)
    requires n < UINT256
    ensures WordAt(before + Word(n) + after, |before|) == Some(n)
  {
    WordSize();
    ToThenFrom(n, 32);
    Middle(before, Word(n), after);
  }

  lemma PrefixedRead(before: seq<Byte>, data: seq<Byte>, after: seq<Byte>)
    requires |data| < MAX_BUFFER
    ensures LengthPrefixed(before + Word(|data|) + data + after, |before|) == Some(data)
  {
    var bs := before + Word(|data|) + data + after;
    assert bs == before + Word(|data|) + (data + after);
    WordRead(before, |data|, data + after);
    assert bs == (before + Word(|data|)) + data + after;
    Middle(before + Word(|data|), data, after);
  }

  lemma DynamicRead(before: seq<Byte>, data: seq<Byte>, after: seq<Byte>)
    requires |data| < MAX_BUFFER
    ensures LengthPrefixed(before + Dynamic(data) + after, |before|) == Some(data)
  {
    PrefixedRead(before, data, Zeros(Pad(|data|)) + after);
    assert before + Dynamic(data) + after
        == before + Word(|data|) + data + (Zeros(Pad(|data|)) + after);
  }

  /** Six pieces, split around each of the first four. */
  lemma Pieces<T>(a: seq<T>, b: seq<T>, c: seq<T>, d: seq<T>, e: seq<T>, f: seq<T>)
    ensures a + b + c + d + e + f == [] + a + (b + c + d + e + f)
    ensures a + b + c + d + e + f == a + b + (c + d + e + f)
    ensures a + b + c + d + e + f == (a + b) + c + (d + e + f)
    ensures a + b + c + d + e + f == (a + b + c) + d + (e + f)
  {
  }

  lemma AbiHead(a: nat, b: nat, c: nat, d: nat, auth: seq<Byte>, fields: seq<Byte>)
    requires a < UINT256 && b < UINT256 && c < UINT256 && d < UINT256
    ensures var bs := Word(a) + Word(b) + Word(c) + Word(d) + auth + fields;
            && WordAt(bs, 0) == Some(a)
            && WordAt(bs, 32) == Some(b)
            && WordAt(bs, 64) == Some(c)
            && WordAt(bs, 96) == Some(d)
  {
    var w0, w1, w2, w3 := Word(a), Word(b), Word(c), Word(d);
    Pieces(w0, w1, w2, w3, auth, fields);
    WordRead([], a, w1 + w2 + w3 + auth + fields);
    WordRead(w0, b, w2 + w3 + auth + fields);
    WordRead(w0 + w1, c, w3 + auth + fields);
    WordRead(w0 + w1 + w2, d, auth + fields);
  }

  lemma AbiTail(head: seq<Byte>, auth: seq<Byte>, fields: seq<Byte>)
    requires |auth| < MAX_BUFFER && |fields| < MAX_BUFFER
    ensures var bs := head + Dynamic(auth) + Dynamic(fields);
            && LengthPrefixed(bs, |head|) == Some(auth)
            && LengthPrefixed(bs, |head + Dynamic(auth)|) == Some(fields)
  {
    DynamicRead(head, auth, Dynamic(fields));
    DynamicRead(head + Dynamic(auth), fields, []);
    assert head + Dynamic(auth) + Dynamic(fields) + [] == head + Dynamic(auth) + Dynamic(fields);
  }

  /** What the ABI encoding carries, the ABI decoding reads back. */
  lemma AbiRoundTrip(v: Inner)
    requires |v.authenticatorData| < MAX_BUFFER && |v.fields| < MAX_BUFFER
    requires v.r < UINT256 && v.s < UINT256
    ensures AbiDecode(AbiEncode(v)) == Some(v)
  {
    var bs, o := AbiEncode(v), 128 + |Dynamic(v.authenticatorData)|;
    var head := Word(128) + Word(o) + Word(v.r) + Word(v.s);
    assert bs == head + Dynamic(v.authenticatorData) + Dynamic(v.fields);
    assert WordAt(bs, 0) == Some(128) && WordAt(bs, 32) == Some(o)
        && WordAt(bs, 64) == Some(v.r) && WordAt(bs, 96) == Some(v.s) by {
      AbiHead(128, o, v.r, v.s, Dynamic(v.authenticatorData), Dynamic(v.fields));
    }
    assert LengthPrefixed(bs, 128) == Some(v.authenticatorData) && LengthPrefixed(bs, o) == Some(v.fields) by {
      AbiTail(head, v.authenticatorData, v.fields);
    }
  }

  lemma SafeRoundTrip(owner: seq<Byte>, inner: seq<Byte>)
    requires |owner| == 20 && |inner| < MAX_BUFFER
    ensures var encoded := EncodeSafeContractSignature(owner, inner);
            && encoded.Some? && |encoded.value| == 65 + 32 + |inner|
            && FromBE(encoded.value[32..64]) == 65 && encoded.value[64] == 0
            && SafeDecode(encoded.value) == Some((owner, inner))
  {
    var bs := EncodeSafeContractSignature(owner, inner).value;
    var slot := Zeros(12) + owner;
    assert bs == slot + Word(65) + ([0] + Word(|inner|) + inner);
    WordRead(slot, 65, [0] + Word(|inner|) + inner);
    assert bs == (slot + Word(65) + [0]) + Word(|inner|) + inner + [];
    PrefixedRead(slot + Word(65) + [0], inner, []);
    assert bs[12..32] == owner;
    assert bs[64] == 0;
  }

  /** The bytes a verifier joins for a challenge and the decoded fields. */
  function RebuildBytes(challenge: seq<char>, fields: seq<Byte>): seq<Byte> {
    Utf8.Encode(PREFIX + challenge + "\",") + fields + Utf8.Encode("}")
  }

  /** The challenge that stands in the client data. */
  function SignedChallenge(clientData: seq<Byte>): seq<char> {
    var text := Utf8.Decode(clientData);
    if PREFIX <= text then text[|PREFIX|..][..Span(text[|PREFIX|..])] else []
  }

  /** A verifier that joins the fields with a challenge gets the client data as signed
      exactly when that was well-formed UTF-8 and the challenge is the one in it. */
  ghost predicate RejoinsForItsChallenge(clientData: seq<Byte>, fields: seq<Byte>) {
    forall challenge ::
      RebuildBytes(challenge, fields) == clientData
      <==> Utf8.WellFormed(clientData) && challenge == SignedChallenge(clientData)
  }

  lemma RebuildIsBytes(challenge: seq<char>, fields: seq<char>)
    ensures RebuildBytes(challenge, Utf8.Encode(fields)) == Utf8.Encode(Rebuild(challenge, fields))
  {
    Utf8.EncodeAppend(PREFIX + challenge + "\",", fields);
    Utf8.EncodeAppend(PREFIX + challenge + "\"," + fields, "}");
  }

  /** The final bytes give back the owner, the authenticator data, r and the low form of s;
      and the fields rejoin to the client data as signed with the signed challenge alone. */
  ghost predicate Survives(owner: seq<Byte>, a: Assertion, inner: seq<Byte>) {
    var sig, bytes := ParseDer(a.derSignature), EncodeSafeContractSignature(owner, inner);
    && sig.Signature? && bytes.Some?
    && SafeDecode(bytes.value) == Some((owner, inner))
    && var got := AbiDecode(inner);
    && got.Some?
    && got.value.authenticatorData == a.authenticatorData
    && got.value.r == sig.r && got.value.s == LowS(sig.s)
    && RejoinsForItsChallenge(a.clientDataJSON, got.value.fields)
  }

  /** Every assertion that is accepted survives the trip to the final bytes. */
  lemma {:induction false} AcceptedAssertionSurvives(owner: seq<Byte>, a: Assertion)
    requires |owner| == 20 && |a.authenticatorData| < MAX_BUFFER
    ensures var inner := EncodeWebAuthnSignature(a);
            inner.Some? && |inner.value| < MAX_BUFFER ==> Survives(owner, a, inner.value)
  {
    if EncodeWebAuthnSignature(a).Some? && |EncodeWebAuthnSignature(a).value| < MAX_BUFFER {
      var inner := EncodeWebAuthnSignature(a).value;
      SafeRoundTrip(owner, inner);
      var fields := ExtractClientDataFields(Utf8.Decode(a.clientDataJSON)).value;
      var sig := ParseDer(a.derSignature);
      AbiRoundTrip(Inner(a.authenticatorData, Utf8.Encode(fields), sig.r, LowS(sig.s)));
      RejoinsIff(a.clientDataJSON, fields);
    }
  }

  lemma SameRebuild(a: seq<char>, b: seq<char>, fields: seq<char>)
    requires Rebuild(a, fields) == Rebuild(b, fields)
    ensures a == b
  {
    var n := |PREFIX|;
    assert |Rebuild(a, fields)| == n + |a| + 2 + |fields| + 1;
    assert |Rebuild(b, fields)| == n + |b| + 2 + |fields| + 1;
    assert Rebuild(a, fields)[n..n + |a|] == a;
    assert Rebuild(b, fields)[n..n + |b|] == b;
  }

  lemma RejoinsWith(clientData: seq<Byte>, fields: seq<char>, challenge: seq<char>)
    requires ExtractClientDataFields(Utf8.Decode(clientData)) == Some(fields)
    ensures RebuildBytes(challenge, Utf8.Encode(fields)) == clientData
       <==> Utf8.WellFormed(clientData) && challenge == SignedChallenge(clientData)
  {
    var text, signed := Utf8.Decode(clientData), SignedChallenge(clientData);
    ExtractedMatches(text);
    assert text == Rebuild(signed, fields);
    RebuildIsBytes(challenge, fields);
    if RebuildBytes(challenge, Utf8.Encode(fields)) == clientData {
      Utf8.TextRoundTrip(Rebuild(challenge, fields));
      SameRebuild(challenge, signed, fields);
      assert Utf8.WellFormed(clientData);
    } else if Utf8.WellFormed(clientData) {
      Utf8.LosslessIffWellFormed(clientData);
    }
  }

  lemma RejoinsIff(clientData: seq<Byte>, fields: seq<char>)
    requires ExtractClientDataFields(Utf8.Decode(clientData)) == Some(fields)
    ensures RejoinsForItsChallenge(clientData, Utf8.Encode(fields))
  {
    forall challenge
      ensures RebuildBytes(challenge, Utf8.Encode(fields)) == clientData
         <==> Utf8.WellFormed(clientData) && challenge == SignedChallenge(clientData)
    {
      RejoinsWith(clientData, fields, challenge);
    }
  }

  /** The four values of an accepted assertion, encoded. */
  function InnerSignature(auth: seq<Byte>, fields: Option<seq<char>>, r: nat, s: nat): Option<seq<Byte>>
    requires s < P256_N
  {
    if fields.None? then None else Some(AbiEncode(Inner(auth, Utf8.Encode(fields.value), r, LowS(s))))
  }

  lemma LowSRange(s: nat)
    ensures 0 <= LowS(s) < UINT256 <==> s <= P256_N
  {
  }

  ghost predicate SplitsSomehow(text: seq<char>) {
    exists fields :: Splits(text, fields)
  }

  lemma SplitsIffFound(text: seq<char>)
    ensures SplitsSomehow(text) <==> ExtractClientDataFields(text).Some?
  {
    var found := ExtractClientDataFields(text);
    if found.Some? {
      ExtractIffMatches(text, found.value);
    }
    if SplitsSomehow(text) {
      var fields :| Splits(text, fields);
      ExtractIffMatches(text, fields);
    }
  }

  /** An assertion is accepted exactly when its client data splits at its challenge, its
      signature parses, r fits a word and s is at most the order of the curve. */
  lemma AcceptedIff(a: Assertion)
    ensures var sig := ParseDer(a.derSignature);
            EncodeWebAuthnSignature(a).Some?
            <==> SplitsSomehow(Utf8.Decode(a.clientDataJSON))
                 && sig.Signature? && sig.r < UINT256 && sig.s <= P256_N
  {
    var sig := ParseDer(a.derSignature);
    SplitsIffFound(Utf8.Decode(a.clientDataJSON));
    if sig.Signature? {
      LowSRange(sig.s);
    }
  }

  lemma EncodeBy(a: Assertion, r: nat, s: nat)
    requires r < UINT256 && s < UINT256 && 0 < s < P256_N
    ensures ParseDer(a.derSignature) == Signature(r, s) ==>
              EncodeWebAuthnSignature(a)
              == InnerSignature(a.authenticatorData, ExtractClientDataFields(Utf8.Decode(a.clientDataJSON)), r, s)
  {
    LowSIsCanonical(s);
  }

  function FieldsOrNone(origin: seq<char>, crossOrigin: bool, more: seq<char>): Option<seq<char>> {
    if NoSeparator(origin) && OneLine(more) then Some(TrailingFields(origin, crossOrigin, more)) else None
  }

  lemma {:induction false} StandardClientData(hash: seq<Byte>, origin: seq<char>, crossOrigin: bool, more: seq<char>)
    requires hash != []
    ensures ExtractClientDataFields(Utf8.Decode(Utf8.Encode(Serialize(hash, origin, crossOrigin, more))))
         == FieldsOrNone(origin, crossOrigin, more)
  {
    Utf8.TextRoundTrip(Serialize(hash, origin, crossOrigin, more));
    AuthenticatorOutputSplits(hash, origin, crossOrigin, more);
    StopsAre(origin);
    StopsAre(more);
  }

  /** An assertion for a hash, laid out and signed as the standards say, is accepted unless
      a raw line separator is among its fields. */
  lemma {:induction false} StandardAssertionAccepted(auth: seq<Byte>, hash: seq<Byte>, origin: seq<char>,
                                                     crossOrigin: bool, more: seq<char>, r: nat, s: nat)
    requires hash != [] && r < UINT256 && s < UINT256 && 0 < s < P256_N
    ensures EncodeWebAuthnSignature(
              Assertion(auth, Utf8.Encode(Serialize(hash, origin, crossOrigin, more)), DerSignature(r, s)))
         == InnerSignature(auth, FieldsOrNone(origin, crossOrigin, more), r, s)
  {
    StandardClientData(hash, origin, crossOrigin, more);
    DerRoundTrip(r, s);
    EncodeBy(Assertion(auth, Utf8.Encode(Serialize(hash, origin, crossOrigin, more)), DerSignature(r, s)), r, s);
  }

  /** What the contracts read out of the final bytes for an owner: the values of a standard
      assertion for a hash, whose fields rejoin to the signed client data with the encoded
      hash as challenge, and with no other hash. */
  ghost predicate VerifiesFor(owner: seq<Byte>, final: seq<Byte>, clientData: seq<Byte>, v: Inner, hash: seq<Byte>) {
    && SafeDecode(final).Some?
    && SafeDecode(final).value.0 == owner
    && AbiDecode(SafeDecode(final).value.1) == Some(v)
    && forall asked :: RebuildBytes(BufToB64url(asked), v.fields) == clientData <==> asked == hash
  }

  lemma RejoinsForHash(hash: seq<Byte>, origin: seq<char>, crossOrigin: bool, more: seq<char>, asked: seq<Byte>)
    ensures RebuildBytes(BufToB64url(asked), Utf8.Encode(TrailingFields(origin, crossOrigin, more)))
            == Utf8.Encode(Serialize(hash, origin, crossOrigin, more))
       <==> asked == hash
  {
    var fields := TrailingFields(origin, crossOrigin, more);
    SerializeIsRebuild(hash, origin, crossOrigin, more);
    RebuildIsBytes(BufToB64url(asked), fields);
    if RebuildBytes(BufToB64url(asked), Utf8.Encode(fields)) == Utf8.Encode(Rebuild(BufToB64url(hash), fields)) {
      Utf8.TextRoundTrip(Rebuild(BufToB64url(asked), fields));
      Utf8.TextRoundTrip(Rebuild(BufToB64url(hash), fields));
      SameRebuild(BufToB64url(asked), BufToB64url(hash), fields);
      Base64UrlRoundTrip(asked);
      Base64UrlRoundTrip(hash);
    }
  }

  /** End to end: a standard assertion for a hash, without a raw line separator, reaches the
      contracts whole. Its final bytes decode to the owner, and through the inner signature
      to the authenticator data, r, the low form of s and fields that rejoin to the signed
      client data for that hash alone. */
  lemma {:induction false} StandardAssertionVerifies(owner: seq<Byte>, auth: seq<Byte>, hash: seq<Byte>,
                                                     origin: seq<char>, crossOrigin: bool, more: seq<char>,
                                                     r: nat, s: nat)
    requires |owner| == 20 && hash != [] && r < UINT256 && s < UINT256 && 0 < s < P256_N
    requires NoSeparator(origin) && OneLine(more)
    requires |auth| + |Utf8.Encode(TrailingFields(origin, crossOrigin, more))| + 256 < MAX_BUFFER
    ensures var clientData := Utf8.Encode(Serialize(hash, origin, crossOrigin, more));
            var fields := Utf8.Encode(TrailingFields(origin, crossOrigin, more));
            var inner := EncodeWebAuthnSignature(Assertion(auth, clientData, DerSignature(r, s)));
            && inner.Some?
            && EncodeSafeContractSignature(owner, inner.value).Some?
            && VerifiesFor(owner, EncodeSafeContractSignature(owner, inner.value).value, clientData,
                           Inner(auth, fields, r, LowS(s)), hash)
  {
    var fields := Utf8.Encode(TrailingFields(origin, crossOrigin, more));
    LowSIsCanonical(s);
    StandardAssertionAccepted(auth, hash, origin, crossOrigin, more, r, s);
    AbiRoundTrip(Inner(auth, fields, r, LowS(s)));
    SafeRoundTrip(owner, AbiEncode(Inner(auth, fields, r, LowS(s))));
    forall asked
      ensures RebuildBytes(BufToB64url(asked), fields) == Utf8.Encode(Serialize(hash, origin, crossOrigin, more))
         <==> asked == hash
    {
      RejoinsForHash(hash, origin, crossOrigin, more, asked);
    }
  }
}
