/** safeWebAuthn.ts: ECDSA signatures in DER, and the low-S form. */
module Der {
  import opened Bytes

  datatype DerError = MissingSequence | LongForm | MissingR | MissingS | EmptyInteger

  datatype Signature = Signature(r: nat, s: nat) | Bad(error: DerError)

  // ---- Encoder, from sections 8.3 and 8.9 of X.690 ----

  function MinBytes(n: nat): (bs: seq<Byte>)
    ensures |bs| > 0
  {
    if n < 256 then [n] else MinBytes(n / 256) + [n % 256]
  }

  /** Two's complement in the fewest bytes: a zero byte goes first when the top bit of
      the magnitude is set. */
  function IntegerContent(n: nat): seq<Byte> {
    var m := MinBytes(n);
    if m[0] >= 128 then [0] + m else m
  }

  function DerInteger(n: nat): seq<Byte>
    requires |IntegerContent(n)| < 128
  {
    [2, |IntegerContent(n)|] + IntegerContent(n)
  }

  lemma {:induction false} MinBytesLength(n: nat, k: nat)
    requires k >= 1 && n < Pow256(k)
    ensures |MinBytes(n)| <= k
  {
    if n >= 256 {
      assert k > 1;
      MinBytesLength(n / 256, k - 1);
    }
  }

  lemma ContentLength(n: nat)
    requires n < UINT256
    ensures |IntegerContent(n)| <= 33
  {
    WordSize();
    MinBytesLength(n, 32);
  }

  function DerSignature(r: nat, s: nat): seq<Byte>
    requires r < UINT256 && s < UINT256
  {
    ContentLength(r);
    ContentLength(s);
    var body := DerInteger(r) + DerInteger(s);
    [0x30, |body|] + body
  }

  // ---- Decoder, as the code reads ----

  /** subarray clamps to the end of the buffer. */
  function Sub(der: seq<Byte>, from: nat, len: nat): seq<Byte> {
    if from >= |der| then [] else if from + len > |der| then der[from..] else der[from..from + len]
  }

  /** One INTEGER at offset o, or the error; an absent length byte reads as empty. */
  function IntegerAt(der: seq<Byte>, o: nat, missing: DerError): Signature {
    if o >= |der| || der[o] != 2 then Bad(missing)
    else if o + 1 >= |der| then Bad(EmptyInteger)
    else
      var content := Sub(der, o + 2, der[o + 1]);
      if content == [] then Bad(EmptyInteger) else Signature(FromBE(content), der[o + 1])
  }

  function ParseDer(der: seq<Byte>): Signature {
    if |der| == 0 || der[0] != 0x30 then Bad(MissingSequence)
    else if |der| > 1 && der[1] >= 128 then Bad(LongForm)
    else
      var r := IntegerAt(der, 2, MissingR);
      if r.Bad? then r
      else
        var s := IntegerAt(der, 4 + r.s, MissingS);
        if s.Bad? then s else Signature(r.r, s.r)
  }

  /** derToRS walks an offset over the buffer. */
  method DerToRS(der: seq<Byte>) returns (result: Signature)
    ensures result == ParseDer(der)
  {
    var o := 0;
    if o >= |der| || der[o] != 0x30 { return Bad(MissingSequence); }
    o := o + 1;
    if o < |der| && der[o] >= 128 { return Bad(LongForm); }
    o := o + 1;
    if o >= |der| || der[o] != 2 { return Bad(MissingR); }
    o := o + 1;
    if o >= |der| { return Bad(EmptyInteger); }
    var rLen := der[o];
    o := o + 1;
    var rBytes := Sub(der, o, rLen);
    if rBytes == [] { return Bad(EmptyInteger); }
    var r := FromBE(rBytes);
    o := o + rLen;
    if o >= |der| || der[o] != 2 { return Bad(MissingS); }
    o := o + 1;
    if o >= |der| { return Bad(EmptyInteger); }
    var sLen := der[o];
    o := o + 1;
    var sBytes := Sub(der, o, sLen);
    if sBytes == [] { return Bad(EmptyInteger); }
    return Signature(r, FromBE(sBytes));
  }

  // ---- Proof ----

  lemma {:induction false} MinBytesValue(n: nat)
    ensures FromBE(MinBytes(n)) == n
  {
    if n < 256 {
      assert [n][..0] == [];
    } else {
      MinBytesValue(n / 256);
      assert MinBytes(n)[..|MinBytes(n)| - 1] == MinBytes(n / 256);
    }
  }

  lemma {:induction false} NoLeadingZero(n: nat)
    ensures |MinBytes(n)| > 1 ==> MinBytes(n)[0] > 0
  {
    if n >= 256 {
      NoLeadingZero(n / 256);
      assert n / 256 > 0;
    }
  }

  /** Section 8.3.2 of X.690: a number that is not negative has its top bit clear, and its
      first nine bits are not all zero. */
  lemma ContentIsMinimal(n: nat)
    ensures var content := IntegerContent(n);
            && FromBE(content) == n
            && content[0] < 128
            && (|content| > 1 && content[0] == 0 ==> content[1] >= 128)
  {
    MinBytesValue(n);
    LeadingZero(MinBytes(n));
    NoLeadingZero(n);
  }

  lemma IntegerRead(before: seq<Byte>, n: nat, after: seq<Byte>, missing: DerError)
    requires n < UINT256 && |IntegerContent(n)| < 128
    ensures IntegerAt(before + DerInteger(n) + after, |before|, missing) == Signature(n, |IntegerContent(n)|)
  {
    var content := IntegerContent(n);
    var der := before + DerInteger(n) + after;
    MinBytesValue(n);
    LeadingZero(MinBytes(n));
    assert der[|before|] == 2 && der[|before| + 1] == |content|;
    assert der[|before| + 2..|before| + 2 + |content|] == content;
  }

  /** The decoder inverts the encoder for every pair of 256-bit numbers. */
  lemma DerRoundTrip(r: nat, s: nat)
    requires r < UINT256 && s < UINT256
    ensures ParseDer(DerSignature(r, s)) == Signature(r, s)
  {
    ContentLength(r);
    ContentLength(s);
    var der := DerSignature(r, s);
    var body := DerInteger(r) + DerInteger(s);
    var head := [0x30, |body|];
    assert der == head + DerInteger(r) + DerInteger(s);
    IntegerRead(head, r, DerInteger(s), MissingR);
    assert der == (head + DerInteger(r)) + DerInteger(s) + [];
    IntegerRead(head + DerInteger(r), s, [], MissingS);
    assert |head + DerInteger(r)| == 4 + |IntegerContent(r)|;
  }

  // ---- Low S ----

  const P256_N: nat := 0xffffffff00000000ffffffffffffffffbce6faada7179e84f3b9cac2fc632551

  /** The order of the curve P-256 as section D.1.2.3 of FIPS 186-4 gives it in decimal, within
      the bound of Hasse around its prime. */
  lemma OrderOfP256()
    ensures P256_N == 115792089210356248762697446949407573529996955224135760342422259061068512044369
    ensures var prime := 115792089210356248762697446949407573530086143415290314195533631308867097853951;
            (prime + 1 - P256_N) * (prime + 1 - P256_N) <= 4 * prime
  {
  }

  function LowS(s: int): int {
    if s > P256_N / 2 then P256_N - s else s
  }

  /** For a scalar of the group the result is the only one of s and n - s in the lower
      half, and normalising either of the two gives it. */
  lemma LowSIsCanonical(s: int)
    requires 0 < s < P256_N
    ensures 0 < LowS(s) <= P256_N / 2
    ensures LowS(s) == s || LowS(s) == P256_N - s
    ensures LowS(P256_N - s) == LowS(s) && LowS(LowS(s)) == LowS(s)
  {
  }
}
