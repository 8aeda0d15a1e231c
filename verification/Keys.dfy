/** webauthnService.ts: P-256 coordinates out of a SubjectPublicKeyInfo and back. */
module Keys {
  import opened Wrappers
  import opened Bytes
  import opened Base64Url

  /** The last 65 bytes must be an uncompressed point; a shorter input has no such tail. */
  function ExtractP256(der: seq<Byte>): Option<(nat, nat)> {
    if |der| < 65 then None
    else
      var point := der[|der| - 65..];
      if point[0] != 4 then None
      else Some((HexValue(ToHex(point[1..33])), HexValue(ToHex(point[33..65]))))
  }

  /** The base64url coordinate handed to createPublicKey; None if the hexadecimal text
      would not be whole bytes. */
  function JwkCoordinate(n: nat): Option<seq<char>> {
    var text := PadStart(HexText(n), 64);
    if |text| % 2 != 0 then None else Some(BufToB64url(FromHex(text)))
  }

  ghost predicate EndsInPoint(der: seq<Byte>) {
    exists prefix: seq<Byte>, x: seq<Byte>, y: seq<Byte> | |x| == 32 && |y| == 32 :: der == prefix + [4] + x + y
  }

  /** Whatever precedes the point, the stored coordinates re-encode to exactly the 32
      bytes each that were registered. */
  lemma CoordinatesSurvive(prefix: seq<Byte>, x: seq<Byte>, y: seq<Byte>)
    requires |x| == 32 && |y| == 32
    ensures var key := ExtractP256(prefix + [4] + x + y);
            && key == Some((FromBE(x), FromBE(y)))
            && JwkCoordinate(key.value.0) == Some(BufToB64url(x))
            && JwkCoordinate(key.value.1) == Some(BufToB64url(y))
            && B64urlToBuf(JwkCoordinate(key.value.0).value) == x
            && B64urlToBuf(JwkCoordinate(key.value.1).value) == y
  {
    var der := prefix + [4] + x + y;
    var point := der[|der| - 65..];
    assert point == [4] + x + y;
    assert point[1..33] == x && point[33..65] == y;
    HexOfBytes(x);
    HexOfBytes(y);
    PaddedHexRestores(x);
    PaddedHexRestores(y);
    Base64UrlRoundTrip(x);
    Base64UrlRoundTrip(y);
  }

  /** A key is read from exactly the inputs that end in the byte 4 and two coordinates. */
  lemma KeyIff(der: seq<Byte>)
    ensures ExtractP256(der).Some? <==> EndsInPoint(der)
  {
    if ExtractP256(der).Some? {
      var n := |der| - 65;
      var prefix, x, y := der[..n], der[n + 1..n + 33], der[n + 33..];
      assert der == prefix + [4] + x + y;
    }
    if EndsInPoint(der) {
      var prefix, x, y :| |x| == 32 && |y| == 32 && der == prefix + [4] + x + y;
      CoordinatesSurvive(prefix, x, y);
    }
  }
}
