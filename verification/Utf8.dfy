/** Buffer.toString('utf8') and its inverse. Ill-formed input is replaced as the WHATWG
    decoder does: one U+FFFD for each maximal well-formed beginning. */
module Utf8 {
  import opened Bytes

  const REPLACEMENT: char := '\U{FFFD}'

  function EncodeChar(c: char): (bs: seq<Byte>)
    ensures 1 <= |bs| <= 4
  {
    var n := c as int;
    if n < 0x80 then [n]
    else if n < 0x800 then [0xC0 + n / 64, 0x80 + n % 64]
    else if n < 0x10000 then [0xE0 + n / 4096, 0x80 + n / 64 % 64, 0x80 + n % 64]
    else [0xF0 + n / 262144, 0x80 + n / 4096 % 64, 0x80 + n / 64 % 64, 0x80 + n % 64]
  }

  function Encode(text: seq<char>): seq<Byte> {
    if text == [] then [] else Encode(text[..|text| - 1]) + EncodeChar(text[|text| - 1])
  }

  /** Byte i of bs lies in [lo, hi]; false past the end. */
  predicate In(bs: seq<Byte>, i: nat, lo: int, hi: int) {
    i < |bs| && lo <= bs[i] <= hi
  }

  /** The second byte a given first byte allows (table 3-7 of the Unicode Standard). */
  predicate SecondByteOk(bs: seq<Byte>)
    requires bs != []
  {
    if bs[0] == 0xE0 then In(bs, 1, 0xA0, 0xBF)
    else if bs[0] == 0xED then In(bs, 1, 0x80, 0x9F)
    else if bs[0] == 0xF0 then In(bs, 1, 0x90, 0xBF)
    else if bs[0] == 0xF4 then In(bs, 1, 0x80, 0x8F)
    else In(bs, 1, 0x80, 0xBF)
  }

  /** The first character of a byte string and how many bytes it takes. */
  function DecodeFirst(bs: seq<Byte>): (r: (char, nat))
    requires bs != []
    ensures 1 <= r.1 <= |bs|
  {
    var b: int := bs[0];
    if b < 0x80 then (b as char, 1)
    else if b < 0xC2 || b > 0xF4 || !SecondByteOk(bs) then (REPLACEMENT, 1)
    else
      var b1: int := bs[1] - 0x80;
      if b < 0xE0 then (((b - 0xC0) * 64 + b1) as char, 2)
      else if !In(bs, 2, 0x80, 0xBF) then (REPLACEMENT, 2)
      else
        var b2: int := bs[2] - 0x80;
        if b < 0xF0 then (((b - 0xE0) * 4096 + b1 * 64 + b2) as char, 3)
        else if !In(bs, 3, 0x80, 0xBF) then (REPLACEMENT, 3)
        else
          var b3: int := bs[3] - 0x80;
          (((b - 0xF0) * 262144 + b1 * 4096 + b2 * 64 + b3) as char, 4)
  }

  function Decode(bs: seq<Byte>): seq<char> {
    if bs == [] then []
    else
      var (c, n) := DecodeFirst(bs);
      [c] + Decode(bs[n..])
  }

  lemma {:induction false} FirstRoundTrip(c: char, rest: seq<Byte>)
    ensures DecodeFirst(EncodeChar(c) + rest) == (c, |EncodeChar(c)|)
  {
    var n := c as int;
    var bs := EncodeChar(c) + rest;
    if n < 0x80 {
    } else if n < 0x800 {
      assert SecondByteOk(bs);
    } else if n < 0x10000 {
      ThreeBytes(c, rest);
    } else {
      FourBytes(c, rest);
    }
  }

  lemma ThreeDigits(n: nat)
    requires 0x800 <= n < 0x10000
    ensures n / 4096 * 4096 + n / 64 % 64 * 64 + n % 64 == n
    ensures n / 4096 < 16 && (n / 4096 == 0 ==> n / 64 % 64 >= 32)
    ensures n / 4096 == 13 && n < 0xD800 ==> n / 64 % 64 < 32
    ensures n / 4096 == 13 ==> n < 0xE000
  {
    var q := n / 64;
    assert n / 4096 == q / 64;
  }

  lemma ThreeBytes(c: char, rest: seq<Byte>)
    requires 0x800 <= c as int < 0x10000
    ensures DecodeFirst(EncodeChar(c) + rest) == (c, 3)
  {
    var n := c as int;
    var n2, n1, n0 := n / 4096, n / 64 % 64, n % 64;
    ThreeDigits(n);
    var bs := EncodeChar(c) + rest;
    assert bs[0] == 0xE0 + n2 && bs[1] == 0x80 + n1 && bs[2] == 0x80 + n0;
    ThreeBytesRead(bs, n2, n1, n0);
  }

  lemma ThreeBytesRead(bs: seq<Byte>, n2: int, n1: int, n0: int)
    requires |bs| >= 3 && 0 <= n2 < 16 && 0 <= n1 < 64 && 0 <= n0 < 64
    requires (n2 == 0 ==> n1 >= 32) && (n2 == 13 ==> n1 < 32)
    requires bs[0] == 0xE0 + n2 && bs[1] == 0x80 + n1 && bs[2] == 0x80 + n0
    ensures DecodeFirst(bs) == ((n2 * 4096 + n1 * 64 + n0) as char, 3)
  {
  }

  /** A code point above the basic plane, cut into six-bit digits. */
  lemma Digits(n: nat)
    requires 0x10000 <= n < 0x110000
    ensures var a, b, c, d := n / 262144, n / 4096 % 64, n / 64 % 64, n % 64;
            && a * 262144 + b * 4096 + c * 64 + d == n
            && a <= 4 && (a == 0 ==> b >= 16) && (a == 4 ==> b < 16)
  {
    var q := n / 64;
    var p := q / 64;
    assert n / 4096 == p;
    assert n / 262144 == p / 64;
  }

  lemma {:induction false} FourBytes(c: char, rest: seq<Byte>)
    requires 0x10000 <= c as int
    ensures DecodeFirst(EncodeChar(c) + rest) == (c, 4)
  {
    var n := c as int;
    var n3, n2, n1, n0 := n / 262144, n / 4096 % 64, n / 64 % 64, n % 64;
    Digits(n);
    var bs := EncodeChar(c) + rest;
    assert bs[0] == 0xF0 + n3 && bs[1] == 0x80 + n2 && bs[2] == 0x80 + n1 && bs[3] == 0x80 + n0;
    FourBytesRead(bs, n3, n2, n1, n0);
  }

  lemma FourBytesRead(bs: seq<Byte>, n3: int, n2: int, n1: int, n0: int)
    requires |bs| >= 4 && 0 <= n3 <= 4 && 0 <= n2 < 64 && 0 <= n1 < 64 && 0 <= n0 < 64
    requires (n3 == 0 ==> n2 >= 16) && (n3 == 4 ==> n2 < 16)
    requires bs[0] == 0xF0 + n3 && bs[1] == 0x80 + n2 && bs[2] == 0x80 + n1 && bs[3] == 0x80 + n0
    ensures DecodeFirst(bs) == ((n3 * 262144 + n2 * 4096 + n1 * 64 + n0) as char, 4)
  {
  }

  lemma TwoBytesKept(bs: seq<Byte>, n1: int, n0: int)
    requires |bs| >= 2 && 2 <= n1 < 32 && 0 <= n0 < 64
    requires bs[0] == 0xC0 + n1 && bs[1] == 0x80 + n0
    ensures EncodeChar((n1 * 64 + n0) as char) == bs[..2]
  {
  }

  lemma ThreeBytesKept(bs: seq<Byte>, n2: int, n1: int, n0: int)
    requires |bs| >= 3 && 0 <= n2 < 16 && 0 <= n1 < 64 && 0 <= n0 < 64
    requires (n2 == 0 ==> n1 >= 32) && (n2 == 13 ==> n1 < 32)
    requires bs[0] == 0xE0 + n2 && bs[1] == 0x80 + n1 && bs[2] == 0x80 + n0
    ensures EncodeChar((n2 * 4096 + n1 * 64 + n0) as char) == bs[..3]
  {
    var n := n2 * 4096 + n1 * 64 + n0;
    assert n / 64 == n2 * 64 + n1;
    assert n / 4096 == n2;
  }

  lemma FourBytesKept(bs: seq<Byte>, n3: int, n2: int, n1: int, n0: int)
    requires |bs| >= 4 && 0 <= n3 <= 4 && 0 <= n2 < 64 && 0 <= n1 < 64 && 0 <= n0 < 64
    requires (n3 == 0 ==> n2 >= 16) && (n3 == 4 ==> n2 < 16)
    requires bs[0] == 0xF0 + n3 && bs[1] == 0x80 + n2 && bs[2] == 0x80 + n1 && bs[3] == 0x80 + n0
    ensures EncodeChar((n3 * 262144 + n2 * 4096 + n1 * 64 + n0) as char) == bs[..4]
  {
    var n := n3 * 262144 + n2 * 4096 + n1 * 64 + n0;
    assert n / 64 == n3 * 4096 + n2 * 64 + n1;
    assert n / 4096 == n3 * 64 + n2;
    assert n / 262144 == n3;
  }

  lemma ReadIsKept(bs: seq<Byte>)
    requires bs != [] && DecodeFirst(bs).0 != REPLACEMENT
    ensures EncodeChar(DecodeFirst(bs).0) == bs[..DecodeFirst(bs).1]
  {
    if bs[0] >= 0xF0 {
      FourBytesKept(bs, bs[0] - 0xF0, bs[1] - 0x80, bs[2] - 0x80, bs[3] - 0x80);
    } else if bs[0] >= 0xE0 {
      ThreeBytesKept(bs, bs[0] - 0xE0, bs[1] - 0x80, bs[2] - 0x80);
    } else if bs[0] >= 0x80 {
      TwoBytesKept(bs, bs[0] - 0xC0, bs[1] - 0x80);
    }
  }

  /** A character that is read stands in the bytes taken, unless it is the replacement. */
  lemma {:induction false} FirstIsEncoded(bs: seq<Byte>)
    requires bs != []
    ensures var (c, n) := DecodeFirst(bs);
            EncodeChar(c) == bs[..n] || (c == REPLACEMENT && forall d :: !(EncodeChar(d) <= bs))
  {
    var (c, n) := DecodeFirst(bs);
    if c != REPLACEMENT {
      ReadIsKept(bs);
    }
    forall d | EncodeChar(d) <= bs
      ensures EncodeChar(c) == bs[..n]
    {
      assert bs == EncodeChar(d) + bs[|EncodeChar(d)|..];
      FirstRoundTrip(d, bs[|EncodeChar(d)|..]);
    }
  }

  lemma {:induction false} EncodeAppend(a: seq<char>, b: seq<char>)
    ensures Encode(a + b) == Encode(a) + Encode(b)
  {
    if b == [] {
      assert a + b == a;
    } else {
      var init, last := b[..|b| - 1], b[|b| - 1];
      EncodeAppend(a, init);
      assert (a + b)[..|a + b| - 1] == a + init && (a + b)[|a + b| - 1] == last;
      assert Encode(a) + (Encode(init) + EncodeChar(last)) == (Encode(a) + Encode(init)) + EncodeChar(last);
    }
  }

  /** Decoding inverts encoding for every text. */
  lemma {:induction false} TextRoundTrip(text: seq<char>)
    ensures Decode(Encode(text)) == text
  {
    if text != [] {
      var c, rest := text[0], text[1..];
      EncodeAppend([c], rest);
      assert text == [c] + rest;
      assert Encode([c]) == EncodeChar(c) by { assert [c][..0] == []; }
      var bs := EncodeChar(c) + Encode(rest);
      FirstRoundTrip(c, Encode(rest));
      assert bs[|EncodeChar(c)|..] == Encode(rest);
      TextRoundTrip(rest);
    }
  }

  ghost predicate WellFormed(bs: seq<Byte>) {
    exists text :: bs == Encode(text)
  }

  /** Reading bytes as text and writing the text back is lossless for well-formed UTF-8 only. */
  lemma LosslessIffWellFormed(bs: seq<Byte>)
    ensures Encode(Decode(bs)) == bs <==> WellFormed(bs)
  {
    if WellFormed(bs) {
      var text :| bs == Encode(text);
      TextRoundTrip(text);
    }
  }
}
