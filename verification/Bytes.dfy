/** Byte strings, big-endian numbers and hexadecimal text. */
module Bytes {

  type Byte = b: int | 0 <= b < 256

  type Nibble = d: int | 0 <= d < 16

  /** 256 to the k. */
  function Pow256(k: nat): (p: nat)
    ensures p >= 1
  {
    if k == 0 then 1 else 256 * Pow256(k - 1)
  }

  /** 2 to the 256, one more than a word of 32 bytes can hold. */
  const UINT256: nat := 0x1_0000000000000000_0000000000000000_0000000000000000_0000000000000000

  lemma {:induction false} PowSplit(a: nat, b: nat)
    ensures Pow256(a + b) == Pow256(a) * Pow256(b)
  {
    if a > 0 {
      PowSplit(a - 1, b);
      assert Pow256(a + b) == 256 * Pow256(a + b - 1);
    }
  }

  lemma EightBytes()
    ensures Pow256(8) == 0x1_0000_0000_0000_0000
  {
    assert Pow256(4) == 0x1_0000_0000;
    PowSplit(4, 4);
  }

  lemma Square(n: nat, p: nat)
    requires Pow256(n) == p
    ensures Pow256(n + n) == p * p
  {
    PowSplit(n, n);
  }

  lemma WordSize()
    ensures Pow256(32) == UINT256
  {
    EightBytes();
    Square(8, 0x1_0000_0000_0000_0000);
    Square(16, 0x1_0000_0000_0000_0000 * 0x1_0000_0000_0000_0000);
  }

  function FromBE(bs: seq<Byte>): nat {
    if bs == [] then 0 else FromBE(bs[..|bs| - 1]) * 256 + bs[|bs| - 1]
  }

  function ToBE(n: nat, len: nat): (bs: seq<Byte>)
    ensures |bs| == len
  {
    seq(len, i requires 0 <= i < len => n / Pow256(len - 1 - i) % 256)
  }

  lemma {:induction false} QuotientIs(n: int, d: int, q: int, r: int)
    requires n == q * d + r && 0 <= r < d
    ensures n / d == q
  {
    var e := n / d - q;
    assert n / d * d + n % d == n;
    assert e * d == n / d * d - q * d;
    assert e >= 1 ==> e * d >= d;
    assert e <= -1 ==> e * d <= 0 - d;
  }

  lemma {:induction false} DivideTwice(n: nat, p: nat)
    requires p > 0
    ensures n / (256 * p) == n / 256 / p
  {
    var q := n / 256;
    var a := q / p;
    assert n == 256 * q + n % 256 && q == a * p + q % p;
    assert n == a * (256 * p) + (256 * (q % p) + n % 256);
    QuotientIs(n, 256 * p, a, 256 * (q % p) + n % 256);
  }

  lemma LastByte(n: nat, len: nat)
    requires len > 0
    ensures ToBE(n, len) == ToBE(n / 256, len - 1) + [n % 256]
  {
    forall i | 0 <= i < len - 1
      ensures ToBE(n, len)[i] == ToBE(n / 256, len - 1)[i]
    {
      var p := Pow256(len - 2 - i);
      DivideTwice(n, p);
      assert Pow256(len - 1 - i) == 256 * p;
      assert ToBE(n, len)[i] == n / (256 * p) % 256;
      assert ToBE(n / 256, len - 1)[i] == n / 256 / p % 256;
    }
    assert Pow256(0) == 1;
  }

  lemma {:induction false} ToThenFrom(n: nat, len: nat)
    requires n < Pow256(len)
    ensures FromBE(ToBE(n, len)) == n
  {
    if len > 0 {
      LastByte(n, len);
      ToThenFrom(n / 256, len - 1);
      assert ToBE(n, len)[..len - 1] == ToBE(n / 256, len - 1);
    }
  }

  lemma Cut(n: nat, b: Byte)
    ensures (n * 256 + b) / 256 == n && (n * 256 + b) % 256 == b
  {
  }

  lemma {:induction false} FromThenTo(bs: seq<Byte>)
    ensures FromBE(bs) < Pow256(|bs|)
    ensures ToBE(FromBE(bs), |bs|) == bs
  {
    if bs != [] {
      var init, last := bs[..|bs| - 1], bs[|bs| - 1];
      FromThenTo(init);
      Cut(FromBE(init), last);
      LastByte(FromBE(bs), |bs|);
      assert Pow256(|bs|) == 256 * Pow256(|init|);
      assert bs == init + [last];
    }
  }

  lemma {:induction false} LeadingZero(bs: seq<Byte>)
    ensures FromBE([0] + bs) == FromBE(bs)
  {
    if bs == [] {
      assert [0] + bs == [0];
      assert [0][..0] == [];
    } else {
      LeadingZero(bs[..|bs| - 1]);
      assert ([0] + bs)[..|bs|] == [0] + bs[..|bs| - 1];
    }
  }

  function Zeros(n: nat): (bs: seq<Byte>)
    ensures |bs| == n
  {
    seq(n, i => 0)
  }

  /** The middle of a concatenation. */
  lemma Middle<T>(a: seq<T>, b: seq<T>, c: seq<T>)
    ensures (a + b + c)[|a|..|a| + |b|] == b
    ensures (a + (b + c))[|a|..|a| + |b|] == b
  {
  }

  // ---- Hexadecimal ----

  function ToHex(bs: seq<Byte>): (ds: seq<Nibble>)
    ensures |ds| == 2 * |bs|
  {
    if bs == [] then []
    else ToHex(bs[..|bs| - 1]) + [bs[|bs| - 1] / 16, bs[|bs| - 1] % 16]
  }

  /** Buffer.from(text, 'hex') on an even number of digits. */
  function FromHex(ds: seq<Nibble>): seq<Byte>
    requires |ds| % 2 == 0
  {
    if ds == [] then []
    else
      var hi: int, lo: int := ds[|ds| - 2], ds[|ds| - 1];
      FromHex(ds[..|ds| - 2]) + [16 * hi + lo]
  }

  /** BigInt('0x' + text). */
  function HexValue(ds: seq<Nibble>): nat {
    if ds == [] then 0 else HexValue(ds[..|ds| - 1]) * 16 + ds[|ds| - 1]
  }

  /** n.toString(16). */
  function HexText(n: nat): (ds: seq<Nibble>)
    ensures |ds| > 0
  {
    if n < 16 then [n] else HexText(n / 16) + [n % 16]
  }

  /** text.padStart(len, '0'). */
  function PadStart(ds: seq<Nibble>, len: nat): seq<Nibble>
    decreases len - |ds|
  {
    if |ds| >= len then ds else PadStart([0] + ds, len)
  }

  /** The digits of n in a field of fixed width. */
  function FixedHex(n: nat, len: nat): (ds: seq<Nibble>)
    ensures |ds| == len
  {
    if len == 0 then [] else FixedHex(n / 16, len - 1) + [n % 16]
  }

  lemma HexValuePair(ds: seq<Nibble>, hi: Nibble, lo: Nibble)
    ensures HexValue(ds + [hi, lo]) == HexValue(ds) * 256 + (16 * hi + lo)
  {
    var es := ds + [hi, lo];
    assert es[..|es| - 1] == ds + [hi];
    assert (ds + [hi])[..|ds|] == ds;
    assert HexValue(ds + [hi]) == HexValue(ds) * 16 + hi;
  }

  lemma {:induction false} HexOfBytes(bs: seq<Byte>)
    ensures HexValue(ToHex(bs)) == FromBE(bs)
  {
    if bs != [] {
      HexOfBytes(bs[..|bs| - 1]);
      HexValuePair(ToHex(bs[..|bs| - 1]), bs[|bs| - 1] / 16, bs[|bs| - 1] % 16);
    }
  }

  lemma {:induction false} BytesOfHex(bs: seq<Byte>)
    ensures FromHex(ToHex(bs)) == bs
  {
    if bs != [] {
      var init, last := bs[..|bs| - 1], bs[|bs| - 1];
      BytesOfHex(init);
      var ds := ToHex(bs);
      assert ds[..|ds| - 2] == ToHex(init);
      assert bs == init + [last];
    }
  }

  lemma {:induction false} FixedOfBytes(bs: seq<Byte>)
    ensures FixedHex(FromBE(bs), 2 * |bs|) == ToHex(bs)
  {
    if bs != [] {
      var init, last := bs[..|bs| - 1], bs[|bs| - 1];
      FixedOfBytes(init);
      var n := FromBE(bs);
      assert n / 16 == FromBE(init) * 16 + last / 16;
      assert n / 16 / 16 == FromBE(init);
      assert FixedHex(n, 2 * |bs|) == FixedHex(n / 16, 2 * |bs| - 1) + [n % 16];
      assert FixedHex(n / 16, 2 * |bs| - 1) == FixedHex(FromBE(init), 2 * |init|) + [last / 16];
    }
  }

  lemma {:induction false} FixedZero(len: nat)
    ensures FixedHex(0, len) == seq(len, i => 0)
  {
    if len > 0 {
      FixedZero(len - 1);
    }
  }

  lemma {:induction false} PadShape(ds: seq<Nibble>, len: nat)
    requires |ds| <= len
    ensures PadStart(ds, len) == seq(len - |ds|, i => 0) + ds
    decreases len - |ds|
  {
    if |ds| < len {
      PadShape([0] + ds, len);
      assert seq(len - |ds| - 1, i => 0) + ([0] + ds) == seq(len - |ds|, i => 0) + ds;
    }
  }

  /** 16 to the k. */
  function Pow16(k: nat): (p: nat)
    ensures p >= 1
  {
    if k == 0 then 1 else 16 * Pow16(k - 1)
  }

  lemma {:induction false} PaddedIsFixed(n: nat, len: nat)
    requires len >= 1 && n < Pow16(len)
    ensures |HexText(n)| <= len
    ensures PadStart(HexText(n), len) == FixedHex(n, len)
  {
    if n < 16 {
      PadShape([n], len);
      FixedZero(len - 1);
    } else {
      assert len > 1;
      PaddedIsFixed(n / 16, len - 1);
      PadShape(HexText(n / 16), len - 1);
      PadShape(HexText(n), len);
      assert PadStart(HexText(n), len) == PadStart(HexText(n / 16), len - 1) + [n % 16];
    }
  }

  lemma {:induction false} PowersAgree(k: nat)
    ensures Pow16(2 * k) == Pow256(k)
  {
    if k > 0 {
      PowersAgree(k - 1);
      assert Pow16(2 * k) == 16 * Pow16(2 * k - 1);
      assert Pow16(2 * k - 1) == 16 * Pow16(2 * k - 2);
    }
  }

  /** Printing a big-endian number in padded hexadecimal and reading it back as bytes
      restores every byte, leading zeros included. */
  lemma PaddedHexRestores(bs: seq<Byte>)
    requires bs != []
    ensures |PadStart(HexText(FromBE(bs)), 2 * |bs|)| == 2 * |bs|
    ensures FromHex(PadStart(HexText(FromBE(bs)), 2 * |bs|)) == bs
  {
    FromThenTo(bs);
    PowersAgree(|bs|);
    PaddedIsFixed(FromBE(bs), 2 * |bs|);
    FixedOfBytes(bs);
    BytesOfHex(bs);
  }
}
