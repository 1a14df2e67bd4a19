/**
 * Binary and hexadecimal renderings of natural numbers, as produced by Python's
 * `format(b, '08b')`, `int(s, 2)`, `int(s, 16)`, `hex(n)[2:]` and `format(n, '016x')`.
 */
module Radix {
  import opened Text

  type Byte = b: int | 0 <= b < 256
  type Bit = b: int | 0 <= b <= 1

  function Pow(b: nat, e: nat): (r: nat)
    ensures b >= 1 ==> r >= 1
  {
    if e == 0 then 1 else b * Pow(b, e - 1)
  }

  lemma MulAtLeast(a: nat, k: nat)
    requires k >= 1
    ensures a <= k * a
  {
    assert k * a == (k - 1) * a + a;
  }

  lemma MulRotate(a: int, p: int, q: int)
    ensures a * (p * q) == p * (a * q)
  {
  }

  lemma {:induction false} PowAdd(b: nat, x: nat, y: nat)
    ensures Pow(b, x + y) == Pow(b, x) * Pow(b, y)
    decreases y
  {
    if y > 0 {
      PowAdd(b, x, y - 1);
      assert Pow(b, x + y) == b * Pow(b, x + (y - 1));
      MulRotate(b, Pow(b, x), Pow(b, y - 1));
    }
  }

  /** Powers of a positive base grow with the exponent. */
  lemma {:induction false} PowMonotone(b: nat, x: nat, y: nat)
    requires b >= 1 && x <= y
    ensures Pow(b, x) <= Pow(b, y)
    decreases y - x
  {
    if x < y {
      PowMonotone(b, x, y - 1);
      assert Pow(b, y) == b * Pow(b, y - 1);
      MulAtLeast(Pow(b, y - 1), b);
    }
  }

  lemma {:induction false} PowTwoFour(k: nat)
    ensures Pow(2, 4 * k) == Pow(16, k)
    decreases k
  {
    if k > 0 {
      PowTwoFour(k - 1);
      PowAdd(2, 4 * (k - 1), 4);
    }
  }

  // ---------------------------------------------------------------- binary strings

  predicate IsBinary(s: string)
  {
    forall i :: 0 <= i < |s| ==> s[i] == '0' || s[i] == '1'
  }

  /** `int(s, 2)` for a string of '0'/'1' characters (the empty string reads as 0 here). */
  function BinValue(s: string): nat
  {
    if |s| == 0 then 0 else 2 * BinValue(s[..|s| - 1]) + (if s[|s| - 1] == '1' then 1 else 0)
  }

  lemma {:induction false} BinValueAppend(a: string, b: string)
    ensures BinValue(a + b) == BinValue(a) * Pow(2, |b|) + BinValue(b)
    decreases |b|
  {
    if |b| > 0 {
      var b' := b[..|b| - 1];
      var bit := if b[|b| - 1] == '1' then 1 else 0;
      assert (a + b)[..|a + b| - 1] == a + b';
      BinValueAppend(a, b');
      var x, p := BinValue(a), Pow(2, |b'|);
      assert BinValue(a + b) == 2 * BinValue(a + b') + bit;
      assert BinValue(b) == 2 * BinValue(b') + bit;
      assert Pow(2, |b|) == 2 * p;
      MulRotate(2, x, p);
    } else {
      assert a + b == a;
    }
  }

  lemma {:induction false} BinValueBound(s: string)
    ensures BinValue(s) < Pow(2, |s|)
    decreases |s|
  {
    if |s| > 0 {
      BinValueBound(s[..|s| - 1]);
    }
  }

  lemma {:induction false} BinValueOfZeros(k: int)
    ensures BinValue(Zeros(k)) == 0
    decreases if k > 0 then k else 0
  {
    if k > 0 {
      assert Zeros(k)[..|Zeros(k)| - 1] == Zeros(k - 1);
      BinValueOfZeros(k - 1);
    }
  }

  /** Leading zeros do not change a binary value. */
  lemma ZeroPaddingKeepsValue(k: int, s: string)
    ensures BinValue(Zeros(k) + s) == BinValue(s)
  {
    BinValueAppend(Zeros(k), s);
    BinValueOfZeros(k);
  }

  /** The low `w` bits of `v`, most significant first: `format(v, '0{w}b')` when `v < 2^w`. */
  function Bits(v: nat, w: nat): (r: string)
    ensures |r| == w
  {
    if w == 0 then "" else Bits(v / 2, w - 1) + [if v % 2 == 1 then '1' else '0']
  }

  /** `format(v, '0{w}b')` for `v < 2^w` is a binary string that reads back as `v`. */
  lemma {:induction false} BitsValue(v: nat, w: nat)
    requires v < Pow(2, w)
    ensures IsBinary(Bits(v, w))
    ensures BinValue(Bits(v, w)) == v
    decreases w
  {
    if w > 0 {
      BitsValue(v / 2, w - 1);
      var r := Bits(v, w);
      assert r[..|r| - 1] == Bits(v / 2, w - 1);
    }
  }

  /** Concatenation of `format(byte, '08b')` over a byte string. */
  function BitString(bytes: seq<Byte>): (r: string)
    ensures |r| == 8 * |bytes|
  {
    if |bytes| == 0 then "" else BitString(bytes[..|bytes| - 1]) + Bits(bytes[|bytes| - 1], 8)
  }

  /** The big-endian number a byte string denotes. */
  function BytesValue(bytes: seq<Byte>): nat
  {
    if |bytes| == 0 then 0 else 256 * BytesValue(bytes[..|bytes| - 1]) + bytes[|bytes| - 1]
  }

  /** The bit string of a byte string is binary and reads back as the same big-endian number. */
  lemma {:induction false} BitStringValue(bytes: seq<Byte>)
    ensures IsBinary(BitString(bytes))
    ensures BinValue(BitString(bytes)) == BytesValue(bytes)
    decreases |bytes|
  {
    if |bytes| > 0 {
      var init := bytes[..|bytes| - 1];
      var last := bytes[|bytes| - 1];
      var s, t := BitString(init), Bits(last, 8);
      BitStringValue(init);
      ByteBits(last);
      BinValueAppend(s, t);
      assert BitString(bytes) == s + t;
      assert BinValue(s + t) == BinValue(s) * 256 + last;
    }
  }

  /** One byte is eight binary digits carrying its value. */
  lemma ByteBits(b: Byte)
    ensures IsBinary(Bits(b, 8)) && BinValue(Bits(b, 8)) == b
    ensures Pow(2, |Bits(b, 8)|) == 256
  {
    assert Pow(2, 8) == 256;
    BitsValue(b, 8);
  }

  // ---------------------------------------------------------------- hexadecimal strings

  const HexDigits := "0123456789abcdef"

  predicate IsLowerHex(s: string)
  {
    forall i :: 0 <= i < |s| ==> s[i] in HexDigits
  }

  predicate IsHexDigit(c: char)
  {
    ('0' <= c <= '9') || ('a' <= c <= 'f') || ('A' <= c <= 'F')
  }

  /** Digit strings `int(s, 16)` accepts without a sign, prefix, space or underscore. */
  predicate IsHexDigits(s: string)
  {
    forall i :: 0 <= i < |s| ==> IsHexDigit(s[i])
  }

  function HexDigitValue(c: char): nat
  {
    if '0' <= c <= '9' then c as int - '0' as int
    else if 'a' <= c <= 'f' then c as int - 'a' as int + 10
    else if 'A' <= c <= 'F' then c as int - 'A' as int + 10
    else 0
  }

  /** `int(s, 16)` for a string of hex digits of either case. */
  function HexValue(s: string): nat
  {
    if |s| == 0 then 0 else 16 * HexValue(s[..|s| - 1]) + HexDigitValue(s[|s| - 1])
  }

  lemma HexDigitRoundTrip(k: nat)
    requires k < 16
    ensures HexDigitValue(HexDigits[k]) == k
  {
  }

  lemma {:induction false} HexValueOfZeros(k: int)
    ensures HexValue(Zeros(k)) == 0
    decreases if k > 0 then k else 0
  {
    if k > 0 {
      assert Zeros(k)[..|Zeros(k)| - 1] == Zeros(k - 1);
      HexValueOfZeros(k - 1);
    }
  }

  /** Leading zeros do not change a hex value. */
  lemma {:induction false} HexValueOfZerosPrefix(k: int, s: string)
    ensures HexValue(Zeros(k) + s) == HexValue(s)
    decreases |s|
  {
    if |s| > 0 {
      var s' := s[..|s| - 1];
      assert (Zeros(k) + s)[..|Zeros(k) + s| - 1] == Zeros(k) + s';
      HexValueOfZerosPrefix(k, s');
    } else {
      assert Zeros(k) + s == Zeros(k);
      HexValueOfZeros(k);
    }
  }

  /** `hex(n)[2:]`: lower-case hex digits without leading zeros ("0" for zero). */
  function NatToHex(n: nat): (r: string)
    ensures |r| >= 1
  {
    if n < 16 then [HexDigits[n]] else NatToHex(n / 16) + [HexDigits[n % 16]]
  }

  /** `hex(n)[2:]` reads back as `n`, uses lower-case digits only and has no leading zero. */
  lemma {:induction false} NatToHexMeaning(n: nat)
    ensures HexValue(NatToHex(n)) == n
    ensures IsLowerHex(NatToHex(n))
    ensures |NatToHex(n)| > 1 ==> NatToHex(n)[0] != '0'
    ensures n == 0 <==> NatToHex(n) == "0"
    decreases n
  {
    var r := NatToHex(n);
    if n < 16 {
      HexDigitRoundTrip(n);
    } else {
      NatToHexMeaning(n / 16);
      HexDigitRoundTrip(n % 16);
      assert r[..|r| - 1] == NatToHex(n / 16);
      assert r[0] == NatToHex(n / 16)[0];
      assert r != "0" by { assert |r| >= 2; }
    }
  }

  /** A value below `16^k` (k >= 1) needs at most `k` hex digits. */
  lemma {:induction false} NatToHexWidth(n: nat, k: nat)
    requires k >= 1 && n < Pow(16, k)
    ensures |NatToHex(n)| <= k
    decreases k
  {
    if n >= 16 {
      assert Pow(16, k) == 16 * Pow(16, k - 1);
      assert n / 16 < Pow(16, k - 1);
      NatToHexWidth(n / 16, k - 1);
    }
  }

  /** `format(n, '0{w}x')`: at least `w` lower-case hex digits. */
  function HexWidth(n: nat, w: nat): string
  {
    ZFill(NatToHex(n), w)
  }

  /** A value below `16^w` renders in exactly `w` digits that read back as the value. */
  lemma HexWidthExact(n: nat, w: nat)
    requires w >= 1 && n < Pow(16, w)
    ensures |HexWidth(n, w)| == w
    ensures IsLowerHex(HexWidth(n, w))
    ensures HexValue(HexWidth(n, w)) == n
  {
    NatToHexWidth(n, w);
    NatToHexMeaning(n);
    HexValueOfZerosPrefix(w - |NatToHex(n)|, NatToHex(n));
    var r := HexWidth(n, w);
    forall i | 0 <= i < |r|
      ensures r[i] in HexDigits
    {
      if i < w - |NatToHex(n)| {
        assert r[i] == '0';
        assert HexDigits[0] == '0';
      } else {
        assert r[i] == NatToHex(n)[i - (w - |NatToHex(n)|)];
      }
    }
  }

  // ---------------------------------------------------------------- bitstring_to_hex

  /** Left padding with '0' to the next multiple of four characters. */
  function PadToNibbles(bits: string): (r: string)
    ensures |r| % 4 == 0 && |bits| <= |r| < |bits| + 4
  {
    var padding := |bits| % 4;
    if padding != 0 then Zeros(4 - padding) + bits else bits
  }

  /**
   * `bitstring_to_hex`: pad on the left to whole nibbles, read as a binary number and render it
   * with `hex(...)[2:]`. The result denotes the same number, uses lower-case digits, has no
   * leading zero digit and is never longer than the padded input divided by four.
   * `int('', 2)` raises, so the bit string must be non-empty.
   */
  function BitstringToHex(bits: string): (r: string)
    requires IsBinary(bits) && |bits| > 0
    ensures HexValue(r) == BinValue(bits)
    ensures IsLowerHex(r)
    ensures |r| > 1 ==> r[0] != '0'
    ensures 4 * |r| <= |PadToNibbles(bits)|
  {
    var padded := PadToNibbles(bits);
    PaddingKeepsValue(bits);
    RenderingFitsNibbles(padded);
    NatToHexMeaning(BinValue(padded));
    NatToHex(BinValue(padded))
  }

  lemma PaddingKeepsValue(bits: string)
    ensures BinValue(PadToNibbles(bits)) == BinValue(bits)
  {
    if |bits| % 4 != 0 {
      ZeroPaddingKeepsValue(4 - |bits| % 4, bits);
    }
  }

  lemma RenderingFitsNibbles(padded: string)
    requires |padded| > 0 && |padded| % 4 == 0
    ensures 4 * |NatToHex(BinValue(padded))| <= |padded|
  {
    var k := |padded| / 4;
    BinValueBound(padded);
    PowTwoFour(k);
    assert 4 * k == |padded|;
    NatToHexWidth(BinValue(padded), k);
  }

  /** The hex rendering has at most `ceil(len/4)` digits, one per padded nibble. */
  lemma BitstringToHexWidth(bits: string)
    requires IsBinary(bits) && |bits| > 0
    ensures |BitstringToHex(bits)| <= (|bits| + 3) / 4
  {
  }
}
