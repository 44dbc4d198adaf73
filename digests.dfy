/**
 * `Data.sha1` of Data+Digests.swift: the SHA-1 digest of the data, each byte
 * written as two lowercase hexadecimal digits (`%02x`), joined in byte order.
 * The hash itself (section 6.1 of FIPS 180-4) is not computed here: it is a
 * function value handed in by the caller, typed to return exactly 20 bytes.
 */
module Digests {
  import opened Wrappers
  import opened Octets

  /** A SHA-1 digest: 160 bits. */
  type Digest = d: Bytes | |d| == 20 witness seq(20, i => 0)

  predicate IsLowerHexDigit(c: char) {
    '0' <= c <= '9' || 'a' <= c <= 'f'
  }

  function HexDigit(v: int): (c: char)
    requires 0 <= v < 16
    ensures IsLowerHexDigit(c)
  {
    if v < 10 then ('0' as int + v) as char else ('a' as int + (v - 10)) as char
  }

  /** The value of a lowercase hexadecimal digit; the inverse of HexDigit. */
  function DigitValue(c: char): (v: int)
    requires IsLowerHexDigit(c)
    ensures 0 <= v < 16 && HexDigit(v) == c
  {
    if c <= '9' then c as int - '0' as int else c as int - 'a' as int + 10
  }

  /** One byte as `String(format: "%02x", b)`: always two digits, high nibble first. */
  function HexByte(b: byte): string {
    [HexDigit(b / 16), HexDigit(b % 16)]
  }

  /** The bytes formatted one by one and joined, as `map` then `joined()` do. */
  function Hex(b: Bytes): (s: string)
    ensures |s| == 2 * |b|
    ensures forall i | 0 <= i < |s| :: IsLowerHexDigit(s[i])
  {
    if b == [] then "" else HexByte(b[0]) + Hex(b[1..])
  }

  /** `data.sha1`: the hex text of the digest of `data`. */
  function Sha1Hex(data: Bytes, sha1: Bytes -> Digest): (s: string)
    ensures |s| == 40
    ensures forall i | 0 <= i < |s| :: IsLowerHexDigit(s[i])
    ensures forall i | 0 <= i < 20 :: s[2 * i .. 2 * i + 2] == HexByte(sha1(data)[i])
    ensures Unhex(s) == Some(sha1(data))
  {
    UnhexHex(sha1(data));
    HexPairs(sha1(data));
    Hex(sha1(data))
  }

  /** The text follows the bytes' order. */
  lemma {:induction false} HexAppend(a: Bytes, b: Bytes)
    ensures Hex(a + b) == Hex(a) + Hex(b)
  {
    if a != [] {
      assert (a + b)[0] == a[0] && (a + b)[1..] == a[1..] + b;
      HexAppend(a[1..], b);
      assert Hex(a + b) == HexByte(a[0]) + Hex(a[1..] + b);
      assert Hex(a) == HexByte(a[0]) + Hex(a[1..]);
    } else {
      assert a + b == b;
    }
  }

  /** Byte `i` occupies exactly characters `2i` and `2i+1`. */
  lemma {:induction false} HexAt(b: Bytes, i: nat)
    requires i < |b|
    ensures Hex(b)[2 * i .. 2 * i + 2] == HexByte(b[i])
  {
    if i > 0 {
      HexAt(b[1..], i - 1);
      assert Hex(b) == HexByte(b[0]) + Hex(b[1..]);
    }
  }

  /** Every byte, at once: the text is the bytes' two-digit forms side by side. */
  lemma HexPairs(b: Bytes)
    ensures forall i | 0 <= i < |b| :: Hex(b)[2 * i .. 2 * i + 2] == HexByte(b[i])
  {
    forall i | 0 <= i < |b|
      ensures Hex(b)[2 * i .. 2 * i + 2] == HexByte(b[i])
    {
      HexAt(b, i);
    }
  }

  /** Reading the text back two digits at a time. */
  function Unhex(s: string): Option<Bytes>
    decreases |s|
  {
    if s == [] then Some([])
    else if |s| < 2 || !IsLowerHexDigit(s[0]) || !IsLowerHexDigit(s[1]) then None
    else match Unhex(s[2..])
      case None => None
      case Some(rest) => Some([DigitValue(s[0]) * 16 + DigitValue(s[1])] + rest)
  }

  lemma HexDigitValue(v: int)
    requires 0 <= v < 16
    ensures DigitValue(HexDigit(v)) == v
  {
  }

  /** The fixed width makes the format injective: the text gives back the digest. */
  lemma {:induction false} UnhexHex(b: Bytes)
    ensures Unhex(Hex(b)) == Some(b)
  {
    if b != [] {
      var s := Hex(b);
      assert s == HexByte(b[0]) + Hex(b[1..]);
      assert s[2..] == Hex(b[1..]);
      HexDigitValue(b[0] / 16);
      HexDigitValue(b[0] % 16);
      UnhexHex(b[1..]);
      assert [b[0]] + b[1..] == b;
    }
  }

  lemma HexInjective(a: Bytes, b: Bytes)
    requires Hex(a) == Hex(b)
    ensures a == b
  {
    UnhexHex(a);
    UnhexHex(b);
  }
}
