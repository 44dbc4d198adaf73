/**
 * UTF-8 (RFC 3629) over Dafny strings. A Dafny `char` is a Unicode scalar
 * value, so every string has an encoding: the Swift conversion
 * `String.data(using: .utf8)` that this stands for cannot fail here.
 */
module Utf8 {
  import opened Wrappers
  import opened Octets

  /** The bytes of one scalar value: one to four, the lead byte saying how many. */
  function EncodeScalar(c: char): (b: Bytes)
    ensures 1 <= |b| <= 4
    ensures |b| == 1 <==> c as int < 0x80
  {
    var v := c as int;
    if v < 0x80 then [v]
    else if v < 0x800 then [0xC0 + v / 64, 0x80 + v % 64]
    else if v < 0x1_0000 then [0xE0 + v / 4096, 0x80 + (v / 64) % 64, 0x80 + v % 64]
    else [0xF0 + v / 262144, 0x80 + (v / 4096) % 64, 0x80 + (v / 64) % 64, 0x80 + v % 64]
  }

  /** The UTF-8 encoding of a string: the encodings of its characters, in order. */
  function Encode(s: string): (b: Bytes)
    ensures |s| <= |b| <= 4 * |s|
  {
    if s == [] then [] else EncodeScalar(s[0]) + Encode(s[1..])
  }

  /** How many bytes a sequence starting with `lead` has; 0 when `lead` cannot start one. */
  function SequenceLength(lead: byte): nat {
    if lead < 0x80 then 1
    else if lead < 0xC0 then 0
    else if lead < 0xE0 then 2
    else if lead < 0xF0 then 3
    else if lead < 0xF8 then 4
    else 0
  }

  predicate IsContinuation(x: byte) {
    0x80 <= x < 0xC0
  }

  predicate IsScalarValue(v: int) {
    0 <= v < 0xD800 || 0xE000 <= v < 0x11_0000
  }

  /** The value carried by one multi-byte sequence whose lead byte announces its length. */
  function SequenceValue(b: Bytes): int
    requires 1 <= |b| <= 4 && SequenceLength(b[0]) == |b|
  {
    var b0, b1, b2, b3 := b[0] as int, Byte(b, 1), Byte(b, 2), Byte(b, 3);
    if |b| == 1 then b0
    else if |b| == 2 then (b0 - 0xC0) * 64 + (b1 - 0x80)
    else if |b| == 3 then (b0 - 0xE0) * 4096 + (b1 - 0x80) * 64 + (b2 - 0x80)
    else (b0 - 0xF0) * 262144 + (b1 - 0x80) * 4096 + (b2 - 0x80) * 64 + (b3 - 0x80)
  }

  /** The byte at `i` as an integer, 0 past the end. */
  function Byte(b: Bytes, i: nat): int {
    if i < |b| then b[i] as int else 0
  }

  /**
   * Decoding: None when the bytes are not a sequence of encoded scalar values.
   * (Overlong forms are accepted; only the round trip with Encode is relied on.)
   */
  function Decode(b: Bytes): (r: Option<string>)
    decreases |b|
  {
    if b == [] then Some([])
    else
      var n := SequenceLength(b[0]);
      if n == 0 || |b| < n || exists i | 1 <= i < n :: !IsContinuation(b[i]) then None
      else
        var v := SequenceValue(b[..n]);
        if !IsScalarValue(v) then None
        else match Decode(b[n..])
          case None => None
          case Some(rest) => Some([v as char] + rest)
  }

  lemma {:induction false} EncodeAppend(s: string, t: string)
    ensures Encode(s + t) == Encode(s) + Encode(t)
  {
    if s == [] {
      assert s + t == t;
    } else {
      assert (s + t)[1..] == s[1..] + t;
      EncodeAppend(s[1..], t);
    }
  }

  /** The lead byte of an encoded scalar announces its length, and the bytes carry its value. */
  lemma EncodeScalarDecodes(c: char)
    ensures var b := EncodeScalar(c);
      && SequenceLength(b[0]) == |b|
      && (forall i | 1 <= i < |b| :: IsContinuation(b[i]))
      && SequenceValue(b) == c as int
  {
    var v := c as int;
    if v < 0x80 {
    } else if v < 0x800 {
      assert v == (v / 64) * 64 + v % 64;
    } else if v < 0x1_0000 {
      assert v / 64 == (v / 4096) * 64 + (v / 64) % 64;
      assert v == (v / 64) * 64 + v % 64;
    } else {
      assert v / 4096 == (v / 262144) * 64 + (v / 4096) % 64;
      assert v / 64 == (v / 4096) * 64 + (v / 64) % 64;
      assert v == (v / 64) * 64 + v % 64;
    }
  }

  /** Decoding undoes encoding, so the encoding of strings is injective. */
  lemma {:induction false} DecodeEncode(s: string)
    ensures Decode(Encode(s)) == Some(s)
  {
    if s != [] {
      var head := EncodeScalar(s[0]);
      var b := Encode(s);
      assert b == head + Encode(s[1..]);
      EncodeScalarDecodes(s[0]);
      var n := |head|;
      assert b[..n] == head;
      assert b[n..] == Encode(s[1..]);
      assert forall i | 1 <= i < n :: b[i] == head[i];
      DecodeEncode(s[1..]);
      assert [s[0]] + s[1..] == s;
    }
  }

  lemma EncodeInjective(s: string, t: string)
    requires Encode(s) == Encode(t)
    ensures s == t
  {
    DecodeEncode(s);
    DecodeEncode(t);
  }

  /** Characters below 0x80 are their own single byte: ASCII text encodes as itself. */
  lemma {:induction false} EncodeAscii(s: string)
    requires forall i | 0 <= i < |s| :: s[i] as int < 0x80
    ensures |Encode(s)| == |s|
    ensures forall i | 0 <= i < |s| :: Encode(s)[i] == s[i] as int
  {
    if s != [] {
      EncodeAscii(s[1..]);
    }
  }
}
