/**
 * Base 64 encoding with the standard alphabet and `=` padding (section 4 of
 * RFC 4648), as Foundation's `Data.base64EncodedString()` produces it with no
 * options: no line breaks.
 */
module Base64 {
  import opened Wrappers
  import opened Octets

  type Sextet = x: int | 0 <= x < 64

  /** The character for a 6-bit value: A-Z, a-z, 0-9, '+', '/' (Table 1 of RFC 4648). */
  function Symbol(v: Sextet): (c: char)
    ensures c != '='
  {
    if v < 26 then ('A' as int + v) as char
    else if v < 52 then ('a' as int + (v - 26)) as char
    else if v < 62 then ('0' as int + (v - 52)) as char
    else if v == 62 then '+'
    else '/'
  }

  predicate IsSymbol(c: char) {
    'A' <= c <= 'Z' || 'a' <= c <= 'z' || '0' <= c <= '9' || c == '+' || c == '/'
  }

  /** The 6-bit value of an alphabet character; the inverse of Symbol. */
  function SymbolValue(c: char): (v: Sextet)
    requires IsSymbol(c)
    ensures Symbol(v) == c
  {
    if 'A' <= c <= 'Z' then c as int - 'A' as int
    else if 'a' <= c <= 'z' then c as int - 'a' as int + 26
    else if '0' <= c <= '9' then c as int - '0' as int + 52
    else if c == '+' then 62
    else 63
  }

  lemma SymbolValueOfSymbol(v: Sextet)
    ensures IsSymbol(Symbol(v)) && SymbolValue(Symbol(v)) == v
  {
  }

  /** Three bytes become four characters, most significant bits first. */
  function EncodeGroup(b0: byte, b1: byte, b2: byte): string {
    [Symbol(b0 / 4), Symbol((b0 % 4) * 16 + b1 / 16), Symbol((b1 % 16) * 4 + b2 / 64), Symbol(b2 % 64)]
  }

  /** The encoding: full groups of three, then a padded group for one or two leftover bytes. */
  function Encode(b: Bytes): (s: string)
    ensures |s| == 4 * ((|b| + 2) / 3)
    ensures forall i | 0 <= i < |s| :: IsSymbol(s[i]) || s[i] == '='
  {
    if |b| == 0 then ""
    else if |b| == 1 then [Symbol(b[0] / 4), Symbol((b[0] % 4) * 16), '=', '=']
    else if |b| == 2 then [Symbol(b[0] / 4), Symbol((b[0] % 4) * 16 + b[1] / 16), Symbol((b[1] % 16) * 4), '=']
    else EncodeGroup(b[0], b[1], b[2]) + Encode(b[3..])
  }

  /** Four characters back to three bytes, ignoring the padding. */
  function DecodeGroup(c0: Sextet, c1: Sextet, c2: Sextet, c3: Sextet): Bytes {
    [c0 * 4 + c1 / 16, (c1 % 16) * 16 + c2 / 4, (c2 % 4) * 64 + c3]
  }

  /** Decoding; None when the text is not a sequence of groups of four, with padding only at the end. */
  function Decode(s: string): Option<Bytes>
    decreases |s|
  {
    if |s| == 0 then Some([])
    else if |s| < 4 then None
    else if |s| == 4 && IsSymbol(s[0]) && IsSymbol(s[1]) && s[2] == '=' && s[3] == '=' then
      Some(DecodeGroup(SymbolValue(s[0]), SymbolValue(s[1]), 0, 0)[..1])
    else if |s| == 4 && IsSymbol(s[0]) && IsSymbol(s[1]) && IsSymbol(s[2]) && s[3] == '=' then
      Some(DecodeGroup(SymbolValue(s[0]), SymbolValue(s[1]), SymbolValue(s[2]), 0)[..2])
    else if IsSymbol(s[0]) && IsSymbol(s[1]) && IsSymbol(s[2]) && IsSymbol(s[3]) then
      match Decode(s[4..])
      case None => None
      case Some(rest) =>
        Some(DecodeGroup(SymbolValue(s[0]), SymbolValue(s[1]), SymbolValue(s[2]), SymbolValue(s[3])) + rest)
    else None
  }

  lemma GroupRoundTrip(b0: byte, b1: byte, b2: byte)
    ensures var s := EncodeGroup(b0, b1, b2);
      && (forall i | 0 <= i < 4 :: IsSymbol(s[i]))
      && DecodeGroup(SymbolValue(s[0]), SymbolValue(s[1]), SymbolValue(s[2]), SymbolValue(s[3])) == [b0, b1, b2]
  {
    var c0, c1, c2, c3 := b0 / 4, (b0 % 4) * 16 + b1 / 16, (b1 % 16) * 4 + b2 / 64, b2 % 64;
    SymbolValueOfSymbol(c0);
    SymbolValueOfSymbol(c1);
    SymbolValueOfSymbol(c2);
    SymbolValueOfSymbol(c3);
    assert c1 / 16 == b0 % 4 && c1 % 16 == b1 / 16;
    assert c2 / 4 == b1 % 16 && c2 % 4 == b2 / 64;
  }

  lemma DecodeEncodeOne(b: Bytes)
    requires |b| == 1
    ensures Decode(Encode(b)) == Some(b)
  {
    var c0: Sextet, c1: Sextet := b[0] / 4, (b[0] % 4) * 16;
    var s := Encode(b);
    assert s == [Symbol(c0), Symbol(c1), '=', '='];
    SymbolValueOfSymbol(c0);
    SymbolValueOfSymbol(c1);
    assert Decode(s) == Some(DecodeGroup(c0, c1, 0, 0)[..1]);
    assert c1 / 16 == b[0] % 4;
    assert DecodeGroup(c0, c1, 0, 0)[0] == b[0];
    assert DecodeGroup(c0, c1, 0, 0)[..1] == [b[0]] == b;
  }

  lemma DecodeEncodeTwo(b: Bytes)
    requires |b| == 2
    ensures Decode(Encode(b)) == Some(b)
  {
    var c0: Sextet, c1: Sextet, c2: Sextet := b[0] / 4, (b[0] % 4) * 16 + b[1] / 16, (b[1] % 16) * 4;
    var s := Encode(b);
    assert s == [Symbol(c0), Symbol(c1), Symbol(c2), '='];
    SymbolValueOfSymbol(c0);
    SymbolValueOfSymbol(c1);
    SymbolValueOfSymbol(c2);
    assert Decode(s) == Some(DecodeGroup(c0, c1, c2, 0)[..2]);
    assert c1 / 16 == b[0] % 4 && c1 % 16 == b[1] / 16 && c2 / 4 == b[1] % 16;
    assert DecodeGroup(c0, c1, c2, 0)[0] == b[0];
    assert DecodeGroup(c0, c1, c2, 0)[1] == b[1];
    assert DecodeGroup(c0, c1, c2, 0)[..2] == [b[0], b[1]] == b;
  }

  /** Decoding one full group in front of the rest of an encoding. */
  lemma DecodeFullGroup(b: Bytes, rest: string)
    requires |b| == 3
    ensures Decode(EncodeGroup(b[0], b[1], b[2]) + rest)
         == match Decode(rest) case None => None case Some(r) => Some(b + r)
  {
    var s := EncodeGroup(b[0], b[1], b[2]) + rest;
    GroupRoundTrip(b[0], b[1], b[2]);
    assert s[4..] == rest;
    assert [b[0], b[1], b[2]] == b;
  }

  /** Decoding undoes encoding: the text determines the bytes it was made from. */
  lemma {:induction false} DecodeEncode(b: Bytes)
    ensures Decode(Encode(b)) == Some(b)
  {
    if |b| == 1 {
      DecodeEncodeOne(b);
    } else if |b| == 2 {
      DecodeEncodeTwo(b);
    } else if |b| > 2 {
      DecodeEncode(b[3..]);
      DecodeFullGroup(b[..3], Encode(b[3..]));
      assert b[..3] + b[3..] == b;
    }
  }

  lemma EncodeInjective(b: Bytes, c: Bytes)
    requires Encode(b) == Encode(c)
    ensures b == c
  {
    DecodeEncode(b);
    DecodeEncode(c);
  }
}
