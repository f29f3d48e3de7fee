/**
 UTF-8 (RFC 3629) as the strict decoder of the broker reads it: every character
 has one encoding, and nothing else decodes.
 */
module Utf8 {
  import opened Basics

  type byte = x: int | 0 <= x < 256

  function EncodeChar(c: char): seq<byte> {
    var n := c as int;
    if n < 0x80 then [n]
    else if n < 0x800 then [0xC0 + n / 64, 0x80 + n % 64]
    else if n < 0x10000 then [0xE0 + n / 64 / 64, 0x80 + n / 64 % 64, 0x80 + n % 64]
    else [0xF0 + n / 64 / 64 / 64, 0x80 + n / 64 / 64 % 64, 0x80 + n / 64 % 64, 0x80 + n % 64]
  }

  function Encode(s: string): seq<byte> {
    if s == "" then [] else EncodeChar(s[0]) + Encode(s[1..])
  }

  predicate IsTail(b: byte) { 0x80 <= b < 0xC0 }

  function Low(b: byte): int { b as int - 0x80 }

  predicate IsScalar(n: int) { 0 <= n < 0xD800 || 0xE000 <= n < 0x110000 }

  /** The first character of the bytes and how many of them it takes. */
  function DecodeChar(bytes: seq<byte>): Option<(char, nat)>
    requires bytes != []
    ensures DecodeChar(bytes).Some? ==> 1 <= DecodeChar(bytes).value.1 <= |bytes|
  {
    var b := bytes[0] as int;
    if b < 0x80 then Some((b as char, 1))
    else if 0xC2 <= b < 0xE0 && |bytes| >= 2 && IsTail(bytes[1]) then
      Some((((b - 0xC0) * 64 + Low(bytes[1])) as char, 2))
    else if 0xE0 <= b < 0xF0 && |bytes| >= 3 && IsTail(bytes[1]) && IsTail(bytes[2]) then
      var n := ((b - 0xE0) * 64 + Low(bytes[1])) * 64 + Low(bytes[2]);
      if n >= 0x800 && IsScalar(n) then Some((n as char, 3)) else None
    else if 0xF0 <= b < 0xF5 && |bytes| >= 4 && IsTail(bytes[1]) && IsTail(bytes[2]) && IsTail(bytes[3]) then
      var n := (((b - 0xF0) * 64 + Low(bytes[1])) * 64 + Low(bytes[2])) * 64 + Low(bytes[3]);
      if n >= 0x10000 && IsScalar(n) then Some((n as char, 4)) else None
    else None
  }

  function Decode(bytes: seq<byte>): Option<string>
    decreases |bytes|
  {
    if bytes == [] then Some("")
    else
      var first := DecodeChar(bytes);
      if first.None? then None
      else
        var rest := Decode(bytes[first.value.1..]);
        if rest.None? then None else Some([first.value.0] + rest.value)
  }

  lemma DecodeEncodedChar(c: char, rest: seq<byte>)
    ensures EncodeChar(c) != [] && DecodeChar(EncodeChar(c) + rest) == Some((c, |EncodeChar(c)|))
  {
    var n := c as int;
    assert IsScalar(n);
  }

  lemma Digit(high: int, low: int)
    requires 0 <= low < 64
    ensures (high * 64 + low) / 64 == high && (high * 64 + low) % 64 == low
  {
  }

  lemma EncodeDecodedChar(bytes: seq<byte>)
    requires bytes != [] && DecodeChar(bytes).Some?
    ensures EncodeChar(DecodeChar(bytes).value.0) == bytes[..DecodeChar(bytes).value.1]
  {
    var b, k := bytes[0] as int, DecodeChar(bytes).value.1;
    if k == 2 {
      Digit(b - 0xC0, Low(bytes[1]));
    } else if k == 3 {
      Digit(b - 0xE0, Low(bytes[1]));
      Digit((b - 0xE0) * 64 + Low(bytes[1]), Low(bytes[2]));
    } else if k == 4 {
      Digit(b - 0xF0, Low(bytes[1]));
      Digit((b - 0xF0) * 64 + Low(bytes[1]), Low(bytes[2]));
      Digit(((b - 0xF0) * 64 + Low(bytes[1])) * 64 + Low(bytes[2]), Low(bytes[3]));
    }
  }

  lemma {:induction false} DecodeEncoded(s: string)
    ensures Decode(Encode(s)) == Some(s)
    decreases |s|
  {
    if s != "" {
      DecodeEncodedChar(s[0], Encode(s[1..]));
      DecodeEncoded(s[1..]);
      assert Encode(s)[|EncodeChar(s[0])|..] == Encode(s[1..]);
      assert [s[0]] + s[1..] == s;
    }
  }

  lemma {:induction false} EncodeDecoded(bytes: seq<byte>)
    requires Decode(bytes).Some?
    ensures Encode(Decode(bytes).value) == bytes
    decreases |bytes|
  {
    if bytes != [] {
      var k := DecodeChar(bytes).value.1;
      EncodeDecodedChar(bytes);
      EncodeDecoded(bytes[k..]);
      assert Decode(bytes).value[1..] == Decode(bytes[k..]).value;
    }
  }
}
