/** UTF-8, with a strict decoder: overlong forms, surrogates and stray bytes are refused. */
module Utf8 {

  datatype Option<+T> = None | Some(value: T)

  newtype byte = x: int | 0 <= x < 256

  /** A Unicode scalar value. */
  predicate Scalar(n: int) {
    0 <= n < 0xD800 || 0xE000 <= n < 0x11_0000
  }

  lemma CharIsScalar(c: char)
    ensures Scalar(c as int)
  {
  }

  function EncodeChar(c: char): (bytes: seq<byte>)
    ensures 1 <= |bytes| <= 4
  {
    var n := c as int;
    if n < 0x80 then [n as byte]
    else if n < 0x800 then [(0xC0 + n / 0x40) as byte, (0x80 + n % 0x40) as byte]
    else if n < 0x1_0000 then
      [(0xE0 + n / 0x1000) as byte, (0x80 + n / 0x40 % 0x40) as byte, (0x80 + n % 0x40) as byte]
    else
      [(0xF0 + n / 0x4_0000) as byte, (0x80 + n / 0x1000 % 0x40) as byte, (0x80 + n / 0x40 % 0x40) as byte,
       (0x80 + n % 0x40) as byte]
  }

  function Encode(s: string): seq<byte> {
    if s == "" then [] else EncodeChar(s[0]) + Encode(s[1..])
  }

  /** Six payload bits of a continuation byte. */
  function Tail(b: byte): Option<int> {
    if 0x80 <= b < 0xC0 then Some(b as int - 0x80) else None
  }

  datatype Decoded = Decoded(c: char, length: nat) | Malformed

  function Checked(n: int, least: int, length: nat): Decoded {
    if n >= least && Scalar(n) then Decoded(n as char, length) else Malformed
  }

  /** The first character of a non-empty byte string. */
  function DecodeChar(b: seq<byte>): (d: Decoded)
    requires |b| > 0
    ensures d.Decoded? ==> 1 <= d.length <= |b|
  {
    var lead := b[0] as int;
    if lead < 0x80 then Checked(lead, 0, 1)
    else if 0xC0 <= lead < 0xE0 && |b| >= 2 && Tail(b[1]).Some? then
      Checked((lead - 0xC0) * 0x40 + Tail(b[1]).value, 0x80, 2)
    else if 0xE0 <= lead < 0xF0 && |b| >= 3 && Tail(b[1]).Some? && Tail(b[2]).Some? then
      Checked((lead - 0xE0) * 0x1000 + Tail(b[1]).value * 0x40 + Tail(b[2]).value, 0x800, 3)
    else if 0xF0 <= lead < 0xF8 && |b| >= 4 && Tail(b[1]).Some? && Tail(b[2]).Some? && Tail(b[3]).Some? then
      Checked((lead - 0xF0) * 0x4_0000 + Tail(b[1]).value * 0x1000 + Tail(b[2]).value * 0x40 + Tail(b[3]).value,
              0x1_0000, 4)
    else Malformed
  }

  function Decode(b: seq<byte>): Option<string> {
    if b == [] then Some("")
    else
      match DecodeChar(b)
      case Malformed => None
      case Decoded(c, length) =>
        match Decode(b[length..])
        case None => None
        case Some(rest) => Some([c] + rest)
  }

  lemma CharRoundTrip(c: char, rest: seq<byte>)
    ensures DecodeChar(EncodeChar(c) + rest) == Decoded(c, |EncodeChar(c)|)
  {
    CharIsScalar(c);
    var n := c as int;
    assert n / 0x1000 == n / 0x40 / 0x40 && n / 0x4_0000 == n / 0x40 / 0x40 / 0x40;
  }

  /** Groups of six bits can be read off again. */
  lemma SixBits(a: nat, t1: nat, t2: nat, t3: nat)
    requires t1 < 0x40 && t2 < 0x40 && t3 < 0x40
    ensures (a * 0x40 + t1) / 0x40 == a && (a * 0x40 + t1) % 0x40 == t1
    ensures var n := a * 0x1000 + t1 * 0x40 + t2; n / 0x1000 == a && n / 0x40 % 0x40 == t1 && n % 0x40 == t2
    ensures var n := a * 0x4_0000 + t1 * 0x1000 + t2 * 0x40 + t3;
      n / 0x4_0000 == a && n / 0x1000 % 0x40 == t1 && n / 0x40 % 0x40 == t2 && n % 0x40 == t3
  {
  }

  lemma DecodedIsEncoding(b: seq<byte>)
    requires |b| > 0 && DecodeChar(b).Decoded?
    ensures EncodeChar(DecodeChar(b).c) == b[..DecodeChar(b).length]
  {
    var lead, length := b[0] as int, DecodeChar(b).length;
    var t1 := if length > 1 then Tail(b[1]).value else 0;
    var t2 := if length > 2 then Tail(b[2]).value else 0;
    var t3 := if length > 3 then Tail(b[3]).value else 0;
    if length == 2 {
      SixBits(lead - 0xC0, t1, 0, 0);
    } else if length == 3 {
      SixBits(lead - 0xE0, t1, t2, 0);
    } else if length == 4 {
      SixBits(lead - 0xF0, t1, t2, t3);
    }
  }

  lemma {:induction false} EncodeThenDecode(s: string)
    ensures Decode(Encode(s)) == Some(s)
  {
    if s != "" {
      CharRoundTrip(s[0], Encode(s[1..]));
      EncodeThenDecode(s[1..]);
      assert Encode(s)[|EncodeChar(s[0])|..] == Encode(s[1..]);
      assert s == [s[0]] + s[1..];
    }
  }

  /** The decoder accepts exactly what the encoder writes. */
  lemma {:induction false} DecodeThenEncode(b: seq<byte>)
    requires Decode(b).Some?
    ensures Encode(Decode(b).value) == b
    decreases |b|
  {
    if b != [] {
      hide EncodeChar, DecodeChar;
      var d := DecodeChar(b);
      DecodedIsEncoding(b);
      DecodeThenEncode(b[d.length..]);
      var s := Decode(b).value;
      assert s[0] == d.c && s[1..] == Decode(b[d.length..]).value;
      assert b == b[..d.length] + b[d.length..];
    }
  }

  /** One character of each length, with the bytes that section 3 of RFC 3629 gives it. */
  lemma EncodedExamples()
    ensures Encode("A") == [0x41] && Encode("\U{00E9}") == [0xC3, 0xA9]
    ensures Encode("\U{20AC}") == [0xE2, 0x82, 0xAC] && Encode("\U{1F600}") == [0xF0, 0x9F, 0x98, 0x80]
  {
  }
}
