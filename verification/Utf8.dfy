/** UTF-8, as section 3 of RFC 3629 defines it: each scalar value has one encoding,
    and anything else does not decode. */
module Utf8 {
  import opened Common

  type byte = n: nat | n < 256

  function EncodeChar(c: char): (bytes: seq<byte>)
    ensures 1 <= |bytes| <= 4
    ensures bytes[0] < 0x80 <==> c as int < 0x80
  {
    var n := c as int;
    if n < 0x80 then [n]
    else if n < 0x800 then [0xC0 + n / 64, 0x80 + n % 64]
    else if n < 0x1_0000 then [0xE0 + n / 4096, 0x80 + n / 64 % 64, 0x80 + n % 64]
    else [0xF0 + n / 262144, 0x80 + n / 4096 % 64, 0x80 + n / 64 % 64, 0x80 + n % 64]
  }

  function Encode(s: string): seq<byte>
  {
    if s == [] then [] else EncodeChar(s[0]) + Encode(s[1..])
  }

  predicate Continues(b: byte) { 0x80 <= b < 0xC0 }

  /** A scalar value from its number, when it is one of at least `least`. */
  function Scalar(n: nat, least: nat): Option<char>
  {
    if least <= n < 0xD800 || (least <= n && 0xE000 <= n < 0x11_0000) then Some(n as char) else None
  }

  /** What a byte carries above its marker. */
  function Bits(b: byte, marker: nat): nat
    requires marker <= b
  {
    b - marker
  }

  /** The character at the head of some bytes, and how many bytes it takes. */
  function FirstChar(s: seq<byte>): Option<(char, nat)>
    requires s != []
  {
    var b := s[0];
    if b < 0x80 then Some((b as char, 1))
    else if 0xC0 <= b < 0xE0 && |s| >= 2 && Continues(s[1]) then
      match Scalar(64 * Bits(b, 0xC0) + Bits(s[1], 0x80), 0x80)
      case None => None
      case Some(c) => Some((c, 2))
    else if 0xE0 <= b < 0xF0 && |s| >= 3 && Continues(s[1]) && Continues(s[2]) then
      match Scalar(4096 * Bits(b, 0xE0) + 64 * Bits(s[1], 0x80) + Bits(s[2], 0x80), 0x800)
      case None => None
      case Some(c) => Some((c, 3))
    else if 0xF0 <= b < 0xF8 && |s| >= 4 && Continues(s[1]) && Continues(s[2]) && Continues(s[3]) then
      match Scalar(262144 * Bits(b, 0xF0) + 4096 * Bits(s[1], 0x80) + 64 * Bits(s[2], 0x80) + Bits(s[3], 0x80), 0x1_0000)
      case None => None
      case Some(c) => Some((c, 4))
    else None
  }

  function Decode(s: seq<byte>): Option<string>
  {
    if s == [] then Some([])
    else
      match FirstChar(s)
      case None => None
      case Some((c, n)) =>
        if n == 0 || n > |s| then None
        else
          match Decode(s[n..])
          case None => None
          case Some(rest) => Some([c] + rest)
  }

  lemma Regroup(n: nat)
    ensures n == 64 * (n / 64) + n % 64
    ensures n / 64 == 64 * (n / 4096) + n / 64 % 64
    ensures n / 4096 == 64 * (n / 262144) + n / 4096 % 64
  {
    assert n / 64 / 64 == n / 4096;
    assert n / 4096 / 64 == n / 262144;
  }

  lemma TwoBytes(c: char, rest: seq<byte>)
    requires 0x80 <= c as int < 0x800
    ensures FirstChar(EncodeChar(c) + rest) == Some((c, 2)) && |EncodeChar(c)| == 2
  {
    var n := c as int;
    Regroup(n);
    var s := [0xC0 + n / 64, 0x80 + n % 64] + rest;
    assert s[0] == 0xC0 + n / 64 && s[1] == 0x80 + n % 64;
    assert Scalar(n, 0x80) == Some(c);
  }

  lemma ThreeBytes(c: char, rest: seq<byte>)
    requires 0x800 <= c as int < 0x1_0000
    ensures FirstChar(EncodeChar(c) + rest) == Some((c, 3)) && |EncodeChar(c)| == 3
  {
    var n := c as int;
    Regroup(n);
    var s := [0xE0 + n / 4096, 0x80 + n / 64 % 64, 0x80 + n % 64] + rest;
    assert s[0] == 0xE0 + n / 4096 && s[1] == 0x80 + n / 64 % 64 && s[2] == 0x80 + n % 64;
    assert Scalar(n, 0x800) == Some(c);
  }

  lemma FourBytes(c: char, rest: seq<byte>)
    requires 0x1_0000 <= c as int
    ensures FirstChar(EncodeChar(c) + rest) == Some((c, 4)) && |EncodeChar(c)| == 4
  {
    var n := c as int;
    Regroup(n);
    var s := [0xF0 + n / 262144, 0x80 + n / 4096 % 64, 0x80 + n / 64 % 64, 0x80 + n % 64] + rest;
    assert s[0] == 0xF0 + n / 262144 && s[1] == 0x80 + n / 4096 % 64;
    assert s[2] == 0x80 + n / 64 % 64 && s[3] == 0x80 + n % 64;
    assert Scalar(n, 0x1_0000) == Some(c);
  }

  lemma CharRoundTrip(c: char, rest: seq<byte>)
    ensures FirstChar(EncodeChar(c) + rest) == Some((c, |EncodeChar(c)|))
  {
    if c as int >= 0x1_0000 {
      FourBytes(c, rest);
    } else if c as int >= 0x800 {
      ThreeBytes(c, rest);
    } else if c as int >= 0x80 {
      TwoBytes(c, rest);
    }
  }

  /** Every string reads back from its bytes. */
  lemma {:induction false} RoundTrip(s: string)
    ensures Decode(Encode(s)) == Some(s)
  {
    hide FirstChar, EncodeChar;
    if s != [] {
      CharRoundTrip(s[0], Encode(s[1..]));
      RoundTrip(s[1..]);
      assert Encode(s)[|EncodeChar(s[0])|..] == Encode(s[1..]);
      assert [s[0]] + s[1..] == s;
    }
  }

  lemma DivMod(q: nat, r: nat)
    requires r < 64
    ensures (64 * q + r) / 64 == q && (64 * q + r) % 64 == r
  {
  }

  lemma Ungroup(a: nat, b: nat, c: nat, d: nat)
    requires b < 64 && c < 64 && d < 64
    ensures var n := 262144 * a + 4096 * b + 64 * c + d;
            n / 262144 == a && n / 4096 % 64 == b && n / 64 % 64 == c && n % 64 == d && n / 4096 == 64 * a + b
            && n / 64 == 64 * (64 * a + b) + c
  {
    var n := 262144 * a + 4096 * b + 64 * c + d;
    DivMod(64 * (64 * a + b) + c, d);
    DivMod(64 * a + b, c);
    DivMod(a, b);
    Regroup(n);
  }

  lemma FirstCharBytes(s: seq<byte>)
    requires s != [] && FirstChar(s).Some?
    ensures var (c, n) := FirstChar(s).value; 1 <= n <= |s| && EncodeChar(c) == s[..n]
  {
    var (c, n) := FirstChar(s).value;
    if n == 2 {
      Ungroup(0, 0, Bits(s[0], 0xC0), Bits(s[1], 0x80));
    } else if n == 3 {
      Ungroup(0, Bits(s[0], 0xE0), Bits(s[1], 0x80), Bits(s[2], 0x80));
    } else if n == 4 {
      Ungroup(Bits(s[0], 0xF0), Bits(s[1], 0x80), Bits(s[2], 0x80), Bits(s[3], 0x80));
    }
  }

  /** No bytes but a string's own encoding decode to it: nothing overlong, and no
      surrogate, is accepted. */
  lemma {:induction false} OneEncoding(s: seq<byte>)
    requires Decode(s).Some?
    ensures Encode(Decode(s).value) == s
    decreases |s|
  {
    hide FirstChar, EncodeChar;
    if s != [] {
      var (c, n) := FirstChar(s).value;
      FirstCharBytes(s);
      OneEncoding(s[n..]);
      assert s == s[..n] + s[n..];
    }
  }
}
