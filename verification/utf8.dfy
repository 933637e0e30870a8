/** UTF-8, and that encoded text can be read back in only one way.
 */
module Utf8 {

  type Byte = b: int | 0 <= b < 256

  /** The encoding of one code point (section 3 of RFC 3629). */
  function EncodeChar(c: char): (r: seq<Byte>)
    ensures 1 <= |r| <= 4
    ensures c as int != 0 ==> forall i | 0 <= i < |r| :: r[i] != 0
  {
    var n := c as int;
    if n < 0x80 then [n]
    else if n < 0x800 then [0xC0 + n / 64, 0x80 + n % 64]
    else if n < 0x10000 then [0xE0 + n / 4096, 0x80 + n / 64 % 64, 0x80 + n % 64]
    else [0xF0 + n / 262144, 0x80 + n / 4096 % 64, 0x80 + n / 64 % 64, 0x80 + n % 64]
  }

  function Encode(s: string): seq<Byte> {
    if s == "" then [] else EncodeChar(s[0]) + Encode(s[1..])
  }

  /** The first byte gives the length away. */
  function LengthOf(first: Byte): nat {
    if first < 0x80 then 1 else if first < 0xE0 then 2 else if first < 0xF0 then 3 else 4
  }

  lemma CharLength(c: char)
    ensures |EncodeChar(c)| == LengthOf(EncodeChar(c)[0])
  {
  }

  lemma CharsOfLength(c: char, d: char)
    requires EncodeChar(c) == EncodeChar(d)
    ensures c == d
  {
    var n, m := c as int, d as int;
    CharLength(c);
    if n < 0x80 {
    } else if n < 0x800 {
      assert n == n / 64 * 64 + n % 64 && m == m / 64 * 64 + m % 64;
    } else if n < 0x10000 {
      Digits(n);
      Digits(m);
    } else {
      Digits(n);
      Digits(m);
    }
  }

  lemma Digits(n: nat)
    ensures n == n / 4096 * 4096 + n / 64 % 64 * 64 + n % 64
    ensures n == n / 262144 * 262144 + n / 4096 % 64 * 4096 + n / 64 % 64 * 64 + n % 64
  {
    assert n / 64 / 64 == n / 4096;
    assert n / 4096 / 64 == n / 262144;
  }

  /** No encoding of a code point begins another. */
  lemma CharFirst(c: char, d: char, x: seq<Byte>, y: seq<Byte>)
    requires EncodeChar(c) + x == EncodeChar(d) + y
    ensures c == d && x == y
  {
    var a, b := EncodeChar(c), EncodeChar(d);
    assert (a + x)[0] == a[0] && (b + y)[0] == b[0];
    CharLength(c);
    CharLength(d);
    assert a == (a + x)[..|a|] && b == (b + y)[..|b|];
    CharsOfLength(c, d);
    assert x == (a + x)[|a|..] && y == (b + y)[|b|..];
  }

  lemma {:induction false} EncodeInjective(s: string, t: string)
    requires Encode(s) == Encode(t)
    ensures s == t
  {
    if s != "" && t != "" {
      CharFirst(s[0], t[0], Encode(s[1..]), Encode(t[1..]));
      EncodeInjective(s[1..], t[1..]);
      assert s == [s[0]] + s[1..] && t == [t[0]] + t[1..];
    }
  }

  /** Text without the character NUL is encoded without the byte zero. */
  lemma {:induction false} EncodedWithoutZero(s: string)
    requires forall i | 0 <= i < |s| :: s[i] as int != 0
    ensures forall i | 0 <= i < |Encode(s)| :: Encode(s)[i] != 0
  {
    if s != "" {
      EncodedWithoutZero(s[1..]);
    }
  }
}
