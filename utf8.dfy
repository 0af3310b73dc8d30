/**
 * Rust strings are UTF-8 byte sequences, and `Digest::update(&str)` feeds
 * exactly those bytes to the hash.  This module gives the UTF-8 encoding of a
 * Dafny string (a sequence of Unicode scalar values) and the facts the hashers
 * need: it is a homomorphism of concatenation, it is injective, and the
 * byte 0x7C ('|') occurs in an encoding exactly where the character '|'
 * occurs in the string.
 */
module Utf8 {

  type byte = b: int | 0 <= b < 256

  /** Number of occurrences of `x` in `s`. */
  function Count<T(==)>(s: seq<T>, x: T): nat
  {
    if s == [] then 0 else (if s[0] == x then 1 else 0) + Count(s[1..], x)
  }

  lemma {:induction false} CountConcat<T>(a: seq<T>, b: seq<T>, x: T)
    ensures Count(a + b, x) == Count(a, x) + Count(b, x)
  {
    if a == [] {
      assert a + b == b;
    } else {
      assert (a + b)[1..] == a[1..] + b;
      CountConcat(a[1..], b, x);
    }
  }

  /** The UTF-8 encoding of one scalar value (RFC 3629, section 3). */
  function EncodeChar(c: char): (r: seq<byte>)
    ensures 1 <= |r| <= 4
    ensures c as int < 0x80 <==> |r| == 1
    ensures c as int < 0x80 ==> r == [c as int]
    ensures forall k :: 1 <= k < |r| ==> 0x80 <= r[k] < 0xC0
    ensures |r| == 2 ==> 0xC0 <= r[0] < 0xE0
    ensures |r| == 3 ==> 0xE0 <= r[0] < 0xF0
    ensures |r| == 4 ==> 0xF0 <= r[0] < 0xF8
  {
    var n := c as int;
    if n < 0x80 then [n]
    else if n < 0x800 then [0xC0 + n / 0x40, 0x80 + n % 0x40]
    else if n < 0x1_0000 then [0xE0 + n / 0x1000, 0x80 + (n / 0x40) % 0x40, 0x80 + n % 0x40]
    else [0xF0 + n / 0x4_0000, 0x80 + (n / 0x1000) % 0x40, 0x80 + (n / 0x40) % 0x40, 0x80 + n % 0x40]
  }

  /** The UTF-8 encoding of a string: `str::as_bytes`. */
  function Encode(s: string): seq<byte>
  {
    if s == [] then [] else EncodeChar(s[0]) + Encode(s[1..])
  }

  /** Feeding two strings one after the other feeds the bytes of their concatenation. */
  lemma {:induction false} EncodeConcat(a: string, b: string)
    ensures Encode(a + b) == Encode(a) + Encode(b)
  {
    if a == [] {
      assert a + b == b;
    } else {
      assert (a + b)[0] == a[0];
      assert (a + b)[1..] == a[1..] + b;
      EncodeConcat(a[1..], b);
    }
  }

  /** '|' is ASCII, and no other character's encoding holds the byte 0x7C. */
  lemma {:induction false} CountSeparatorBytes(s: string)
    ensures Count(Encode(s), '|' as int) == Count(s, '|')
  {
    if s != [] {
      var e := EncodeChar(s[0]);
      if s[0] as int < 0x80 {
        assert Count(e, '|' as int) == (if s[0] == '|' then 1 else 0) by {
          assert e == [s[0] as int];
          assert e[1..] == [];
        }
      } else {
        CountAbsent(e, '|' as int);
      }
      CountConcat(e, Encode(s[1..]), '|' as int);
      CountSeparatorBytes(s[1..]);
    }
  }

  lemma {:induction false} CountAbsent<T>(s: seq<T>, x: T)
    requires forall k :: 0 <= k < |s| ==> s[k] != x
    ensures Count(s, x) == 0
  {
    if s != [] {
      CountAbsent(s[1..], x);
    }
  }

  lemma {:induction false} CountPositive<T>(s: seq<T>, i: nat)
    requires i < |s|
    ensures Count(s, s[i]) > 0
  {
    if i > 0 {
      CountPositive(s[1..], i - 1);
    }
  }

  /** The scalar value a 1- to 4-byte UTF-8 sequence stands for. */
  function CodePoint(r: seq<byte>): int
    requires 1 <= |r| <= 4
  {
    if |r| == 1 then r[0]
    else if |r| == 2 then (r[0] as int - 0xC0) * 0x40 + (r[1] as int - 0x80)
    else if |r| == 3 then (r[0] as int - 0xE0) * 0x1000 + (r[1] as int - 0x80) * 0x40 + (r[2] as int - 0x80)
    else (r[0] as int - 0xF0) * 0x4_0000 + (r[1] as int - 0x80) * 0x1000 + (r[2] as int - 0x80) * 0x40 + (r[3] as int - 0x80)
  }

  /** Decoding an encoded character gives back its scalar value. */
  lemma CodePointOfEncoding(c: char)
    ensures CodePoint(EncodeChar(c)) == c as int
  {
    var m := c as int;
    if 0x80 <= m < 0x800 {
      Split64(m);
    } else if 0x800 <= m < 0x1_0000 {
      Recombine3(m);
    } else if 0x1_0000 <= m {
      Recombine4(m);
    }
  }

  /** A number is its last base-64 digit plus 64 times the rest. */
  lemma Split64(m: int)
    requires 0 <= m
    ensures m == m / 0x40 * 0x40 + m % 0x40
  {
  }

  lemma Recombine3(m: int)
    requires 0 <= m
    ensures m / 0x1000 * 0x1000 + (m / 0x40) % 0x40 * 0x40 + m % 0x40 == m
  {
    Split64(m);
    Split64(m / 0x40);
    Div64Twice(m);
  }

  lemma Recombine4(m: int)
    requires 0 <= m
    ensures m / 0x4_0000 * 0x4_0000 + (m / 0x1000) % 0x40 * 0x1000 + (m / 0x40) % 0x40 * 0x40 + m % 0x40 == m
  {
    Recombine3(m);
    Split64(m / 0x1000);
    Div64Twice(m);
    Div64Twice(m / 0x40);
  }

  /** Distinct characters have distinct encodings. */
  lemma EncodeCharInjective(c: char, d: char)
    requires EncodeChar(c) == EncodeChar(d)
    ensures c == d
  {
    CodePointOfEncoding(c);
    CodePointOfEncoding(d);
  }

  lemma Div64Twice(m: int)
    requires 0 <= m
    ensures m / 0x40 / 0x40 == m / 0x1000
    ensures m / 0x40 / 0x1000 == m / 0x4_0000
  {
  }

  /** The first byte of an encoding tells how many bytes the character takes. */
  lemma EncodeCharLength(c: char, d: char)
    requires EncodeChar(c)[0] == EncodeChar(d)[0]
    ensures |EncodeChar(c)| == |EncodeChar(d)|
  {
  }

  /** UTF-8 is a prefix code: distinct strings have distinct encodings. */
  lemma {:induction false} EncodeInjective(a: string, b: string)
    requires Encode(a) == Encode(b)
    ensures a == b
  {
    if a != [] && b != [] {
      var x, y := EncodeChar(a[0]), EncodeChar(b[0]);
      var e := Encode(a);
      assert e == x + Encode(a[1..]) && e == y + Encode(b[1..]);
      assert x[0] == e[0] == y[0];
      EncodeCharLength(a[0], b[0]);
      assert x == e[..|x|] == y;
      EncodeCharInjective(a[0], b[0]);
      assert Encode(a[1..]) == e[|x|..] == Encode(b[1..]);
      EncodeInjective(a[1..], b[1..]);
    }
  }
}
