/**
 * The `hex` crate's lower-case encoding (`hex::encode`): every byte becomes two
 * characters from "0123456789abcdef", high nibble first.  `Decode` is the
 * partner used to state that the encoding loses nothing.
 */
module Hex {
  import opened Wrappers
  import opened Utf8

  const Digits: string := "0123456789abcdef"

  predicate IsLowerHexDigit(c: char)
  {
    '0' <= c <= '9' || 'a' <= c <= 'f'
  }

  function DigitValue(c: char): (v: Option<nat>)
    ensures v.Some? <==> IsLowerHexDigit(c)
    ensures v.Some? ==> v.value < 16 && Digits[v.value] == c
  {
    if '0' <= c <= '9' then Some(c as int - '0' as int)
    else if 'a' <= c <= 'f' then Some(c as int - 'a' as int + 10)
    else None
  }

  function EncodeByte(b: byte): (s: string)
    ensures |s| == 2 && IsLowerHexDigit(s[0]) && IsLowerHexDigit(s[1])
    ensures DigitValue(s[0]) == Some(b / 16) && DigitValue(s[1]) == Some(b % 16)
  {
    [Digits[b / 16], Digits[b % 16]]
  }

  function Encode(bs: seq<byte>): (s: string)
    ensures |s| == 2 * |bs|
    ensures forall i :: 0 <= i < |s| ==> IsLowerHexDigit(s[i])
  {
    if bs == [] then [] else EncodeByte(bs[0]) + Encode(bs[1..])
  }

  /** Decodes lower-case hex text; `None` on odd length or any other character. */
  function Decode(s: string): Option<seq<byte>>
    decreases |s|
  {
    if s == [] then Some([])
    else if |s| == 1 then None
    else match (DigitValue(s[0]), DigitValue(s[1]), Decode(s[2..]))
      case (Some(hi), Some(lo), Some(rest)) => Some([hi * 16 + lo] + rest)
      case _ => None
  }

  /** Decoding inverts encoding, in both directions. */
  lemma DecodeIffEncode(bs: seq<byte>, s: string)
    ensures Decode(s) == Some(bs) <==> Encode(bs) == s
  {
    if Encode(bs) == s {
      DecodeOfEncode(bs);
    }
    if Decode(s) == Some(bs) {
      EncodeOfDecode(s, bs);
    }
  }

  lemma {:induction false} DecodeOfEncode(bs: seq<byte>)
    ensures Decode(Encode(bs)) == Some(bs)
  {
    if bs != [] {
      var e := EncodeByte(bs[0]);
      var s := Encode(bs);
      assert s == e + Encode(bs[1..]);
      assert s[0] == e[0] && s[1] == e[1] && s[2..] == Encode(bs[1..]);
      DecodeOfEncode(bs[1..]);
      assert bs[0] / 16 * 16 + bs[0] % 16 == bs[0];
      assert bs == [bs[0]] + bs[1..];
    }
  }

  lemma {:induction false} EncodeOfDecode(s: string, bs: seq<byte>)
    requires Decode(s) == Some(bs)
    ensures Encode(bs) == s
    decreases |s|
  {
    if s != [] {
      var hi, lo := DigitValue(s[0]).value, DigitValue(s[1]).value;
      var rest := Decode(s[2..]).value;
      var b: byte := hi * 16 + lo;
      assert bs == [b] + rest;
      NibblesOfByte(hi, lo);
      assert EncodeByte(b) == [s[0], s[1]];
      EncodeOfDecode(s[2..], rest);
      assert Encode(bs) == EncodeByte(b) + Encode(rest) by {
        assert bs[0] == b && bs[1..] == rest;
      }
      assert s == [s[0], s[1]] + s[2..];
    }
  }

  /** A byte built from two digits splits back into them. */
  lemma NibblesOfByte(hi: nat, lo: nat)
    requires hi < 16 && lo < 16
    ensures (hi * 16 + lo) / 16 == hi && (hi * 16 + lo) % 16 == lo
  {
  }
}
