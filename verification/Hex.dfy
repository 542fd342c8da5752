/** Hexadecimal text: printed in lower case, read in either case. */
module Hex {
  import opened Prelude

  function Digit(n: nat): (c: char)
    requires n < 16
  {
    if n < 10 then ('0' as int + n) as char else ('a' as int + n - 10) as char
  }

  function Value(c: char): (r: Option<nat>)
    ensures r.Some? ==> r.value < 16
  {
    if '0' <= c <= '9' then Some(c as int - '0' as int)
    else if 'a' <= c <= 'f' then Some(c as int - 'a' as int + 10)
    else if 'A' <= c <= 'F' then Some(c as int - 'A' as int + 10)
    else None
  }

  predicate IsLowerDigit(c: char) { '0' <= c <= '9' || 'a' <= c <= 'f' }

  predicate IsLower(h: string) {
    forall i :: 0 <= i < |h| ==> IsLowerDigit(h[i])
  }

  function Encode(b: seq<byte>): (h: string)
    ensures |h| == 2 * |b|
  {
    if b == [] then "" else [Digit(b[0] / 16), Digit(b[0] % 16)] + Encode(b[1..])
  }

  /** Fails on an odd length and on any other character. */
  function Decode(h: string): (b: Option<seq<byte>>)
    ensures b.Some? ==> |h| == 2 * |b.value|
  {
    if h == "" then Some([])
    else if |h| == 1 then None
    else
      match (Value(h[0]), Value(h[1]), Decode(h[2..]))
      case (Some(hi), Some(lo), Some(rest)) => Some([16 * hi + lo] + rest)
      case _ => None
  }

  lemma ValueDigit(n: nat)
    requires n < 16
    ensures Value(Digit(n)) == Some(n) && IsLowerDigit(Digit(n))
  {
  }

  lemma DigitValue(c: char)
    requires Value(c).Some?
    ensures Digit(Value(c).value) == c <==> IsLowerDigit(c)
  {
  }

  lemma Pairs(c0: char, c1: char, rest: string, h: string)
    requires |h| >= 2
    ensures [c0, c1] + rest == h <==> c0 == h[0] && c1 == h[1] && rest == h[2..]
    ensures IsLower(h) <==> IsLowerDigit(h[0]) && IsLowerDigit(h[1]) && IsLower(h[2..])
    ensures ([c0, c1] + rest)[0] == c0 && ([c0, c1] + rest)[1] == c1 && ([c0, c1] + rest)[2..] == rest
  {
    hide IsLowerDigit;
    assert h == [h[0], h[1]] + h[2..];
    assert forall i :: 2 <= i < |h| ==> h[i] == h[2..][i - 2];
    assert ([c0, c1] + rest)[2..] == rest;
  }

  lemma {:induction false} DecodeEncode(b: seq<byte>)
    ensures Decode(Encode(b)) == Some(b) && IsLower(Encode(b))
  {
    if b != [] {
      ValueDigit(b[0] / 16);
      ValueDigit(b[0] % 16);
      DecodeEncode(b[1..]);
      Pairs(Digit(b[0] / 16), Digit(b[0] % 16), Encode(b[1..]), Encode(b));
      hide Value, Digit, IsLower, IsLowerDigit;
      assert b == [b[0]] + b[1..];
    }
  }

  /** Reading and printing again gives the same text exactly when the text is lower case. */
  lemma {:induction false} EncodeDecode(h: string)
    requires Decode(h).Some?
    ensures Encode(Decode(h).value) == h <==> IsLower(h)
  {
    if h != "" {
      var v0, v1, rest := Value(h[0]).value, Value(h[1]).value, Decode(h[2..]).value;
      DigitValue(h[0]);
      DigitValue(h[1]);
      EncodeDecode(h[2..]);
      Pairs(Digit(v0), Digit(v1), Encode(rest), h);
      var b := Decode(h).value;
      assert b == [16 * v0 + v1] + rest && b[1..] == rest;
      hide Value, Digit, IsLower, IsLowerDigit;
      assert b[0] / 16 == v0 && b[0] % 16 == v1;
      assert Encode(b) == [Digit(v0), Digit(v1)] + Encode(rest);
    }
  }

  /** Each byte is printed as its two digits, the high one first. */
  lemma {:induction false} EncodeExact(b: seq<byte>, i: nat)
    requires i < |b|
    ensures Encode(b)[2 * i] == "0123456789abcdef"[b[i] / 16]
    ensures Encode(b)[2 * i + 1] == "0123456789abcdef"[b[i] % 16]
  {
    if i > 0 {
      EncodeExact(b[1..], i - 1);
    } else {
      DigitExact(b[0] / 16);
      DigitExact(b[0] % 16);
      hide Digit;
    }
  }

  lemma DigitExact(n: nat)
    requires n < 16
    ensures Digit(n) == "0123456789abcdef"[n]
  {
  }

  predicate IsHexDigit(c: char) { '0' <= c <= '9' || 'a' <= c <= 'f' || 'A' <= c <= 'F' }

  /** Exactly the texts of even length with nothing but hexadecimal digits are read. */
  lemma {:induction false} DecodesExactly(h: string)
    ensures Decode(h).Some? <==> |h| % 2 == 0 && forall i :: 0 <= i < |h| ==> IsHexDigit(h[i])
  {
    if |h| >= 2 {
      DecodesExactly(h[2..]);
      assert h == [h[0], h[1]] + h[2..];
      assert Value(h[0]).Some? <==> IsHexDigit(h[0]);
      assert Value(h[1]).Some? <==> IsHexDigit(h[1]);
      hide Value, IsHexDigit;
      assert forall i :: 2 <= i < |h| ==> h[i] == h[2..][i - 2];
      assert forall i :: 0 <= i < |h[2..]| ==> h[2..][i] == h[i + 2];
    }
  }
}
