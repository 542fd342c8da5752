/** `std::str::from_utf8` as a predicate: the well-formed byte sequences of section 4 of RFC 3629. */
module Utf8 {
  import opened Prelude

  predicate IsTail(b: byte) { 0x80 <= b < 0xC0 }

  /** The length of the well-formed character at the front, 0 when there is none. */
  function FrontLength(s: seq<byte>): (n: nat)
    requires s != []
    ensures n <= |s|
  {
    if s[0] < 0x80 then 1
    else if |s| >= 2 && 0xC2 <= s[0] < 0xE0 && IsTail(s[1]) then 2
    else if |s| >= 3 && IsTail(s[1]) && IsTail(s[2])
            && 0xE0 <= s[0] < 0xF0 && (s[0] == 0xE0 ==> s[1] >= 0xA0) && (s[0] == 0xED ==> s[1] < 0xA0) then 3
    else if |s| >= 4 && IsTail(s[1]) && IsTail(s[2]) && IsTail(s[3])
            && 0xF0 <= s[0] < 0xF5 && (s[0] == 0xF0 ==> s[1] >= 0x90) && (s[0] == 0xF4 ==> s[1] < 0x90) then 4
    else 0
  }

  predicate Valid(s: seq<byte>) {
    s == [] || (FrontLength(s) > 0 && Valid(s[FrontLength(s)..]))
  }

  /** A Rust string, as its UTF-8 bytes. */
  type Text = s: seq<byte> | Valid(s) witness []

  // ----- the encoded characters are the scalar values -----

  predicate IsScalar(c: nat) { c < 0xD800 || 0xE000 <= c < 0x11_0000 }

  /** Section 3 of RFC 3629. */
  function EncodeScalar(c: nat): (r: seq<byte>)
    requires IsScalar(c)
    ensures r != []
  {
    if c < 0x80 then [c]
    else if c < 0x800 then [0xC0 + c / 64, 0x80 + c % 64]
    else if c < 0x1_0000 then [0xE0 + c / 4096, 0x80 + c / 64 % 64, 0x80 + c % 64]
    else [0xF0 + c / 262144, 0x80 + c / 4096 % 64, 0x80 + c / 64 % 64, 0x80 + c % 64]
  }

  /** The value that the bytes of one character carry. */
  function ScalarOf(s: seq<byte>): int
    requires s != [] && 0 < FrontLength(s)
  {
    var n := FrontLength(s);
    if n == 1 then s[0]
    else if n == 2 then Carried([s[0] - 0xC0, s[1] - 0x80])
    else if n == 3 then Carried([s[0] - 0xE0, s[1] - 0x80, s[2] - 0x80])
    else Carried([s[0] - 0xF0, s[1] - 0x80, s[2] - 0x80, s[3] - 0x80])
  }

  /** A number by its digits in base 64. */
  function Carried(digits: seq<int>): int {
    if digits == [] then 0 else Carried(digits[..|digits| - 1]) * 64 + digits[|digits| - 1]
  }

  lemma One(a: int)
    ensures Carried([a]) == a
  {
    assert [a][..0] == [];
  }

  lemma Two(a: int, b: int)
    ensures Carried([a, b]) == a * 64 + b
  {
    One(a);
    assert [a, b][..1] == [a];
  }

  lemma Three(a: int, b: int, c: int)
    ensures Carried([a, b, c]) == a * 4096 + b * 64 + c
  {
    Two(a, b);
    assert [a, b, c][..2] == [a, b];
  }

  lemma Four(a: int, b: int, c: int, d: int)
    ensures Carried([a, b, c, d]) == a * 262144 + b * 4096 + c * 64 + d
  {
    Three(a, b, c);
    assert [a, b, c, d][..3] == [a, b, c];
  }

  lemma Digits(n: int, a: nat, b: nat, c: nat, d: nat)
    requires a < 64 && b < 64 && c < 64 && d < 64 && n == a * 262144 + b * 4096 + c * 64 + d
    ensures n / 262144 == a && n / 4096 % 64 == b && n / 64 % 64 == c && n % 64 == d
    ensures n / 64 == a * 4096 + b * 64 + c && n / 4096 == a * 64 + b
  {
    assert n / 64 == a * 4096 + b * 64 + c;
    assert n / 4096 == a * 64 + b;
  }

  lemma Pieces(n: nat)
    ensures n == n / 262144 * 262144 + n / 4096 % 64 * 4096 + n / 64 % 64 * 64 + n % 64
    ensures n / 64 == n / 4096 * 64 + n / 64 % 64 && n / 4096 == n / 262144 * 64 + n / 4096 % 64
  {
    assert n / 4096 == n / 64 / 64 && n / 262144 == n / 4096 / 64;
  }

  /** A well-formed character at the front is the encoding of a scalar value ... */
  lemma FrontIsScalar(s: seq<byte>)
    requires s != [] && FrontLength(s) > 0
    ensures ScalarOf(s) >= 0 && IsScalar(ScalarOf(s)) && EncodeScalar(ScalarOf(s)) == s[..FrontLength(s)]
  {
    var n, c := FrontLength(s), ScalarOf(s);
    if n == 2 {
      Two(s[0] - 0xC0, s[1] - 0x80);
      Digits(c, 0, 0, s[0] - 0xC0, s[1] - 0x80);
    } else if n == 3 {
      Three(s[0] - 0xE0, s[1] - 0x80, s[2] - 0x80);
      Digits(c, 0, s[0] - 0xE0, s[1] - 0x80, s[2] - 0x80);
    } else if n == 4 {
      Four(s[0] - 0xF0, s[1] - 0x80, s[2] - 0x80, s[3] - 0x80);
      Digits(c, s[0] - 0xF0, s[1] - 0x80, s[2] - 0x80, s[3] - 0x80);
    }
    hide Carried;
  }

  /** ... and the encoding of any scalar value is read as such a character, whatever follows. */
  lemma ScalarIsFront(c: nat, rest: seq<byte>)
    requires IsScalar(c)
    ensures FrontLength(EncodeScalar(c) + rest) == |EncodeScalar(c)| && ScalarOf(EncodeScalar(c) + rest) == c
  {
    var s := EncodeScalar(c) + rest;
    Pieces(c);
    if c < 0x80 {
      assert FrontLength(s) == 1;
    } else if c < 0x800 {
      assert FrontLength(s) == 2;
      Two(c / 64, c % 64);
    } else if c < 0x1_0000 {
      ThreeInFront(c, rest);
      Three(c / 4096, c / 64 % 64, c % 64);
    } else {
      FourInFront(c, rest);
      Four(c / 262144, c / 4096 % 64, c / 64 % 64, c % 64);
    }
    hide Carried;
  }

  lemma ThreeInFront(c: nat, rest: seq<byte>)
    requires IsScalar(c) && 0x800 <= c < 0x1_0000
    ensures FrontLength(EncodeScalar(c) + rest) == 3
  {
    Pieces(c);
    var s := EncodeScalar(c) + rest;
    assert s[0] == 0xE0 + c / 4096 && s[1] == 0x80 + c / 64 % 64 && s[2] == 0x80 + c % 64;
  }

  lemma FourInFront(c: nat, rest: seq<byte>)
    requires IsScalar(c) && 0x1_0000 <= c
    ensures FrontLength(EncodeScalar(c) + rest) == 4
  {
    Pieces(c);
    var s := EncodeScalar(c) + rest;
    assert s[0] == 0xF0 + c / 262144 && s[1] == 0x80 + c / 4096 % 64 && s[2] == 0x80 + c / 64 % 64;
    assert s[3] == 0x80 + c % 64;
  }
}
