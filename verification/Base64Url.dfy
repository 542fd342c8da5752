/** Base64 with the URL-safe alphabet and no padding (section 5 of RFC 4648), read strictly. */
module Base64Url {
  import opened Prelude

  function Symbol(n: nat): (c: char)
    requires n < 64
  {
    if n < 26 then ('A' as int + n) as char
    else if n < 52 then ('a' as int + n - 26) as char
    else if n < 62 then ('0' as int + n - 52) as char
    else if n == 62 then '-'
    else '_'
  }

  function Value(c: char): (r: Option<nat>)
    ensures r.Some? ==> r.value < 64
  {
    if 'A' <= c <= 'Z' then Some(c as int - 'A' as int)
    else if 'a' <= c <= 'z' then Some(c as int - 'a' as int + 26)
    else if '0' <= c <= '9' then Some(c as int - '0' as int + 52)
    else if c == '-' then Some(62)
    else if c == '_' then Some(63)
    else None
  }

  lemma SymbolValue(n: nat)
    requires n < 64
    ensures Value(Symbol(n)) == Some(n)
  {
  }

  lemma ValueSymbol(c: char)
    requires Value(c).Some?
    ensures Symbol(Value(c).value) == c
  {
  }

  function Encode(b: seq<byte>): string {
    if b == [] then ""
    else if |b| == 1 then
      [Symbol(b[0] / 4), Symbol(b[0] % 4 * 16)]
    else if |b| == 2 then
      [Symbol(b[0] / 4), Symbol(b[0] % 4 * 16 + b[1] / 16), Symbol(b[1] % 16 * 4)]
    else
      [Symbol(b[0] / 4), Symbol(b[0] % 4 * 16 + b[1] / 16), Symbol(b[1] % 16 * 4 + b[2] / 64), Symbol(b[2] % 64)]
      + Encode(b[3..])
  }

  /** The bytes of a full group of four symbols. */
  function Group(s0: nat, s1: nat, s2: nat, s3: nat): seq<byte>
    requires s0 < 64 && s1 < 64 && s2 < 64 && s3 < 64
  {
    [s0 * 4 + s1 / 16, s1 % 16 * 16 + s2 / 4, s2 % 4 * 64 + s3]
  }

  lemma Packed(b0: byte, b1: byte, b2: byte)
    ensures Group(b0 / 4, b0 % 4 * 16 + b1 / 16, b1 % 16 * 4 + b2 / 64, b2 % 64) == [b0, b1, b2]
  {
  }

  lemma Unpacked(s0: nat, s1: nat, s2: nat, s3: nat)
    requires s0 < 64 && s1 < 64 && s2 < 64 && s3 < 64
    ensures var g := Group(s0, s1, s2, s3);
            g[0] / 4 == s0 && g[0] % 4 * 16 + g[1] / 16 == s1 && g[1] % 16 * 4 + g[2] / 64 == s2 && g[2] % 64 == s3
  {
  }

  /** Fails on a foreign character, on one left-over symbol, and on left-over bits that are not zero. */
  function Decode(t: string): Option<seq<byte>> {
    if t == "" then Some([])
    else if |t| == 1 then None
    else if |t| == 2 then
      match (Value(t[0]), Value(t[1]))
      case (Some(s0), Some(s1)) => if s1 % 16 == 0 then Some(Group(s0, s1, 0, 0)[..1]) else None
      case _ => None
    else if |t| == 3 then
      match (Value(t[0]), Value(t[1]), Value(t[2]))
      case (Some(s0), Some(s1), Some(s2)) => if s2 % 4 == 0 then Some(Group(s0, s1, s2, 0)[..2]) else None
      case _ => None
    else
      match (Value(t[0]), Value(t[1]), Value(t[2]), Value(t[3]), Decode(t[4..]))
      case (Some(s0), Some(s1), Some(s2), Some(s3), Some(rest)) => Some(Group(s0, s1, s2, s3) + rest)
      case _ => None
  }

  lemma {:induction false} DecodeEncode(b: seq<byte>)
    ensures Decode(Encode(b)) == Some(b)
    decreases b, 1
  {
    if |b| == 1 {
      OneByte(b[0]);
      assert b == [b[0]];
    } else if |b| == 2 {
      TwoBytes(b[0], b[1]);
      assert b == [b[0], b[1]];
    } else if |b| > 2 {
      GroupOfThree(b);
    }
  }

  lemma OneByte(x: byte)
    ensures Decode(Encode([x])) == Some([x])
  {
    var s0, s1 := x / 4, x % 4 * 16;
    assert s1 % 16 == 0;
    assert Group(s0, s1, 0, 0)[..1] == [x];
    DecodeTail(s0, s1, 0);
  }

  lemma TwoBytes(x: byte, y: byte)
    ensures Decode(Encode([x, y])) == Some([x, y])
  {
    var s0, s1, s2 := x / 4, x % 4 * 16 + y / 16, y % 16 * 4;
    assert s2 % 4 == 0;
    assert Group(s0, s1, s2, 0)[..2] == [x, y];
    hide Decode;
    DecodeTail(s0, s1, s2);
  }

  lemma DecodeTail(s0: nat, s1: nat, s2: nat)
    requires s0 < 64 && s1 < 64 && s2 < 64
    ensures s1 % 16 == 0 ==> Decode([Symbol(s0), Symbol(s1)]) == Some(Group(s0, s1, 0, 0)[..1])
    ensures s2 % 4 == 0 ==> Decode([Symbol(s0), Symbol(s1), Symbol(s2)]) == Some(Group(s0, s1, s2, 0)[..2])
  {
    SymbolValue(s0);
    SymbolValue(s1);
    SymbolValue(s2);
    hide Symbol, Value, Group;
  }

  lemma {:induction false} GroupOfThree(b: seq<byte>)
    requires |b| > 2
    ensures Decode(Encode(b)) == Some(b)
    decreases b, 0
  {
    DecodeEncode(b[3..]);
    var s0, s1, s2, s3 := EncodeGroup(b);
    hide Decode, Encode, Group, Symbol;
    DecodeSymbols(s0, s1, s2, s3, Encode(b[3..]), b[3..]);
    assert b == [b[0], b[1], b[2]] + b[3..];
  }

  lemma EncodeGroup(b: seq<byte>) returns (s0: nat, s1: nat, s2: nat, s3: nat)
    requires |b| > 2
    ensures s0 < 64 && s1 < 64 && s2 < 64 && s3 < 64
    ensures Encode(b) == [Symbol(s0), Symbol(s1), Symbol(s2), Symbol(s3)] + Encode(b[3..])
    ensures Group(s0, s1, s2, s3) == [b[0], b[1], b[2]]
  {
    Packed(b[0], b[1], b[2]);
    hide Symbol, Group;
    s0, s1, s2, s3 := b[0] / 4, b[0] % 4 * 16 + b[1] / 16, b[1] % 16 * 4 + b[2] / 64, b[2] % 64;
  }

  lemma DecodeSymbols(s0: nat, s1: nat, s2: nat, s3: nat, text: string, rest: seq<byte>)
    requires s0 < 64 && s1 < 64 && s2 < 64 && s3 < 64 && Decode(text) == Some(rest)
    ensures Decode([Symbol(s0), Symbol(s1), Symbol(s2), Symbol(s3)] + text) == Some(Group(s0, s1, s2, s3) + rest)
  {
    SymbolValue(s0);
    SymbolValue(s1);
    SymbolValue(s2);
    SymbolValue(s3);
    hide Symbol, Value, Group;
    assert ([Symbol(s0), Symbol(s1), Symbol(s2), Symbol(s3)] + text)[4..] == text;
  }

  /** Only one text decodes to given bytes. */
  lemma {:induction false} EncodeDecode(t: string)
    requires Decode(t).Some?
    ensures Encode(Decode(t).value) == t
    decreases t, 1
  {
    if t != "" {
      ValueSymbol(t[0]);
      ValueSymbol(t[1]);
      var v0, v1 := Value(t[0]).value, Value(t[1]).value;
      if |t| == 2 {
        Unpacked(v0, v1, 0, 0);
      } else {
        ValueSymbol(t[2]);
        var v2 := Value(t[2]).value;
        if |t| == 3 {
          Unpacked(v0, v1, v2, 0);
        } else {
          ValueSymbol(t[3]);
          GroupOfFour(t, v0, v1, v2, Value(t[3]).value);
        }
      }
    }
  }

  lemma {:induction false} GroupOfFour(t: string, v0: nat, v1: nat, v2: nat, v3: nat)
    requires |t| > 3 && Decode(t).Some? && v0 < 64 && v1 < 64 && v2 < 64 && v3 < 64
    requires Value(t[0]) == Some(v0) && Value(t[1]) == Some(v1) && Value(t[2]) == Some(v2) && Value(t[3]) == Some(v3)
    requires Symbol(v0) == t[0] && Symbol(v1) == t[1] && Symbol(v2) == t[2] && Symbol(v3) == t[3]
    ensures Encode(Decode(t).value) == t
    decreases t, 0
  {
    hide Symbol, Value;
    EncodeDecode(t[4..]);
    Unpacked(v0, v1, v2, v3);
    var g, rest := Group(v0, v1, v2, v3), Decode(t[4..]).value;
    hide Group;
    assert (g + rest)[3..] == rest;
    assert t == [t[0], t[1], t[2], t[3]] + t[4..];
  }

  lemma {:induction false} EncodeAlphabet(b: seq<byte>)
    ensures forall c :: c in Encode(b) ==> Value(c).Some?
  {
    if |b| > 2 {
      EncodeAlphabet(b[3..]);
    }
  }

  /** Table 2 of RFC 4648: the symbol of a value. */
  predicate InTable(c: char, value: nat) {
    || (value < 26 && c as int == 'A' as int + value)
    || (26 <= value < 52 && c as int == 'a' as int + (value - 26))
    || (52 <= value < 62 && c as int == '0' as int + (value - 52))
    || (value == 62 && c == '-') || (value == 63 && c == '_')
  }

  /** Byte i, and zero past the end. */
  function At(b: seq<byte>, i: nat): nat { if i < |b| then b[i] else 0 }

  /** Three bytes as one 24-bit number. */
  function Triple(b: seq<byte>, j: nat): nat { At(b, 3 * j) * 65536 + At(b, 3 * j + 1) * 256 + At(b, 3 * j + 2) }

  lemma SymbolExact(n: nat)
    requires n < 64
    ensures InTable(Symbol(n), n)
  {
  }

  lemma DigitsOf(n: nat, a: nat, b: nat, c: nat, d: nat)
    requires a < 64 && b < 64 && c < 64 && d < 64 && n == a * 262144 + b * 4096 + c * 64 + d
    ensures n / 262144 == a && n / 4096 % 64 == b && n / 64 % 64 == c && n % 64 == d
  {
    assert n / 64 == a * 4096 + b * 64 + c;
    assert n / 4096 == a * 64 + b;
  }

  lemma Sextets(b0: byte, b1: byte, b2: byte)
    ensures var n := b0 * 65536 + b1 * 256 + b2;
            && n / 262144 == b0 / 4 && n / 4096 % 64 == b0 % 4 * 16 + b1 / 16
            && n / 64 % 64 == b1 % 16 * 4 + b2 / 64 && n % 64 == b2 % 64
  {
    var n := b0 * 65536 + b1 * 256 + b2;
    assert n == b0 / 4 * 262144 + (b0 % 4 * 16 + b1 / 16) * 4096 + (b1 % 16 * 4 + b2 / 64) * 64 + b2 % 64;
    DigitsOf(n, b0 / 4, b0 % 4 * 16 + b1 / 16, b1 % 16 * 4 + b2 / 64, b2 % 64);
  }

  /** The symbols that group j of the bytes gives, at their place in a text. */
  predicate GroupAt(t: string, b: seq<byte>, j: nat) {
    && 3 * j < |b| && 4 * j + 1 < |t|
    && var n := Triple(b, j);
    && InTable(t[4 * j], n / 262144) && InTable(t[4 * j + 1], n / 4096 % 64)
    && (3 * j + 1 < |b| ==> 4 * j + 2 < |t| && InTable(t[4 * j + 2], n / 64 % 64))
    && (3 * j + 2 < |b| ==> 4 * j + 3 < |t| && InTable(t[4 * j + 3], n % 64))
  }

  /**
   The text is the number the bytes spell, three bytes at a time, in base 64 with the most significant
   digit first; one or two bytes at the end are filled up with zeros and give two or three symbols.
   */
  lemma {:induction false} EncodeExact(b: seq<byte>, j: nat)
    requires 3 * j < |b|
    ensures |Encode(b)| == 4 * (|b| / 3) + (if |b| % 3 == 0 then 0 else |b| % 3 + 1)
    ensures GroupAt(Encode(b), b, j)
  {
    hide *;
    EncodedLength(b);
    if j > 0 {
      EncodeExact(b[3..], j - 1);
      Later(b, j);
      GroupLater(Encode(b), b, j);
    } else {
      FirstGroup(b);
    }
  }

  lemma GroupLater(t: string, b: seq<byte>, j: nat)
    requires j > 0 && 3 * j < |b| && |t| >= 4 && GroupAt(t[4..], b[3..], j - 1) && Triple(b, j) == Triple(b[3..], j - 1)
    ensures GroupAt(t, b, j)
  {
    hide InTable, Triple;
  }

  lemma Later(b: seq<byte>, j: nat)
    requires j > 0 && 3 * j < |b|
    ensures Triple(b, j) == Triple(b[3..], j - 1)
    ensures |Encode(b)| >= 4 && Encode(b)[4..] == Encode(b[3..])
  {
    EncodeRest(b);
    hide Encode;
    assert forall k: nat | k < |b| - 3 :: b[3..][k] == b[k + 3];
  }

  lemma EncodeRest(b: seq<byte>)
    requires |b| > 2
    ensures |Encode(b)| >= 4 && Encode(b)[4..] == Encode(b[3..])
  {
    hide Symbol;
    var front := Encode(b)[..4];
    assert Encode(b) == front + Encode(b[3..]);
  }

  lemma FirstGroup(b: seq<byte>)
    requires b != []
    ensures GroupAt(Encode(b), b, 0)
  {
    var x, y, z := At(b, 0), At(b, 1), At(b, 2);
    var s0, s1, s2, s3 := x / 4, x % 4 * 16 + y / 16, y % 16 * 4 + z / 64, z % 64;
    Sextets(x, y, z);
    FirstSymbols(b, s0, s1, s2, s3);
    hide Encode, Symbol, InTable, At;
    SymbolExact(s0);
    SymbolExact(s1);
    SymbolExact(s2);
    SymbolExact(s3);
  }

  lemma FirstSymbols(b: seq<byte>, s0: nat, s1: nat, s2: nat, s3: nat)
    requires b != []
    requires var x, y, z := At(b, 0), At(b, 1), At(b, 2);
             s0 == x / 4 && s1 == x % 4 * 16 + y / 16 && s2 == y % 16 * 4 + z / 64 && s3 == z % 64
    ensures s0 < 64 && s1 < 64 && s2 < 64 && s3 < 64
    ensures var t := Encode(b);
            && |t| > 1 && t[0] == Symbol(s0) && t[1] == Symbol(s1)
            && (1 < |b| ==> |t| > 2 && t[2] == Symbol(s2))
            && (2 < |b| ==> |t| > 3 && t[3] == Symbol(s3))
  {
    hide Symbol;
  }

  lemma {:induction false} EncodedLength(b: seq<byte>)
    ensures |Encode(b)| == 4 * (|b| / 3) + (if |b| % 3 == 0 then 0 else |b| % 3 + 1)
  {
    if |b| > 2 {
      EncodedLength(b[3..]);
    }
  }
}
