/** The duration texts of invite time-to-live options. */
module Durations {
  import opened Prelude
  import opened Strings

  // ----- decimal numbers -----

  function Decimal(n: nat): (s: string)
    ensures s != ""
    ensures forall i :: 0 <= i < |s| ==> '0' <= s[i] <= '9'
  {
    var digit := ('0' as int + n % 10) as char;
    if n < 10 then [digit] else Decimal(n / 10) + [digit]
  }

  /** The digits read so far stand for `seen`; fails on another character and past the width of u64. */
  function ReadDigits(seen: nat, s: string): (r: Option<u64>)
    requires seen < U64_LIMIT
    decreases |s|
  {
    if s == "" then Some(seen)
    else if !('0' <= s[0] <= '9') then None
    else
      var next := seen * 10 + (s[0] as int - '0' as int);
      if next >= U64_LIMIT then None else ReadDigits(next, s[1..])
  }

  /** `str::parse::<u64>`: digits, at least one, after at most one plus sign. */
  function ParseU64(s: string): Option<u64> {
    var digits := if s != "" && s[0] == '+' then s[1..] else s;
    if digits == "" then None else ReadDigits(0, digits)
  }

  // ----- the two functions of the source -----

  function LowerAscii(c: char): char {
    if 'A' <= c <= 'Z' then (c as int + 32) as char else c
  }

  predicate IsNone(s: string) {
    |s| == 4 && LowerAscii(s[0]) == 'n' && LowerAscii(s[1]) == 'o' && LowerAscii(s[2]) == 'n' && LowerAscii(s[3]) == 'e'
  }

  /** The seconds in a unit suffix; 0 for any other character. */
  function UnitSeconds(c: char): nat {
    if c == 'd' then 86400 else if c == 'h' then 3600 else if c == 'm' then 60 else if c == 's' then 1 else 0
  }

  /** The number and the factor in front of the multiplication. */
  function NumberAndUnit(s: string): (string, nat) {
    if s != "" && UnitSeconds(s[|s| - 1]) > 0 then (s[..|s| - 1], UnitSeconds(s[|s| - 1])) else (s, 1)
  }

  /** The multiplication is u64 arithmetic and wraps around. */
  function ParseDuration(text: string): Option<u64> {
    var s := Trim(text);
    if IsNone(s) then None
    else
      var (digits, unit) := NumberAndUnit(s);
      match ParseU64(digits)
      case None => None
      case Some(n) => Some(n * unit % U64_LIMIT)
  }

  function FormatDuration(secs: u64): string {
    if secs >= 86400 && secs % 86400 == 0 then Decimal(secs / 86400) + "d"
    else if secs >= 3600 && secs % 3600 == 0 then Decimal(secs / 3600) + "h"
    else if secs >= 60 && secs % 60 == 0 then Decimal(secs / 60) + "m"
    else Decimal(secs) + "s"
  }

  // ----- the round trip -----

  /** Reading the decimal digits of n after others, then the rest. */
  lemma {:induction false} ReadsDecimal(n: nat, rest: string)
    requires n < U64_LIMIT
    ensures ReadDigits(0, Decimal(n) + rest) == ReadDigits(n, rest)
    decreases n
  {
    var digit := ('0' as int + n % 10) as char;
    if n < 10 {
      assert ([digit] + rest)[1..] == rest;
    } else {
      ReadsDecimal(n / 10, [digit] + rest);
      assert Decimal(n) + rest == Decimal(n / 10) + ([digit] + rest);
      assert ([digit] + rest)[1..] == rest;
    }
  }

  lemma {:induction false} DecimalRoundTrip(n: u64)
    ensures ParseU64(Decimal(n)) == Some(n)
  {
    ReadsDecimal(n, "");
    var d := Decimal(n);
    assert d + "" == d && '0' <= d[0] <= '9';
    hide Decimal;
  }

  lemma {:induction false} UnitText(digits: string, unit: char)
    requires digits != "" && '0' <= digits[0] <= '9' && UnitSeconds(unit) > 0
    ensures var s := digits + [unit];
            Trim(s) == s && !IsNone(s) && NumberAndUnit(s) == (digits, UnitSeconds(unit))
  {
    var s := digits + [unit];
    assert s[0] == digits[0] && s[|s| - 1] == unit && s[..|s| - 1] == digits;
    assert NoEdgeSpace(s) && !IsNone(s);
    hide IsSpace, IsNone, LowerAscii, TrimStart, TrimEnd;
  }

  /** A number with a unit suffix is read as their product, modulo the width of u64. */
  lemma {:induction false} ReadsUnit(n: u64, unit: char)
    requires UnitSeconds(unit) > 0
    ensures ParseDuration(Decimal(n) + [unit]) == Some(n * UnitSeconds(unit) % U64_LIMIT)
  {
    UnitText(Decimal(n), unit);
    DecimalRoundTrip(n);
    hide Decimal, ParseU64, Trim, IsNone, NumberAndUnit, UnitSeconds;
  }

  // ----- every text -----

  predicate AllDigits(s: string) { forall i :: 0 <= i < |s| ==> '0' <= s[i] <= '9' }

  /** The number that digits stand for in base ten. */
  function NumberOf(s: string): nat
    requires AllDigits(s)
  {
    if s == "" then 0 else 10 * NumberOf(s[..|s| - 1]) + (s[|s| - 1] as int - '0' as int)
  }

  lemma NumberSnoc(s: string, c: char)
    requires AllDigits(s) && '0' <= c <= '9'
    ensures AllDigits(s + [c]) && NumberOf(s + [c]) == 10 * NumberOf(s) + (c as int - '0' as int)
  {
    assert (s + [c])[..|s|] == s;
  }

  /** Digits that follow are read as part of the whole number, which must fit. */
  lemma {:induction false} ReadsFrom(seen: string, s: string)
    requires AllDigits(seen) && AllDigits(s) && NumberOf(seen) < U64_LIMIT
    ensures AllDigits(seen + s)
    ensures ReadDigits(NumberOf(seen), s)
            == if NumberOf(seen + s) < U64_LIMIT then Some(NumberOf(seen + s)) else None
    decreases |s|
  {
    if s == "" {
      assert seen + s == seen;
    } else {
      var longer := seen + [s[0]];
      NumberSnoc(seen, s[0]);
      assert seen + s == longer + s[1..];
      hide NumberOf;
      if NumberOf(longer) < U64_LIMIT {
        ReadsFrom(longer, s[1..]);
      } else {
        OnlyGrows(longer, s[1..]);
      }
    }
  }

  lemma {:induction false} StopsAtOthers(seen: nat, s: string)
    requires seen < U64_LIMIT && !AllDigits(s)
    ensures ReadDigits(seen, s).None?
    decreases |s|
  {
    if '0' <= s[0] <= '9' && seen * 10 + (s[0] as int - '0' as int) < U64_LIMIT {
      assert s == [s[0]] + s[1..];
      StopsAtOthers(seen * 10 + (s[0] as int - '0' as int), s[1..]);
    }
  }

  lemma {:induction false} OnlyGrows(a: string, b: string)
    requires AllDigits(a) && AllDigits(b)
    ensures AllDigits(a + b) && NumberOf(a + b) >= NumberOf(a)
  {
    if b == "" {
      assert a + b == a;
    } else {
      OnlyGrows(a, b[..|b| - 1]);
      NumberSnoc(a + b[..|b| - 1], b[|b| - 1]);
      assert a + b == a + b[..|b| - 1] + [b[|b| - 1]];
    }
  }

  /** A number is read exactly when it is digits behind at most one plus sign and fits a u64, as what they stand for. */
  lemma {:induction false} ParseU64Exact(s: string)
    ensures var digits := if s != "" && s[0] == '+' then s[1..] else s;
            ParseU64(s) == if digits != "" && AllDigits(digits) && NumberOf(digits) < U64_LIMIT
                           then Some(NumberOf(digits)) else None
  {
    var digits := if s != "" && s[0] == '+' then s[1..] else s;
    if AllDigits(digits) {
      ReadsFrom("", digits);
      assert "" + digits == digits;
    } else {
      StopsAtOthers(0, digits);
    }
  }

  /**
   Every text: it is accepted exactly when a number that fits stands before a unit of days, hours, minutes or
   seconds, or alone, and the value is their true product exactly when that fits a u64 as well.
   */
  lemma {:induction false} ReadsUnitExact(text: string)
    ensures var s := Trim(text);
            var last := if s == "" then ' ' else s[|s| - 1];
            var digits := if last == 'd' || last == 'h' || last == 'm' || last == 's' then s[..|s| - 1] else s;
            var unit := if last == 'd' then 86400 else if last == 'h' then 3600 else if last == 'm' then 60 else 1;
            && (ParseDuration(text).Some? <==> ParseU64(digits).Some?)
            && (ParseDuration(text).Some? ==>
                  && ParseDuration(text).value == ParseU64(digits).value * unit % U64_LIMIT
                  && (ParseDuration(text).value == ParseU64(digits).value * unit <==>
                        ParseU64(digits).value * unit < U64_LIMIT))
  {
    var s := Trim(text);
    var (digits, unit) := NumberAndUnit(s);
    if IsNone(s) {
      assert ParseU64(s).None?;
    }
    hide Trim, IsNone, ParseU64;
    if ParseDuration(text).Some? {
      Fits(ParseU64(digits).value * unit);
    }
  }

  lemma Fits(x: nat)
    ensures x % U64_LIMIT == x <==> x < U64_LIMIT
  {
  }

  /** The number and the unit a duration is printed with. */
  function Largest(secs: u64): (r: (u64, char))
    ensures UnitSeconds(r.1) > 0 && r.0 * UnitSeconds(r.1) == secs
  {
    if secs >= 86400 && secs % 86400 == 0 then (secs / 86400, 'd')
    else if secs >= 3600 && secs % 3600 == 0 then (secs / 3600, 'h')
    else if secs >= 60 && secs % 60 == 0 then (secs / 60, 'm')
    else (secs, 's')
  }

  /** The unit printed is the largest one that divides the duration. */
  lemma {:induction false} PrintsLargest(secs: u64)
    ensures var (n, unit) := Largest(secs);
            && FormatDuration(secs) == Decimal(n) + [unit]
            && (unit == 'd' ==> secs == n * 86400) && (unit == 'h' ==> secs == n * 3600 && secs % 86400 != 0)
            && (unit == 'm' ==> secs == n * 60 && secs % 3600 != 0)
            && (unit == 's' ==> secs == n && (secs == 0 || secs % 60 != 0))
            && (unit == 'd' || unit == 'h' || unit == 'm' || unit == 's')
  {
    hide Decimal;
  }

  /** Every duration is read back as itself; the product on the way is the duration, so it does not overflow. */
  lemma {:induction false} DurationRoundTrip(secs: u64)
    ensures ParseDuration(FormatDuration(secs)) == Some(secs)
    ensures FormatDuration(secs) == Decimal(Largest(secs).0) + [Largest(secs).1]
    ensures Largest(secs).0 * UnitSeconds(Largest(secs).1) == secs
  {
    hide Decimal, ParseDuration, UnitSeconds;
    var (n, unit) := Largest(secs);
    ReadsUnit(n, unit);
  }
}
