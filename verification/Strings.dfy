/** The string operations of Rust's standard library that the parsers of the model use. */
module Strings {

  /** `char::is_whitespace` */
  predicate IsSpace(c: char) {
    || '\t' <= c <= '\r' || c == ' ' || c == '\U{85}' || c == '\U{A0}' || c == '\U{1680}'
    || '\U{2000}' <= c <= '\U{200A}' || c == '\U{2028}' || c == '\U{2029}' || c == '\U{202F}' || c == '\U{205F}'
    || c == '\U{3000}'
  }

  predicate NoEdgeSpace(s: string) { s != "" ==> !IsSpace(s[0]) && !IsSpace(s[|s| - 1]) }

  function TrimEnd(s: string): (r: string)
    ensures r <= s
    ensures r != "" ==> !IsSpace(r[|r| - 1])
  {
    if s != "" && IsSpace(s[|s| - 1]) then TrimEnd(s[..|s| - 1]) else s
  }

  function TrimStart(s: string): (r: string)
    ensures |r| <= |s| && r == s[|s| - |r|..]
    ensures r != "" ==> !IsSpace(r[0])
  {
    if s != "" && IsSpace(s[0]) then TrimStart(s[1..]) else s
  }

  function Trim(s: string): (r: string)
    ensures |r| <= |s| && NoEdgeSpace(r)
    ensures r == s <==> NoEdgeSpace(s)
  {
    TrimEnd(TrimStart(s))
  }

  /** Trailing space is cut from what follows the last visible character only. */
  lemma {:induction false} TrimEndAfter(front: string, back: string)
    requires front != "" && !IsSpace(front[|front| - 1])
    ensures TrimEnd(front + back) == front + TrimEnd(back)
  {
    var s := front + back;
    if back == "" {
      assert s == front;
    } else if IsSpace(back[|back| - 1]) {
      TrimEndAfter(front, back[..|back| - 1]);
      assert s[..|s| - 1] == front + back[..|back| - 1];
    }
  }

  predicate EndsWith(s: string, suffix: string) {
    |s| >= |suffix| && s[|s| - |suffix|..] == suffix
  }

  function StripSuffix(s: string, suffix: string): string {
    if EndsWith(s, suffix) then s[..|s| - |suffix|] else s
  }

  datatype Halves = Whole | Halves(left: string, right: string)

  /** `split_once`: around the first occurrence. */
  function SplitFirst(s: string, c: char): (r: Halves)
    ensures r.Whole? <==> c !in s
    ensures r.Halves? ==> s == r.left + [c] + r.right && c !in r.left
  {
    if s == "" then Whole
    else if s[0] == c then Halves("", s[1..])
    else
      match SplitFirst(s[1..], c)
      case Whole => Whole
      case Halves(left, right) => assert s == [s[0]] + s[1..]; Halves([s[0]] + left, right)
  }

  /** `rsplit_once`: around the last occurrence. */
  function SplitLast(s: string, c: char): (r: Halves)
    ensures r.Whole? <==> c !in s
    ensures r.Halves? ==> s == r.left + [c] + r.right && c !in r.right
  {
    if s == "" then Whole
    else if s[|s| - 1] == c then assert s == s[..|s| - 1] + [c]; Halves(s[..|s| - 1], "")
    else
      match SplitLast(s[..|s| - 1], c)
      case Whole => assert s == s[..|s| - 1] + [s[|s| - 1]]; Whole
      case Halves(left, right) => assert s == s[..|s| - 1] + [s[|s| - 1]]; Halves(left, right + [s[|s| - 1]])
  }

  lemma {:induction false} FirstIsUnique(left: string, c: char, right: string)
    requires c !in left
    ensures SplitFirst(left + [c] + right, c) == Halves(left, right)
  {
    var s := left + [c] + right;
    if left != "" {
      FirstIsUnique(left[1..], c, right);
      assert s[1..] == left[1..] + [c] + right;
    } else {
      assert s[1..] == right;
    }
  }

  lemma InRight(left: string, c: char, right: string, i: nat)
    ensures |left| < i <= |left| + |right| ==> (left + [c] + right)[i] in right
  {
    if |left| < i <= |left| + |right| {
      assert (left + [c] + right)[i] == right[i - |left| - 1];
    }
  }

  /** Around a character that the right part lacks there is only one way to cut. */
  lemma CutIsUnique(l1: string, r1: string, l2: string, r2: string, c: char)
    requires l1 + [c] + r1 == l2 + [c] + r2 && c !in r1 && c !in r2
    ensures l1 == l2 && r1 == r2
  {
    var s := l1 + [c] + r1;
    assert s[|l1|] == c && s[|l2|] == c;
    InRight(l1, c, r1, |l2|);
    InRight(l2, c, r2, |l1|);
    assert |l1| == |l2|;
    assert l1 == s[..|l1|] && l2 == s[..|l1|] && r1 == s[|l1| + 1..] && r2 == s[|l1| + 1..];
  }

  lemma {:induction false} LastIsUnique(left: string, c: char, right: string)
    requires c !in right
    ensures SplitLast(left + [c] + right, c) == Halves(left, right)
  {
    var s := left + [c] + right;
    var r := SplitLast(s, c);
    assert s[|left|] == c;
    hide SplitLast;
    CutIsUnique(r.left, r.right, left, right, c);
  }

  /** `split`: the pieces between the occurrences of a character, never none. */
  function Split(s: string, c: char): (r: seq<string>)
    ensures r != []
  {
    if s == "" then [""]
    else
      var rest := Split(s[1..], c);
      if s[0] == c then [""] + rest else [[s[0]] + rest[0]] + rest[1..]
  }

  function Join(pieces: seq<string>, c: char): string {
    if pieces == [] then ""
    else if |pieces| == 1 then pieces[0]
    else pieces[0] + [c] + Join(pieces[1..], c)
  }

  lemma {:induction false} JoinSplit(s: string, c: char)
    ensures Join(Split(s, c), c) == s
  {
    if s != "" {
      JoinSplit(s[1..], c);
      var rest := Split(s[1..], c);
      if s[0] == c {
        assert Split(s, c)[1..] == rest;
      } else if |rest| > 1 {
        assert Split(s, c)[1..] == rest[1..];
      }
    }
  }

  /** A last piece without the separator comes off whole. */
  lemma {:induction false} SplitAppend(front: string, c: char, last: string)
    requires c !in last
    ensures Split(front + [c] + last, c) == Split(front, c) + [last]
  {
    var s := front + [c] + last;
    if front == "" {
      SplitNone(last, c);
      assert s[1..] == last;
    } else {
      SplitAppend(front[1..], c, last);
      assert s[1..] == front[1..] + [c] + last;
    }
  }

  lemma {:induction false} SplitNone(s: string, c: char)
    requires c !in s
    ensures Split(s, c) == [s]
  {
    if s != "" {
      SplitNone(s[1..], c);
      assert s == [s[0]] + s[1..];
    }
  }

  function UpperChar(c: char): char {
    if 'a' <= c <= 'z' then (c as int - 32) as char else c
  }

  /** `to_ascii_uppercase` */
  function Upper(s: string): (r: string)
    ensures |r| == |s|
    ensures forall i :: 0 <= i < |s| ==> r[i] == if 'a' <= s[i] <= 'z' then (s[i] as int - 32) as char else s[i]
  {
    seq(|s|, i requires 0 <= i < |s| => UpperChar(s[i]))
  }
}
