/** `to_be_bytes` and `from_be_bytes` of Rust's unsigned integers, for any width. */
module BigEndian {
  import opened Prelude

  function Pow256(k: nat): (r: nat)
    ensures r > 0
  {
    if k == 0 then 1 else 256 * Pow256(k - 1)
  }

  function ToBytes(n: nat, width: nat): (r: seq<byte>)
    ensures |r| == width
  {
    if width == 0 then [] else ToBytes(n / 256, width - 1) + [n % 256]
  }

  function FromBytes(s: seq<byte>): (r: nat)
    ensures r < Pow256(|s|)
  {
    if s == [] then 0 else FromBytes(s[..|s| - 1]) * 256 + s[|s| - 1]
  }

  lemma {:induction false} FromTo(n: nat, width: nat)
    requires n < Pow256(width)
    ensures FromBytes(ToBytes(n, width)) == n
  {
    if width > 0 {
      FromTo(n / 256, width - 1);
      SnocFront(ToBytes(n / 256, width - 1), n % 256);
    }
  }

  lemma {:induction false} ToFrom(s: seq<byte>)
    ensures ToBytes(FromBytes(s), |s|) == s
  {
    if s != [] {
      ToFrom(s[..|s| - 1]);
    }
  }

  lemma Widths()
    ensures Pow256(1) == 256 && Pow256(2) == 65536 && Pow256(4) == U32_LIMIT && Pow256(8) == U64_LIMIT
  {
    assert Pow256(2) == 256 * Pow256(1);
    assert Pow256(4) == 256 * Pow256(3) && Pow256(3) == 256 * Pow256(2);
    assert Pow256(6) == 256 * Pow256(5) && Pow256(5) == 256 * Pow256(4);
    assert Pow256(8) == 256 * Pow256(7) && Pow256(7) == 256 * Pow256(6);
  }

  /** The first byte is the most significant one. */
  lemma {:induction false} MostSignificantFirst(s: seq<byte>)
    requires s != []
    ensures FromBytes(s) == s[0] * Pow256(|s| - 1) + FromBytes(s[1..])
  {
    if |s| > 1 {
      var front := s[..|s| - 1];
      MostSignificantFirst(front);
      assert front[1..] == s[1..][..|s| - 2];
      Shift(s[0], Pow256(|s| - 2), FromBytes(front[1..]));
    }
  }

  lemma Shift(b: nat, p: nat, rest: nat)
    ensures (b * p + rest) * 256 == b * (256 * p) + rest * 256
  {
  }
}
