/** The model list with one entry per id, taken from the best-ranked source. */
module Dedupe {
  datatype Entry = Entry(id: string, source: string, display: string)

  const RANKED: seq<string> := ["custom", "cached", "catalog", "preset"]

  /** The position in `RANKED`; 4 for a source that is not ranked. */
  function Rank(source: string): (r: nat)
    ensures r <= 4 && (r < 4 ==> RANKED[r] == source)
    ensures r == 4 ==> source !in RANKED
  {
    if source == RANKED[0] then 0
    else if source == RANKED[1] then 1
    else if source == RANKED[2] then 2
    else if source == RANKED[3] then 3
    else 4
  }

  /** Does entry j come before entry i: a better source, or the same one and earlier in the list? */
  predicate Before(m: seq<Entry>, j: nat, i: nat)
    requires j < |m| && i < |m|
  {
    Rank(m[j].source) < Rank(m[i].source) || (Rank(m[j].source) == Rank(m[i].source) && j < i)
  }

  /** Entry i is the first one of the best-ranked source that has its id. */
  predicate Kept(m: seq<Entry>, i: nat)
    requires i < |m|
  {
    Rank(m[i].source) < 4 && forall j :: 0 <= j < |m| && m[j].id == m[i].id ==> !Before(m, j, i)
  }

  predicate Distinct(m: seq<Entry>) {
    forall i, j :: 0 <= i < j < |m| ==> m[i].id != m[j].id
  }

  predicate ByRank(m: seq<Entry>) {
    forall i, j :: 0 <= i <= j < |m| ==> Rank(m[i].source) <= Rank(m[j].source)
  }

  // ----- which positions are kept, in which order -----

  function KeptOfRank(m: seq<Entry>, r: nat, n: nat): (idx: seq<nat>)
    requires n <= |m|
    ensures forall k :: 0 <= k < |idx| ==> idx[k] < n
  {
    if n == 0 then []
    else
      var front := KeptOfRank(m, r, n - 1);
      if Rank(m[n - 1].source) == r && Kept(m, n - 1) then front + [n - 1] else front
  }

  function KeptBelow(m: seq<Entry>, r: nat): (idx: seq<nat>)
    ensures forall k :: 0 <= k < |idx| ==> idx[k] < |m|
  {
    if r == 0 then [] else KeptBelow(m, r - 1) + KeptOfRank(m, r - 1, |m|)
  }

  predicate Indices(m: seq<Entry>, idx: seq<nat>) { forall k :: 0 <= k < |idx| ==> idx[k] < |m| }

  predicate OnlyKept(m: seq<Entry>, idx: seq<nat>, lo: nat, hi: nat)
    requires Indices(m, idx)
  {
    forall k :: 0 <= k < |idx| ==> lo <= Rank(m[idx[k]].source) < hi && Kept(m, idx[k])
  }

  predicate AllKept(m: seq<Entry>, idx: seq<nat>, lo: nat, hi: nat, n: nat)
    requires n <= |m|
  {
    forall i :: 0 <= i < n && lo <= Rank(m[i].source) < hi && Kept(m, i) ==> i in idx
  }

  predicate InOrder(m: seq<Entry>, idx: seq<nat>)
    requires Indices(m, idx)
  {
    forall k, l :: 0 <= k < l < |idx| ==> Before(m, idx[k], idx[l])
  }

  lemma {:induction false} KeptOfRankExact(m: seq<Entry>, r: nat, n: nat)
    requires n <= |m|
    ensures var idx := KeptOfRank(m, r, n);
            OnlyKept(m, idx, r, r + 1) && AllKept(m, idx, r, r + 1, n) && InOrder(m, idx)
  {
    hide Kept, Rank;
    if n > 0 {
      KeptOfRankExact(m, r, n - 1);
      var front := KeptOfRank(m, r, n - 1);
      assert KeptOfRank(m, r, n) != front ==> KeptOfRank(m, r, n) == front + [n - 1];
      assert KeptOfRank(m, r, n) != front ==> (front + [n - 1])[|front|] == n - 1;
    }
  }

  lemma Passes(m: seq<Entry>, a: seq<nat>, b: seq<nat>, r: nat)
    requires Indices(m, a) && Indices(m, b) && InOrder(m, a) && InOrder(m, b)
    requires OnlyKept(m, a, 0, r) && OnlyKept(m, b, r, r + 1)
    requires AllKept(m, a, 0, r, |m|) && AllKept(m, b, r, r + 1, |m|)
    ensures Indices(m, a + b) && InOrder(m, a + b) && OnlyKept(m, a + b, 0, r + 1) && AllKept(m, a + b, 0, r + 1, |m|)
  {
    hide Kept, Rank;
    forall k, l | 0 <= k < l < |a + b|
      ensures Before(m, (a + b)[k], (a + b)[l])
    {
      if k < |a| <= l {
        assert Rank(m[a[k]].source) < r && r <= Rank(m[b[l - |a|]].source);
      }
    }
    forall i | 0 <= i < |m| && 0 <= Rank(m[i].source) < r + 1 && Kept(m, i)
      ensures i in a + b
    {
      assert i in a || i in b;
    }
  }

  lemma NoPass(m: seq<Entry>)
    ensures OnlyKept(m, [], 0, 0) && AllKept(m, [], 0, 0, |m|) && InOrder(m, [])
  {
    hide Kept, Rank;
  }

  lemma {:induction false} KeptBelowExact(m: seq<Entry>, r: nat)
    ensures var idx := KeptBelow(m, r);
            OnlyKept(m, idx, 0, r) && AllKept(m, idx, 0, r, |m|) && InOrder(m, idx)
  {
    hide OnlyKept, AllKept, InOrder, KeptOfRank, Kept, Rank, Before;
    if r == 0 {
      NoPass(m);
    } else {
      KeptBelowExact(m, r - 1);
      KeptOfRankExact(m, r - 1, |m|);
      Passes(m, KeptBelow(m, r - 1), KeptOfRank(m, r - 1, |m|), r - 1);
    }
  }

  function Pick(m: seq<Entry>, idx: seq<nat>): (out: seq<Entry>)
    requires forall k :: 0 <= k < |idx| ==> idx[k] < |m|
    ensures |out| == |idx| && forall k :: 0 <= k < |idx| ==> out[k] == m[idx[k]]
  {
    seq(|idx|, k requires 0 <= k < |idx| => m[idx[k]])
  }

  function Deduped(m: seq<Entry>): seq<Entry> { Pick(m, KeptBelow(m, 4)) }

  // ----- the nested loops of the source -----

  /** Has an entry with this id been met before entry n of pass r? */
  predicate Met(m: seq<Entry>, id: string, r: nat, n: nat) {
    exists j :: 0 <= j < |m| && m[j].id == id &&
      (Rank(m[j].source) < r || (Rank(m[j].source) == r && j < n))
  }

  lemma MetStep(m: seq<Entry>, id: string, r: nat, n: nat)
    requires n < |m|
    ensures Met(m, id, r, n + 1) <==> Met(m, id, r, n) || (Rank(m[n].source) == r && m[n].id == id)
  {
    if Met(m, id, r, n) {
      var j :| 0 <= j < |m| && m[j].id == id && (Rank(m[j].source) < r || (Rank(m[j].source) == r && j < n));
      assert Rank(m[j].source) < r || (Rank(m[j].source) == r && j < n + 1);
    }
  }

  lemma KeptIffNotMet(m: seq<Entry>, r: nat, n: nat)
    requires n < |m| && r < 4 && Rank(m[n].source) == r
    ensures Kept(m, n) <==> !Met(m, m[n].id, r, n)
  {
  }

  /** `seen` holds the ids met before entry n of pass r. */
  ghost predicate Seen(m: seq<Entry>, seen: set<string>, r: nat, n: nat) {
    forall id :: id in seen <==> Met(m, id, r, n)
  }

  lemma SeenStep(m: seq<Entry>, seen: set<string>, r: nat, n: nat)
    requires n < |m| && Seen(m, seen, r, n)
    ensures Seen(m, if Rank(m[n].source) == r then seen + {m[n].id} else seen, r, n + 1)
  {
    forall id
      ensures Met(m, id, r, n + 1) <==> Met(m, id, r, n) || (Rank(m[n].source) == r && m[n].id == id)
    {
      MetStep(m, id, r, n);
    }
  }

  lemma PassDone(m: seq<Entry>, seen: set<string>, r: nat)
    requires Seen(m, seen, r, |m|)
    ensures Seen(m, seen, r + 1, 0)
  {
    forall id
      ensures Met(m, id, r, |m|) <==> Met(m, id, r + 1, 0)
    {
      if Met(m, id, r, |m|) {
        var j :| 0 <= j < |m| && m[j].id == id && (Rank(m[j].source) < r || (Rank(m[j].source) == r && j < |m|));
        assert Rank(m[j].source) < r + 1;
      }
    }
  }

  function Output(m: seq<Entry>, r: nat, n: nat): seq<Entry>
    requires n <= |m|
  {
    Pick(m, KeptBelow(m, r) + KeptOfRank(m, r, n))
  }

  lemma PassEnds(m: seq<Entry>, r: nat)
    ensures Output(m, r + 1, 0) == Output(m, r, |m|)
  {
    assert KeptBelow(m, r + 1) + KeptOfRank(m, r + 1, 0) == KeptBelow(m, r) + KeptOfRank(m, r, |m|);
  }

  /** One more entry of a pass is kept exactly when its source is the pass's and its id has not been met. */
  lemma PassStep(m: seq<Entry>, seen: set<string>, r: nat, n: nat)
    requires r < 4 && n < |m| && Seen(m, seen, r, n)
    ensures Output(m, r, n + 1)
            == Output(m, r, n) + if m[n].source == RANKED[r] && m[n].id !in seen then [m[n]] else []
  {
    if Rank(m[n].source) == r {
      KeptIffNotMet(m, r, n);
    }
    hide Kept, Met, KeptBelow;
    assert KeptBelow(m, r) + (KeptOfRank(m, r, n) + [n]) == (KeptBelow(m, r) + KeptOfRank(m, r, n)) + [n];
  }

  method DedupeModels(models: seq<Entry>) returns (out: seq<Entry>)
    ensures out == Deduped(models)
  {
    hide Rank, Seen, Output;
    var seen: set<string> := {};
    out := [];
    NothingSeen(models);
    for r := 0 to 4
      invariant out == Output(models, r, 0)
      invariant Seen(models, seen, r, 0)
    {
      for n := 0 to |models|
        invariant out == Output(models, r, n)
        invariant Seen(models, seen, r, n)
      {
        PassStep(models, seen, r, n);
        SeenStep(models, seen, r, n);
        if models[n].source == RANKED[r] {
          var key := models[n].id;
          if key !in seen {
            seen := seen + {key};
            out := out + [models[n]];
          } else {
            assert seen + {key} == seen;
          }
        }
      }
      PassDone(models, seen, r);
      PassEnds(models, r);
    }
    AllPassesDone(models);
  }

  lemma AllPassesDone(m: seq<Entry>)
    ensures Output(m, 4, 0) == Deduped(m)
  {
    assert KeptBelow(m, 4) + KeptOfRank(m, 4, 0) == KeptBelow(m, 4);
  }

  lemma NothingSeen(m: seq<Entry>)
    ensures Seen(m, {}, 0, 0) && Output(m, 0, 0) == []
  {
  }

  // ----- what the result is -----

  /**
   Which entry is kept, word for word: its source is one of the four, no entry with its id has a source named
   before it in "custom", "cached", "catalog", "preset", and none with its id and source stands before it.
   */
  lemma KeptExact(m: seq<Entry>, i: nat)
    requires i < |m|
    ensures Kept(m, i) <==>
              exists p :: 0 <= p < 4 && m[i].source == ["custom", "cached", "catalog", "preset"][p] &&
                forall j :: 0 <= j < |m| && m[j].id == m[i].id ==>
                  (m[j].source == m[i].source ==> i <= j) &&
                  forall q :: 0 <= q < p ==> m[j].source != ["custom", "cached", "catalog", "preset"][q]
  {
    assert RANKED == ["custom", "cached", "catalog", "preset"];
    var p := Rank(m[i].source);
    if Kept(m, i) {
      assert m[i].source == ["custom", "cached", "catalog", "preset"][p];
    }
  }

  /** One entry per ranked id, ordered by rank, and within one source in the order of the input. */
  lemma DedupeOrder(m: seq<Entry>)
    ensures Distinct(Deduped(m)) && ByRank(Deduped(m))
    ensures exists idx: seq<nat> :: Indices(m, idx) && Deduped(m) == Pick(m, idx) && InOrder(m, idx)
  {
    KeptBelowExact(m, 4);
    assert Indices(m, KeptBelow(m, 4));
  }

  /** The entries kept are exactly the first ones of the best-ranked source of their id. */
  lemma DedupeMembers(m: seq<Entry>)
    ensures forall e :: e in Deduped(m) <==> exists i :: 0 <= i < |m| && e == m[i] && Kept(m, i)
  {
    KeptBelowExact(m, 4);
    var idx, out := KeptBelow(m, 4), Deduped(m);
    hide Kept;
    forall e | e in out
      ensures exists i :: 0 <= i < |m| && e == m[i] && Kept(m, i)
    {
      var k :| 0 <= k < |out| && out[k] == e;
      assert e == m[idx[k]] && Kept(m, idx[k]);
    }
    forall i | 0 <= i < |m| && Kept(m, i)
      ensures m[i] in out
    {
      KeptIsRanked(m, i);
      assert i in idx;
      var k :| 0 <= k < |idx| && idx[k] == i;
      assert out[k] == m[i];
    }
  }

  lemma KeptIsRanked(m: seq<Entry>, i: nat)
    requires i < |m| && Kept(m, i)
    ensures Rank(m[i].source) < 4
  {
  }

  predicate HasId(m: seq<Entry>, id: string) { exists i :: 0 <= i < |m| && m[i].id == id }

  predicate HasRankedId(m: seq<Entry>, id: string) {
    exists i :: 0 <= i < |m| && m[i].id == id && Rank(m[i].source) < 4
  }

  /** The ids of the result are precisely the input ids with a ranked source. */
  lemma DedupeIds(m: seq<Entry>, id: string)
    ensures HasId(Deduped(m), id) <==> HasRankedId(m, id)
  {
    DedupeMembers(m);
    var out := Deduped(m);
    if HasId(out, id) {
      var k :| 0 <= k < |out| && out[k].id == id;
      assert out[k] in out;
    }
    if HasRankedId(m, id) {
      var i :| 0 <= i < |m| && m[i].id == id && Rank(m[i].source) < 4;
      var j := BestOf(m, i);
      assert m[j] in out;
    }
  }

  /** Every ranked id has a kept entry. */
  lemma {:induction false} BestOf(m: seq<Entry>, i: nat) returns (k: nat)
    requires i < |m| && Rank(m[i].source) < 4
    ensures k < |m| && m[k].id == m[i].id && Kept(m, k)
    decreases Rank(m[i].source), i
  {
    if Kept(m, i) {
      k := i;
    } else {
      var j :| 0 <= j < |m| && m[j].id == m[i].id && Before(m, j, i);
      k := BestOf(m, j);
    }
  }

  lemma NextIsBeyond(idx: seq<nat>, n: nat)
    requires forall a, b :: 0 <= a < b < |idx| ==> idx[a] < idx[b]
    requires n < |idx| && (n > 0 ==> idx[n - 1] == n - 1)
    ensures idx[n] >= n
  {
  }

  /** An increasing sequence of exactly the numbers below n is 0, 1, .., n - 1. */
  lemma {:induction false} IdentityOrder(idx: seq<nat>, n: nat, k: nat)
    requires forall a, b :: 0 <= a < b < |idx| ==> idx[a] < idx[b]
    requires forall a :: 0 <= a < |idx| ==> idx[a] < n
    requires forall i :: 0 <= i < n ==> i in idx
    requires k <= n
    ensures k <= |idx| && forall a :: 0 <= a < k ==> idx[a] == a
    ensures k == n ==> |idx| == n
  {
    if k > 0 {
      IdentityOrder(idx, n, k - 1);
      assert k - 1 in idx;
      var p :| 0 <= p < |idx| && idx[p] == k - 1;
      assert p >= k - 1;
      assert idx[k - 1] <= k - 1;
      assert k > 1 ==> idx[k - 2] < idx[k - 1];
    }
    if k == n && |idx| > n {
      NextIsBeyond(idx, n);
    }
  }

  lemma RankedDistinctAreKept(m: seq<Entry>)
    requires Distinct(m) && forall k :: 0 <= k < |m| ==> Rank(m[k].source) < 4
    ensures forall k :: 0 <= k < |m| ==> Kept(m, k)
  {
  }

  lemma RankedSortedIsFixed(m: seq<Entry>)
    requires ByRank(m) && (forall k :: 0 <= k < |m| ==> Rank(m[k].source) < 4 && Kept(m, k))
    ensures Deduped(m) == m
  {
    KeptBelowExact(m, 4);
    var idx := KeptBelow(m, 4);
    hide Kept, KeptBelow, Deduped, Rank;
    forall a, b | 0 <= a < b < |idx|
      ensures idx[a] < idx[b]
    {
      assert Before(m, idx[a], idx[b]);
    }
    IdentityOrder(idx, |m|, |m|);
    assert Pick(m, idx) == m;
    DedupedIsPick(m);
  }

  lemma DedupedIsRanked(m: seq<Entry>)
    ensures forall k :: 0 <= k < |Deduped(m)| ==> Rank(Deduped(m)[k].source) < 4
  {
    KeptBelowExact(m, 4);
    hide Rank, Kept, KeptBelow;
  }

  /** A second pass changes nothing. */
  lemma DedupeIdempotent(m: seq<Entry>)
    ensures Deduped(Deduped(m)) == Deduped(m)
  {
    DedupeOrder(m);
    DedupedIsRanked(m);
    hide Deduped, Rank, Kept;
    RankedDistinctAreKept(Deduped(m));
    RankedSortedIsFixed(Deduped(m));
  }

  lemma DedupedIsPick(m: seq<Entry>)
    ensures Deduped(m) == Pick(m, KeptBelow(m, 4))
  {
  }
}
