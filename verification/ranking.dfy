/** Python's stable `sorted(..., key=..., reverse=True)` / `list.sort` over
    items scored by a natural number, modelled on the items' indices: the
    result lists every index once, higher score first, and equal scores keep
    their original order. Any stable sort yields this one order
    (`RankedUnique`), so the model uses insertion sort. */
module Ranking {

  /** Index `a` comes before index `b`: a higher score, or an equal score and
      an earlier position. */
  predicate Outranks(scores: seq<nat>, a: nat, b: nat)
    requires a < |scores| && b < |scores|
  {
    scores[a] > scores[b] || (scores[a] == scores[b] && a < b)
  }

  /** `r` holds indices of `scores`, each ranked strictly before the later ones. */
  predicate Ranked(scores: seq<nat>, r: seq<nat>) {
    && (forall x :: 0 <= x < |r| ==> r[x] < |scores|)
    && (forall x, y :: 0 <= x < y < |r| ==> Outranks(scores, r[x], r[y]))
  }

  /** `r` lists exactly the indices `0 .. n - 1`. */
  ghost predicate IsIndexPermutation(r: seq<nat>, n: nat) {
    |r| == n && forall i :: i in r <==> 0 <= i < n
  }

  /** Number of leading entries of `r` whose score is at least that of `v`. */
  function InsertPosition(scores: seq<nat>, r: seq<nat>, v: nat): (p: nat)
    requires v < |scores|
    requires forall x :: 0 <= x < |r| ==> r[x] < |scores|
    ensures p <= |r|
    ensures forall x :: 0 <= x < p ==> scores[r[x]] >= scores[v]
    ensures p < |r| ==> scores[r[p]] < scores[v]
  {
    if |r| == 0 || scores[r[0]] < scores[v] then 0
    else 1 + InsertPosition(scores, r[1..], v)
  }

  /** Places index `v`, later than every index in `r`, after all entries whose
      score is at least its own: the step of a stable insertion sort. */
  function Insert(scores: seq<nat>, r: seq<nat>, v: nat): (r': seq<nat>)
    requires v < |scores|
    requires Ranked(scores, r)
    requires forall x :: 0 <= x < |r| ==> r[x] < v
    ensures Ranked(scores, r')
    ensures |r'| == |r| + 1
    ensures forall i :: i in r' <==> i in r || i == v
  {
    var p := InsertPosition(scores, r, v);
    InsertKeepsRanked(scores, r, v, p);
    assert r == r[..p] + r[p..];
    r[..p] + [v] + r[p..]
  }

  lemma InsertKeepsRanked(scores: seq<nat>, r: seq<nat>, v: nat, p: nat)
    requires v < |scores|
    requires Ranked(scores, r)
    requires forall x :: 0 <= x < |r| ==> r[x] < v
    requires p <= |r|
    requires forall x :: 0 <= x < p ==> scores[r[x]] >= scores[v]
    requires p < |r| ==> scores[r[p]] < scores[v]
    ensures Ranked(scores, r[..p] + [v] + r[p..])
  {
    var r' := r[..p] + [v] + r[p..];
    forall x | p <= x < |r| ensures scores[r[x]] < scores[v] {
      if x > p {
        assert Outranks(scores, r[p], r[x]);
      }
    }
    forall x, y | 0 <= x < y < |r'| ensures Outranks(scores, r'[x], r'[y]) {
      if y < p {
        assert r'[x] == r[x] && r'[y] == r[y];
      } else if y == p {
        assert r'[x] == r[x] && r'[y] == v;
      } else if x < p {
        assert r'[x] == r[x] && r'[y] == r[y - 1];
      } else if x == p {
        assert r'[x] == v && r'[y] == r[y - 1];
      } else {
        assert r'[x] == r[x - 1] && r'[y] == r[y - 1];
      }
    }
  }

  /** The ranking of the indices `0 .. n - 1`. */
  function RankPrefix(scores: seq<nat>, n: nat): (r: seq<nat>)
    requires n <= |scores|
    ensures IsIndexPermutation(r, n)
    ensures Ranked(scores, r)
  {
    if n == 0 then []
    else
      var r0 := RankPrefix(scores, n - 1);
      assert forall x :: 0 <= x < |r0| ==> r0[x] < n - 1 by {
        forall x | 0 <= x < |r0| ensures r0[x] < n - 1 {
          assert r0[x] in r0;
        }
      }
      Insert(scores, r0, n - 1)
  }

  /** The stable descending order of all indices of `scores`. */
  function RankOrder(scores: seq<nat>): (r: seq<nat>)
    ensures IsIndexPermutation(r, |scores|)
    ensures Ranked(scores, r)
  {
    RankPrefix(scores, |scores|)
  }

  /** Ranking is a strict order, so two ranked lists of the same indices are
      the same list: the stable sort's result does not depend on the
      algorithm that computes it. */
  lemma {:induction false} RankedUnique(scores: seq<nat>, r1: seq<nat>, r2: seq<nat>)
    requires Ranked(scores, r1) && Ranked(scores, r2)
    requires forall i :: i in r1 <==> i in r2
    ensures r1 == r2
    decreases |r1|
  {
    assert |r1| > 0 ==> r1[0] in r2;
    assert |r2| > 0 ==> r2[0] in r1;
    if |r1| > 0 {
      var x :| 0 <= x < |r1| && r1[x] == r2[0];
      var y :| 0 <= y < |r2| && r2[y] == r1[0];
      assert x > 0 ==> Outranks(scores, r1[0], r1[x]);
      assert y > 0 ==> Outranks(scores, r2[0], r2[y]);
      var t1, t2 := r1[1..], r2[1..];
      forall i ensures i in t1 <==> i in t2 {
        if i in t1 {
          var x :| 0 <= x < |t1| && t1[x] == i;
          assert Outranks(scores, r1[0], r1[x + 1]);
          assert i in r2 && i != r2[0];
        }
        if i in t2 {
          var y :| 0 <= y < |t2| && t2[y] == i;
          assert Outranks(scores, r2[0], r2[y + 1]);
          assert i in r1 && i != r1[0];
        }
      }
      RankedUnique(scores, t1, t2);
      assert r1 == [r1[0]] + t1 && r2 == [r2[0]] + t2;
    }
  }
}
