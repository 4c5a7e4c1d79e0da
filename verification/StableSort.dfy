/** The stable sort by rule rank that the rule listing uses (sort.SliceStable in awgroute.go). */
module StableSort {
  import opened Zones

  /** Ranked rules come first, by rank; rules without a rank keep their order after them. */
  predicate RanksBefore(a: Zone, b: Zone) {
    a.order > 0 && (b.order <= 0 || a.order < b.order)
  }

  function Insert(z: Zone, s: seq<Zone>): seq<Zone> {
    if s == [] then [z]
    else if RanksBefore(z, s[|s| - 1]) then Insert(z, s[..|s| - 1]) + [s[|s| - 1]]
    else s + [z]
  }

  function Sort(s: seq<Zone>): seq<Zone> {
    if s == [] then [] else Insert(s[|s| - 1], Sort(s[..|s| - 1]))
  }

  predicate Sorted(s: seq<Zone>) {
    forall i, j :: 0 <= i < j < |s| ==> !RanksBefore(s[j], s[i])
  }

  /** The elements that compare equal to rank k (0 for no rank), in order. */
  function WithRank(s: seq<Zone>, k: nat): seq<Zone> {
    if s == [] then []
    else
      var z := s[|s| - 1];
      WithRank(s[..|s| - 1], k) + (if (if z.order > 0 then z.order else 0) == k then [z] else [])
  }

  lemma {:induction false} InsertKeeps(z: Zone, s: seq<Zone>)
    ensures multiset(Insert(z, s)) == multiset(s) + multiset{z}
    ensures forall x :: x in Insert(z, s) <==> x == z || x in s
  {
    if s != [] {
      assert s == s[..|s| - 1] + [s[|s| - 1]];
      if RanksBefore(z, s[|s| - 1]) {
        InsertKeeps(z, s[..|s| - 1]);
      }
    }
  }

  lemma {:induction false} InsertSorts(z: Zone, s: seq<Zone>)
    requires Sorted(s)
    ensures Sorted(Insert(z, s))
  {
    if s != [] {
      var front, last := s[..|s| - 1], s[|s| - 1];
      if RanksBefore(z, last) {
        InsertSorts(z, front);
        InsertKeeps(z, front);
        var rest := Insert(z, front);
        forall i | 0 <= i < |rest|
          ensures !RanksBefore(last, rest[i])
        {
          assert rest[i] in rest;
          if rest[i] in front {
            var j :| 0 <= j < |front| && front[j] == rest[i];
            assert s[j] == rest[i];
          }
        }
      }
    }
  }

  lemma WithRankSnoc(s: seq<Zone>, z: Zone, k: nat)
    ensures WithRank(s + [z], k) == WithRank(s, k) + (if (if z.order > 0 then z.order else 0) == k then [z] else [])
  {
    assert (s + [z])[..|s + [z]| - 1] == s;
  }

  lemma {:induction false} InsertIsStable(z: Zone, s: seq<Zone>, k: nat)
    requires Sorted(s)
    ensures WithRank(Insert(z, s), k) == WithRank(s + [z], k)
  {
    if s == [] {
      assert s + [z] == [z];
    } else if RanksBefore(z, s[|s| - 1]) {
      InsertIsStable(z, s[..|s| - 1], k);
      SwapKeepsRanks(Insert(z, s[..|s| - 1]), s[..|s| - 1], s[|s| - 1], z, k);
      assert s == s[..|s| - 1] + [s[|s| - 1]];
    }
  }

  /** Moving z before a rule of another rank changes no rank class. */
  lemma SwapKeepsRanks(inserted: seq<Zone>, front: seq<Zone>, last: Zone, z: Zone, k: nat)
    requires RanksBefore(z, last) && WithRank(inserted, k) == WithRank(front + [z], k)
    ensures WithRank(inserted + [last], k) == WithRank((front + [last]) + [z], k)
  {
    hide WithRank;
    WithRankSnoc(inserted, last, k);
    WithRankSnoc(front, z, k);
    WithRankSnoc(front, last, k);
    WithRankSnoc(front + [last], z, k);
  }

  /** The result is a sorted permutation, and rules of equal rank keep their order. */
  lemma {:induction false} SortIsStable(s: seq<Zone>, k: nat)
    ensures multiset(Sort(s)) == multiset(s) && Sorted(Sort(s))
    ensures WithRank(Sort(s), k) == WithRank(s, k)
  {
    if s != [] {
      var front, last := s[..|s| - 1], s[|s| - 1];
      assert s == front + [last];
      SortIsStable(front, k);
      InsertKeeps(last, Sort(front));
      InsertSorts(last, Sort(front));
      InsertIsStable(last, Sort(front), k);
      WithRankSnoc(Sort(front), last, k);
      WithRankSnoc(front, last, k);
    }
  }

  /** Ranks 1, 2, ... in increasing order, possibly with gaps. */
  predicate Ranked(s: seq<Zone>) {
    && (forall i :: 0 <= i < |s| ==> s[i].order > 0)
    && (forall i, j :: 0 <= i < j < |s| ==> s[i].order < s[j].order)
  }

  lemma LastIsTheSame(r: seq<Zone>, t: seq<Zone>, n: nat)
    requires Sorted(r) && Ranked(t) && |r| == |t| == n + 1
    requires r[n] in t && t[n] in r
    ensures r[n] == t[n]
  {
    var m :| 0 <= m <= n && r[m] == t[n];
    var k :| 0 <= k <= n && t[k] == r[n];
    assert m < n ==> !RanksBefore(r[n], r[m]);
  }

  lemma {:induction false} SortedIsUnique(r: seq<Zone>, t: seq<Zone>)
    requires Sorted(r) && Ranked(t) && multiset(r) == multiset(t)
    ensures r == t
    decreases |t|
  {
    hide Sorted, Ranked;
    assert |r| == |multiset(r)| == |multiset(t)| == |t|;
    if t != [] {
      var n := |t| - 1;
      assert t[n] in multiset(r) && r[n] in multiset(t);
      LastIsTheSame(r, t, n);
      DropLast(r, n);
      DropLast(t, n);
      SortedIsUnique(r[..n], t[..n]);
    }
  }

  lemma DropLast(s: seq<Zone>, n: nat)
    requires |s| == n + 1
    ensures s == s[..n] + [s[n]]
    ensures multiset(s[..n]) == multiset(s) - multiset{s[n]}
    ensures Sorted(s) ==> Sorted(s[..n])
    ensures Ranked(s) ==> Ranked(s[..n])
  {
    assert s == s[..n] + [s[n]];
  }

  /** Any arrangement of distinctly ranked rules sorts back to rank order. */
  lemma SortRestoresRankOrder(s: seq<Zone>, t: seq<Zone>)
    requires Ranked(t) && multiset(s) == multiset(t)
    ensures Sort(s) == t
  {
    SortIsStable(s, 0);
    SortedIsUnique(Sort(s), t);
  }
}
