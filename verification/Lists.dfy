/** Lists without repetition, in order of first appearance. */
module Lists {

  predicate NoDuplicates<T(==)>(s: seq<T>) {
    forall i, j :: 0 <= i < j < |s| ==> s[i] != s[j]
  }

  /** The distinct elements of s, each where it first appears. */
  function Dedup<T(==)>(s: seq<T>): seq<T> {
    if s == [] then []
    else
      var front := s[..|s| - 1];
      if s[|s| - 1] in front then Dedup(front) else Dedup(front) + [s[|s| - 1]]
  }

  lemma {:induction false} DedupKeepsElements<T>(s: seq<T>)
    ensures forall x :: x in Dedup(s) <==> x in s
  {
    if s != [] {
      DedupKeepsElements(s[..|s| - 1]);
      assert s == s[..|s| - 1] + [s[|s| - 1]];
    }
  }

  lemma {:induction false} DedupHasNoDuplicates<T>(s: seq<T>)
    ensures NoDuplicates(Dedup(s))
  {
    if s != [] {
      DedupHasNoDuplicates(s[..|s| - 1]);
      DedupKeepsElements(s[..|s| - 1]);
    }
  }

  /** Appending one element, the way a loop with a `seen` map does. */
  lemma DedupSnoc<T>(s: seq<T>, x: T)
    ensures Dedup(s + [x]) == if x in s then Dedup(s) else Dedup(s) + [x]
  {
    assert (s + [x])[..|s + [x]| - 1] == s;
  }

  lemma {:induction false} DedupOfDistinct<T>(s: seq<T>)
    requires NoDuplicates(s)
    ensures Dedup(s) == s
  {
    if s != [] {
      DedupOfDistinct(s[..|s| - 1]);
    }
  }

  /** x appears at k in s and not before. */
  predicate FirstAt<T(==)>(s: seq<T>, x: T, k: nat) {
    k < |s| && s[k] == x && x !in s[..k]
  }

  /** The elements keep the order in which they first appear. */
  lemma {:induction false} DedupKeepsOrder<T>(s: seq<T>, i: nat, j: nat, ki: nat, kj: nat)
    requires i < j < |Dedup(s)| && FirstAt(s, Dedup(s)[i], ki) && FirstAt(s, Dedup(s)[j], kj)
    ensures ki < kj
  {
    var front, x := s[..|s| - 1], s[|s| - 1];
    DedupKeepsElements(front);
    DedupHasNoDuplicates(s);
    assert forall k :: 0 <= k < |front| ==> front[..k] == s[..k];
    if j < |Dedup(front)| {
      assert Dedup(front)[i] in front && Dedup(front)[j] in front;
      assert ki < |front| && kj < |front|;
      DedupKeepsOrder(front, i, j, ki, kj);
    } else {
      assert Dedup(s)[j] == x && x !in front;
      assert Dedup(front)[i] in front;
    }
  }
}
