/** Cutting a sequence at every separator (strings.Split with a one-element separator). */
module Splitting {

  function Split<T(==)>(s: seq<T>, sep: T): (r: seq<seq<T>>)
    ensures r != []
  {
    if s == [] then [[]]
    else
      var front, c := Split(s[..|s| - 1], sep), s[|s| - 1];
      if c == sep then front + [[]]
      else front[..|front| - 1] + [front[|front| - 1] + [c]]
  }

  lemma SplitSnoc<T>(s: seq<T>, c: T, sep: T)
    ensures var front := Split(s, sep);
            Split(s + [c], sep) == if c == sep then front + [[]] else front[..|front| - 1] + [front[|front| - 1] + [c]]
  {
    assert (s + [c])[..|s + [c]| - 1] == s;
  }

  lemma {:induction false} SplitWithout<T>(s: seq<T>, sep: T)
    requires forall i :: 0 <= i < |s| ==> s[i] != sep
    ensures Split(s, sep) == [s]
  {
    if s != [] {
      SplitWithout(s[..|s| - 1], sep);
      assert s == s[..|s| - 1] + [s[|s| - 1]];
    }
  }

  lemma Assoc<T>(a: seq<T>, b: seq<T>, c: seq<T>)
    ensures (a + b) + c == a + (b + c)
  {
  }

  /** Lengthening the last piece of two lists put together lengthens that of the second. */
  lemma LastOfSum<T>(x: seq<seq<T>>, y: seq<seq<T>>, more: seq<T>)
    requires y != []
    ensures var s := x + y;
            s[..|s| - 1] + [s[|s| - 1] + more] == x + (y[..|y| - 1] + [y[|y| - 1] + more])
  {
    assert (x + y)[..|x + y| - 1] == x + y[..|y| - 1];
    Assoc(x, y[..|y| - 1], [y[|y| - 1] + more]);
  }

  lemma {:induction false} SplitAppends<T>(a: seq<T>, b: seq<T>, sep: T)
    ensures Split(a + [sep] + b, sep) == Split(a, sep) + Split(b, sep)
    decreases |b|
  {
    if b == [] {
      assert a + [sep] + b == a + [sep];
      SplitSnoc(a, sep, sep);
      assert Split([], sep) == [[]];
    } else {
      hide Split;
      var front, c := b[..|b| - 1], b[|b| - 1];
      assert b == front + [c];
      SplitAppends(a, front, sep);
      Assoc(a + [sep], front, [c]);
      SplitSnoc(a + [sep] + front, c, sep);
      SplitSnoc(front, c, sep);
      LastOfSum(Split(a, sep), Split(front, sep), [c]);
      Assoc(Split(a, sep), Split(front, sep), [[]]);
    }
  }

  lemma {:induction false} PiecesAreShorter<T>(s: seq<T>, sep: T)
    ensures forall p :: p in Split(s, sep) ==> |p| <= |s|
  {
    if s != [] {
      PiecesAreShorter(s[..|s| - 1], sep);
    }
  }

  lemma {:induction false} OnePieceWithoutSeparators<T>(s: seq<T>, sep: T)
    ensures |Split(s, sep)| == 1 <==> sep !in s
  {
    if s != [] {
      OnePieceWithoutSeparators(s[..|s| - 1], sep);
      assert s == s[..|s| - 1] + [s[|s| - 1]];
    }
  }

  lemma {:induction false} PiecesHaveNoSeparators<T>(s: seq<T>, sep: T)
    ensures forall p :: p in Split(s, sep) ==> sep !in p
  {
    if s != [] {
      PiecesHaveNoSeparators(s[..|s| - 1], sep);
      var front := Split(s[..|s| - 1], sep);
      assert front[|front| - 1] in front;
    }
  }
}
