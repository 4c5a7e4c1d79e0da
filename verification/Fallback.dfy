/** Backup lists of connections (fallback.go). */
module Fallback {
  import opened Wrappers
  import opened Text
  import opened Lists

  /** The usable IDs of a raw list: trimmed, blanks dropped. */
  function Ids(raw: seq<string>): seq<string> {
    if raw == [] then []
    else
      var id := TrimSpace(raw[|raw| - 1]);
      Ids(raw[..|raw| - 1]) + (if id == "" then [] else [id])
  }

  function Without(s: seq<string>, x: string): seq<string> {
    if s == [] then []
    else Without(s[..|s| - 1], x) + (if s[|s| - 1] == x then [] else [s[|s| - 1]])
  }

  /** The priority list of a connection: itself, then its backups, each once. */
  function Candidates(primary: string, fallbacks: seq<string>): seq<string> {
    Dedup(Ids([primary] + fallbacks))
  }

  /** The canonical backup list: each backup once, the primary never. */
  function Backups(primary: string, fallbacks: seq<string>): seq<string> {
    Dedup(Without(Ids(fallbacks), TrimSpace(primary)))
  }

  predicate Clean(ids: seq<string>) {
    forall x :: x in ids ==> x != "" && TrimSpace(x) == x
  }

  lemma IdsSnoc(raw: seq<string>, x: string)
    ensures Ids(raw + [x]) == if TrimSpace(x) == "" then Ids(raw) else Ids(raw) + [TrimSpace(x)]
  {
    assert (raw + [x])[..|raw + [x]| - 1] == raw;
  }

  lemma WithoutSnoc(s: seq<string>, x: string, self: string)
    ensures Without(s + [x], self) == if x == self then Without(s, self) else Without(s, self) + [x]
  {
    assert (s + [x])[..|s + [x]| - 1] == s;
  }

  lemma {:induction false} IdsMembers(raw: seq<string>)
    ensures Clean(Ids(raw))
    ensures forall x :: x in Ids(raw) <==> x != "" && exists i :: 0 <= i < |raw| && TrimSpace(raw[i]) == x
  {
    if raw != [] {
      var front := raw[..|raw| - 1];
      IdsMembers(front);
      TrimSpaceTrims(raw[|raw| - 1]);
      forall x | x in Ids(raw)
        ensures exists i :: 0 <= i < |raw| && TrimSpace(raw[i]) == x
      {
        if x in Ids(front) {
          var i :| 0 <= i < |front| && TrimSpace(front[i]) == x;
          assert raw[i] == front[i];
        }
      }
      forall i | 0 <= i < |raw| && TrimSpace(raw[i]) != ""
        ensures TrimSpace(raw[i]) in Ids(raw)
      {
        if i < |front| {
          assert front[i] == raw[i];
        }
      }
    }
  }

  lemma {:induction false} IdsOfClean(ids: seq<string>)
    requires Clean(ids)
    ensures Ids(ids) == ids
  {
    if ids != [] {
      var front := ids[..|ids| - 1];
      assert ids == front + [ids[|ids| - 1]];
      assert ids[|ids| - 1] in ids;
      assert Clean(front) by {
        hide TrimSpace;
        assert forall x :: x in front ==> x in ids;
      }
      IdsOfClean(front);
    }
  }

  lemma {:induction false} WithoutMembers(s: seq<string>, x: string)
    ensures forall y :: y in Without(s, x) <==> y in s && y != x
    ensures x !in s ==> Without(s, x) == s
  {
    if s != [] {
      assert s == s[..|s| - 1] + [s[|s| - 1]];
      WithoutMembers(s[..|s| - 1], x);
    }
  }

  lemma BackupsMembers(primary: string, fallbacks: seq<string>)
    ensures NoDuplicates(Backups(primary, fallbacks)) && Clean(Backups(primary, fallbacks))
    ensures forall x :: x in Backups(primary, fallbacks) <==>
              x != "" && x != TrimSpace(primary) && exists i :: 0 <= i < |fallbacks| && TrimSpace(fallbacks[i]) == x
  {
    IdsMembers(fallbacks);
    WithoutMembers(Ids(fallbacks), TrimSpace(primary));
    DedupKeepsElements(Without(Ids(fallbacks), TrimSpace(primary)));
    DedupHasNoDuplicates(Without(Ids(fallbacks), TrimSpace(primary)));
  }

  /** x is what the k-th ID reads as, and none before it does. */
  predicate FirstReads(raw: seq<string>, x: string, k: nat) {
    k < |raw| && TrimSpace(raw[k]) == x && forall m :: 0 <= m < k ==> TrimSpace(raw[m]) != x
  }

  /** Backups keep the order in which they are first given: it is the failover priority. */
  lemma {:induction false} BackupsKeepOrder(primary: string, fallbacks: seq<string>, i: nat, j: nat, ki: nat, kj: nat)
    requires i < j < |Backups(primary, fallbacks)|
    requires FirstReads(fallbacks, Backups(primary, fallbacks)[i], ki) && FirstReads(fallbacks, Backups(primary, fallbacks)[j], kj)
    ensures ki < kj
    decreases |fallbacks|
  {
    hide Backups, TrimSpace, Clean;
    NoBackupsOfNothing(primary);
    assert fallbacks != [];
    var front, last := fallbacks[..|fallbacks| - 1], fallbacks[|fallbacks| - 1];
    assert fallbacks == front + [last];
    BackupsSnoc(primary, front, last);
    BackupsMembers(primary, front);
    BackupsMembers(primary, fallbacks);
    var fewer, all := Backups(primary, front), Backups(primary, fallbacks);
    assert fewer[i] in fewer;
    var k :| 0 <= k < |front| && TrimSpace(front[k]) == fewer[i];
    assert ki < |front|;
    if j < |fewer| {
      assert fewer[j] in fewer;
      var m :| 0 <= m < |front| && TrimSpace(front[m]) == fewer[j];
      assert FirstReads(front, fewer[i], ki) && FirstReads(front, fewer[j], kj);
      BackupsKeepOrder(primary, front, i, j, ki, kj);
    } else {
      assert kj >= |front|;
    }
  }

  lemma NoBackupsOfNothing(primary: string)
    ensures Backups(primary, []) == []
  {
  }

  lemma {:induction false} DedupAfterHead(x: string, s: seq<string>)
    ensures Dedup([x] + s) == [x] + Dedup(Without(s, x))
  {
    if s == [] {
      assert [x] + s == [] + [x];
      DedupSnoc([], x);
    } else {
      DedupAfterHead(x, s[..|s| - 1]);
      DedupAfterHeadStep(x, s[..|s| - 1], s[|s| - 1]);
      assert s == s[..|s| - 1] + [s[|s| - 1]];
    }
  }

  lemma DedupAfterHeadStep(x: string, front: seq<string>, last: string)
    requires Dedup([x] + front) == [x] + Dedup(Without(front, x))
    ensures Dedup([x] + (front + [last])) == [x] + Dedup(Without(front + [last], x))
  {
    hide Dedup, Without;
    assert [x] + (front + [last]) == ([x] + front) + [last];
    DedupSnoc([x] + front, last);
    WithoutSnoc(front, last, x);
    WithoutMembers(front, x);
    if last != x {
      DedupSnoc(Without(front, x), last);
      assert last in [x] + front <==> last in front;
      assert ([x] + Dedup(Without(front, x))) + [last] == [x] + (Dedup(Without(front, x)) + [last]);
    } else {
      assert ([x] + front)[0] == x;
    }
  }

  lemma {:induction false} IdsOfCons(x: string, raw: seq<string>)
    ensures Ids([x] + raw) == if TrimSpace(x) == "" then Ids(raw) else [TrimSpace(x)] + Ids(raw)
  {
    hide TrimSpace;
    if raw == [] {
      assert [x] + raw == [] + [x];
      IdsSnoc([], x);
    } else {
      var front, last := raw[..|raw| - 1], raw[|raw| - 1];
      assert raw == front + [last];
      IdsOfCons(x, front);
      IdsSnoc(front, last);
      IdsSnoc([x] + front, last);
      assert [x] + raw == ([x] + front) + [last];
    }
  }

  /** The two canonical forms agree: a priority list is the primary followed by its backups. */
  lemma CandidatesArePrimaryThenBackups(primary: string, fallbacks: seq<string>)
    ensures TrimSpace(primary) != "" ==> Candidates(primary, fallbacks) == [TrimSpace(primary)] + Backups(primary, fallbacks)
    ensures TrimSpace(primary) == "" ==> Candidates(primary, fallbacks) == Backups(primary, fallbacks)
  {
    hide Ids, Dedup, Without, TrimSpace;
    IdsOfCons(primary, fallbacks);
    IdsMembers(fallbacks);
    if TrimSpace(primary) != "" {
      DedupAfterHead(TrimSpace(primary), Ids(fallbacks));
    } else {
      WithoutMembers(Ids(fallbacks), "");
    }
  }

  /** Canonicalising twice changes nothing. */
  lemma BackupsAreCanonical(primary: string, ids: seq<string>)
    requires Clean(ids) && NoDuplicates(ids) && TrimSpace(primary) !in ids
    ensures Backups(primary, ids) == ids
  {
    IdsOfClean(ids);
    WithoutMembers(ids, TrimSpace(primary));
    DedupOfDistinct(ids);
  }

  lemma BackupsIdempotent(primary: string, fallbacks: seq<string>)
    ensures Backups(primary, Backups(primary, fallbacks)) == Backups(primary, fallbacks)
  {
    BackupsMembers(primary, fallbacks);
    BackupsAreCanonical(primary, Backups(primary, fallbacks));
  }

  // ---------- the loops ----------

  lemma EmptyLists()
    ensures Ids([]) == [] && Dedup<string>([]) == [] && forall x :: Without([], x) == []
  {
  }

  method FallbackCandidates(primary: string, fallbacks: seq<string>) returns (out: seq<string>)
    ensures out == Candidates(primary, fallbacks)
  {
    hide Ids, Dedup, TrimSpace;
    EmptyLists();
    var raw := [primary] + fallbacks;
    out := [];
    for i := 0 to |raw|
      invariant out == Dedup(Ids(raw[..i]))
    {
      assert raw[..i + 1] == raw[..i] + [raw[i]];
      var id := TrimSpace(raw[i]);
      IdsSnoc(raw[..i], raw[i]);
      DedupKeepsElements(Ids(raw[..i]));
      DedupSnoc(Ids(raw[..i]), id);
      if id != "" && id !in out {
        out := out + [id];
      }
    }
    assert raw[..|raw|] == raw;
  }

  /** Validate and canonicalise a backup list; the first backup that does not exist is reported. */
  method NormalizeFallbackTunnelIDs(primary: string, fallbacks: seq<string>, known: string -> bool)
      returns (r: Result<seq<string>, string>)
    ensures r.Ok? <==> forall x :: x in Backups(primary, fallbacks) ==> known(x)
    ensures r.Ok? ==> r.value == Backups(primary, fallbacks)
    ensures r.Err? ==> FirstUnknown(Backups(primary, fallbacks), known, r.error)
  {
    hide Ids, Dedup, Without, TrimSpace;
    EmptyLists();
    var self := TrimSpace(primary);
    var out: seq<string> := [];
    for i := 0 to |fallbacks|
      invariant out == Backups(primary, fallbacks[..i])
      invariant forall j :: 0 <= j < |out| ==> known(out[j])
    {
      BackupsSnoc(primary, fallbacks[..i], fallbacks[i]);
      assert fallbacks[..i + 1] == fallbacks[..i] + [fallbacks[i]];
      var id := TrimSpace(fallbacks[i]);
      if id == "" || id == self || id in out {
        continue;
      }
      if !known(id) {
        BackupsOfPrefix(primary, fallbacks, i + 1);
        assert Backups(primary, fallbacks)[|out|] == id && Backups(primary, fallbacks)[..|out|] == out;
        return Err(id);
      }
      out := out + [id];
    }
    assert fallbacks[..|fallbacks|] == fallbacks;
    return Ok(out);
  }

  predicate FirstUnknown(ids: seq<string>, known: string -> bool, id: string) {
    exists k :: 0 <= k < |ids| && ids[k] == id && !known(id) && forall j :: 0 <= j < k ==> known(ids[j])
  }

  lemma BackupsSnoc(primary: string, fallbacks: seq<string>, x: string)
    ensures var id := TrimSpace(x);
            Backups(primary, fallbacks + [x]) ==
            if id == "" || id == TrimSpace(primary) || id in Backups(primary, fallbacks) then Backups(primary, fallbacks)
            else Backups(primary, fallbacks) + [id]
  {
    hide Ids, Dedup, Without, TrimSpace;
    var ids := Ids(fallbacks);
    IdsSnoc(fallbacks, x);
    if TrimSpace(x) != "" {
      WithoutSnoc(ids, TrimSpace(x), TrimSpace(primary));
      DedupSnoc(Without(ids, TrimSpace(primary)), TrimSpace(x));
      DedupKeepsElements(Without(ids, TrimSpace(primary)));
    }
  }

  /** A longer list canonicalises to an extension. */
  lemma {:induction false} BackupsOfPrefix(primary: string, fallbacks: seq<string>, i: nat)
    requires i <= |fallbacks|
    ensures Backups(primary, fallbacks[..i]) <= Backups(primary, fallbacks)
    decreases |fallbacks| - i
  {
    if i == |fallbacks| {
      assert fallbacks[..i] == fallbacks;
    } else {
      BackupsOfPrefix(primary, fallbacks, i + 1);
      assert fallbacks[..i + 1] == fallbacks[..i] + [fallbacks[i]];
      BackupsSnoc(primary, fallbacks[..i], fallbacks[i]);
    }
  }

  /** The first connected usable candidate, else the first usable one, else none. */
  method SelectFallbackTunnelID(primary: string, fallbacks: seq<string>, usable: string -> bool, connected: string -> bool)
      returns (id: string)
    ensures var c := Candidates(primary, fallbacks);
            || (exists k :: 0 <= k < |c| && c[k] == id && usable(id) && connected(id)
                  && forall j :: 0 <= j < k ==> !(usable(c[j]) && connected(c[j])))
            || ((forall j :: 0 <= j < |c| ==> !(usable(c[j]) && connected(c[j])))
                && exists k :: 0 <= k < |c| && c[k] == id && usable(id) && forall j :: 0 <= j < k ==> !usable(c[j]))
            || (id == "" && forall j :: 0 <= j < |c| ==> !usable(c[j]))
  {
    var c := FallbackCandidates(primary, fallbacks);
    for k := 0 to |c|
      invariant forall j :: 0 <= j < k ==> !(usable(c[j]) && connected(c[j]))
    {
      if usable(c[k]) && connected(c[k]) {
        return c[k];
      }
    }
    for k := 0 to |c|
      invariant forall j :: 0 <= j < k ==> !usable(c[j])
    {
      if usable(c[k]) {
        return c[k];
      }
    }
    return "";
  }
}
