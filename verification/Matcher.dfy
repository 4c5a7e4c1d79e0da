/** The domain matchers of match.go: entries compiled, reduced and looked up. */
module Matchers {
  import opened Wrappers
  import opened Text
  import opened Lists
  import opened SuffixTries
  import opened Entries

  // ---------- one entry ----------

  datatype DomainMatcher = Pattern(src: string) | Name(base: string, exact: bool)

  datatype EntryError = EmptyEntry | EmptyExactName | EmptyPattern | BadPattern

  function GlobBody(glob: string): string {
    if glob == "" then ""
    else (match glob[0] case '*' => ".*" case '#' => "." case c => QuoteMeta([c])) + GlobBody(glob[1..])
  }

  function GlobToRegexp(glob: string): string {
    "^" + GlobBody(glob) + "$"
  }

  function NewDomainMatcher(e: RegexEngine, pattern: string): Result<DomainMatcher, EntryError> {
    var p := ToLower(TrimSpace(pattern));
    if p == "" then Err(EmptyEntry)
    else if HasPrefix(p, "full:") then
      var base := NormalizedName(TrimPrefix(p, "full:"));
      if base == "" then Err(EmptyExactName) else Ok(Name(base, true))
    else if HasPrefix(p, "[re]") then
      var expr := TrimSpace(TrimPrefix(p, "[re]"));
      if expr == "" then Err(EmptyPattern) else if e.valid(expr) then Ok(Pattern(expr)) else Err(BadPattern)
    else if '*' in p || '#' in p then Ok(Pattern(GlobToRegexp(p)))
    else Ok(Name(TrimPrefix(p, "."), false))
  }

  predicate MatchLower(e: RegexEngine, m: DomainMatcher, n: string) {
    if n == "" then false
    else match m
      case Pattern(src) => e.matches(src, n)
      case Name(base, exact) =>
        if base == "" then false
        else if n == base then true
        else if exact then false
        else if |n| <= |base| then false
        else n[|n| - |base| - 1] == '.' && n[|n| - |base|..] == base
  }

  /** The entry decides about the queried name. */
  predicate Matches(e: RegexEngine, m: DomainMatcher, name: string) {
    MatchLower(e, m, NormalizedName(name))
  }

  /** A plain entry matches the domain itself and its subdomains; an exact one only the host. */
  lemma NameEntryMeaning(e: RegexEngine, base: string, exact: bool, n: string)
    requires n != ""
    ensures MatchLower(e, Name(base, exact), n) <==> base != "" && (if exact then n == base else Covers(base, n))
  {
    CoversIsLabelSuffix(base, n);
  }

  // ---------- an entry is read as its text says ----------

  function PiecesOf(glob: string): seq<Piece> {
    if glob == "" then []
    else [match glob[0] case '*' => AnyRun case '#' => AnyChar case c => Literal(c)] + PiecesOf(glob[1..])
  }

  lemma QuotedCharacter(c: char)
    ensures QuoteMeta([c]) == PieceText(Literal(c))
  {
    assert QuoteMeta([c][1..]) == "";
    assert c in "\\.+*?()|[]{}^$" <==> |PieceText(Literal(c))| == 2;
  }

  lemma {:induction false} GlobIsPieces(glob: string, n: string)
    ensures GlobBody(glob) == PieceTexts(PiecesOf(glob))
    ensures PiecesMatch(PiecesOf(glob), n) <==> Wild(glob, n)
    decreases |glob|
  {
    if glob == "" {
    } else {
      hide QuoteMeta, PieceText;
      var rest := glob[1..];
      assert PiecesOf(glob)[1..] == PiecesOf(rest);
      GlobIsPieces(rest, "");
      forall k | 0 <= k <= |n|
        ensures PiecesMatch(PiecesOf(rest), n[k..]) <==> Wild(rest, n[k..])
      {
        GlobIsPieces(rest, n[k..]);
      }
      QuotedCharacter(glob[0]);
      WildcardTexts();
    }
  }

  lemma WildcardTexts()
    ensures PieceText(AnyRun) == ".*" && PieceText(AnyChar) == "."
  {
  }

  lemma GlobMatchesItsText(e: RegexEngine, glob: string, n: string)
    requires Lawful(e)
    ensures e.matches(GlobToRegexp(glob), n) <==> Wild(glob, n)
  {
    GlobIsPieces(glob, n);
    assert GlobToRegexp(glob) == Anchored(PiecesOf(glob));
  }

  lemma StarOrHash(p: string)
    ensures '*' in p || '#' in p <==> exists i :: 0 <= i < |p| && (p[i] == '*' || p[i] == '#')
  {
  }

  lemma InDomainIsCovers(d: string, n: string)
    requires d != ""
    ensures InDomain(d, n) <==> Covers(d, n)
  {
    assert |"." + d| == |d| + 1;
  }

  lemma Prefixes(p: string)
    ensures HasPrefix(p, "full:") <==> IsHost(p)
    ensures HasPrefix(p, "[re]") <==> IsRegexp(p)
    ensures IsHost(p) ==> !IsRegexp(p) && TrimPrefix(p, "full:") == p[5..]
    ensures IsRegexp(p) ==> TrimPrefix(p, "[re]") == p[4..]
    ensures TrimPrefix(p, ".") == DomainOf(p)
  {
    assert HasPrefix(p, "full:") <==> IsHost(p);
    assert HasPrefix(p, "[re]") <==> IsRegexp(p);
    assert |p| >= 5 ==> p[0] == p[..5][0] && p[0] == p[..4][0];
  }

  /** What NewDomainMatcher makes of an entry: refused, usable and matching as the text says. */
  lemma EntryIsReadAsWritten(e: RegexEngine, entry: string)
    requires Lawful(e)
    ensures var r := NewDomainMatcher(e, entry);
            && (EntryRefused(e, entry) <==> !Blank(entry) && r.Err?)
            && (EntryUsable(e, entry) <==> r.Ok? && Usable(r.value))
            && (r.Ok? ==> forall n :: n != "" ==> (MatchLower(e, r.value, n) <==> EntryHits(e, entry, n)))
  {
    hide TrimSpace, ToLower, NormalizedName, GlobToRegexp, Wild, Covers;
    var p, r := EntryText(entry), NewDomainMatcher(e, entry);
    StarOrHash(p);
    Prefixes(p);
    assert Blank(entry) <==> p == "";
    hide HasPrefix, TrimPrefix;
    if r.Ok? {
      forall n | n != ""
        ensures MatchLower(e, r.value, n) <==> EntryHits(e, entry, n)
      {
        if r.value.Pattern? {
          GlobMatchesItsText(e, p, n);
        } else {
          NameEntryMeaning(e, r.value.base, r.value.exact, n);
          if r.value.base != "" {
            InDomainIsCovers(r.value.base, n);
          }
        }
      }
    }
  }

  lemma OnlyTheTextCounts(e: RegexEngine, a: string, b: string)
    requires EntryText(a) == EntryText(b)
    ensures NewDomainMatcher(e, a) == NewDomainMatcher(e, b)
  {
    hide TrimSpace, ToLower, NormalizedName, GlobToRegexp;
  }

  /** An expression is put in lower case as a whole, so a class written with a capital is read as its opposite. */
  lemma CapitalClassesAreLowered(e: RegexEngine)
    ensures NewDomainMatcher(e, "[re]\\D") == NewDomainMatcher(e, "[re]\\d")
  {
    var upper, lower := "[re]\\D", "[re]\\d";
    TrimOfTrimmed(upper);
    TrimOfTrimmed(lower);
    hide TrimSpace, NewDomainMatcher;
    assert ToLower(upper) == ToLower(lower);
    OnlyTheTextCounts(e, upper, lower);
  }

  // ---------- a list of entries ----------

  predicate Blank(entry: string) {
    TrimSpace(entry) == ""
  }

  /** The matchers of the entries that parse, in order. */
  function Compiled(e: RegexEngine, entries: seq<string>): seq<DomainMatcher> {
    if entries == [] then []
    else
      var front, entry := entries[..|entries| - 1], entries[|entries| - 1];
      Compiled(e, front) +
      (if !Blank(entry) && NewDomainMatcher(e, entry).Ok? then [NewDomainMatcher(e, entry).value] else [])
  }

  /** The non-blank entries that do not parse, in order. */
  function Rejected(e: RegexEngine, entries: seq<string>): seq<string> {
    if entries == [] then []
    else
      var front, entry := entries[..|entries| - 1], entries[|entries| - 1];
      Rejected(e, front) + (if !Blank(entry) && NewDomainMatcher(e, entry).Err? then [entry] else [])
  }

  method CompileMatchers(e: RegexEngine, entries: seq<string>) returns (ms: seq<DomainMatcher>, bad: seq<string>)
    ensures ms == Compiled(e, entries) && bad == Rejected(e, entries)
  {
    ms, bad := [], [];
    for i := 0 to |entries|
      invariant ms == Compiled(e, entries[..i]) && bad == Rejected(e, entries[..i])
    {
      assert entries[..i + 1][..i] == entries[..i];
      if !Blank(entries[i]) {
        match NewDomainMatcher(e, entries[i]) {
          case Ok(m) => ms := ms + [m];
          case Err(_) => bad := bad + [entries[i]];
        }
      }
    }
    assert entries[..|entries|] == entries;
  }

  lemma {:induction false} RejectedAreTheRefused(e: RegexEngine, entries: seq<string>)
    requires Lawful(e)
    ensures Rejected(e, entries) == Refused(e, entries)
  {
    hide NewDomainMatcher, EntryRefused, EntryUsable, EntryHits, MatchLower, Blank;
    if entries != [] {
      RejectedAreTheRefused(e, entries[..|entries| - 1]);
      EntryIsReadAsWritten(e, entries[|entries| - 1]);
    }
  }

  ghost predicate SomeMatcherHits(e: RegexEngine, ms: seq<DomainMatcher>, n: string) {
    exists m :: m in ms && MatchLower(e, m, n)
  }

  ghost predicate SomeUsable(ms: seq<DomainMatcher>) {
    exists m :: m in ms && Usable(m)
  }

  lemma OneMoreMatcher(e: RegexEngine, ms: seq<DomainMatcher>, m: DomainMatcher, n: string)
    ensures SomeMatcherHits(e, ms + [m], n) <==> SomeMatcherHits(e, ms, n) || MatchLower(e, m, n)
    ensures SomeUsable(ms + [m]) <==> SomeUsable(ms) || Usable(m)
  {
    hide MatchLower, Usable;
    assert m in ms + [m] && forall x :: x in ms ==> x in ms + [m];
  }

  ghost predicate SomeEntryHits(e: RegexEngine, entries: seq<string>, n: string) {
    exists i :: 0 <= i < |entries| && EntryHits(e, entries[i], n)
  }

  ghost predicate SomeEntryUsable(e: RegexEngine, entries: seq<string>) {
    exists i :: 0 <= i < |entries| && EntryUsable(e, entries[i])
  }

  lemma OneMoreEntry(e: RegexEngine, entries: seq<string>, entry: string, n: string)
    ensures SomeEntryHits(e, entries + [entry], n) <==> SomeEntryHits(e, entries, n) || EntryHits(e, entry, n)
    ensures SomeEntryUsable(e, entries + [entry]) <==> SomeEntryUsable(e, entries) || EntryUsable(e, entry)
  {
    hide EntryHits, EntryUsable;
    var more := entries + [entry];
    assert more[|entries|] == entry && forall i :: 0 <= i < |entries| ==> entries[i] == more[i];
  }

  lemma CompiledSnoc(e: RegexEngine, front: seq<string>, entry: string)
    ensures Compiled(e, front + [entry]) ==
            Compiled(e, front) +
            (if !Blank(entry) && NewDomainMatcher(e, entry).Ok? then [NewDomainMatcher(e, entry).value] else [])
  {
    hide NewDomainMatcher, Blank;
    assert (front + [entry])[..|front + [entry]| - 1] == front;
  }

  /** One more entry adds at most its own matcher, which matches what the entry says. */
  lemma OneMoreCompiled(e: RegexEngine, front: seq<string>, entry: string, n: string)
    requires Lawful(e) && n != ""
    ensures SomeMatcherHits(e, Compiled(e, front + [entry]), n) <==> SomeMatcherHits(e, Compiled(e, front), n) || EntryHits(e, entry, n)
    ensures SomeUsable(Compiled(e, front + [entry])) <==> SomeUsable(Compiled(e, front)) || EntryUsable(e, entry)
  {
    hide NewDomainMatcher, EntryRefused, EntryUsable, EntryHits, MatchLower, Usable, Blank, SomeMatcherHits, SomeUsable, Lawful, Compiled;
    CompiledSnoc(e, front, entry);
    EntryIsReadAsWritten(e, entry);
    BlankEntry(e, entry, n);
    UnusableHitsNothing(e, entry, n);
    if !Blank(entry) && NewDomainMatcher(e, entry).Ok? {
      OneMoreMatcher(e, Compiled(e, front), NewDomainMatcher(e, entry).value, n);
    } else {
      assert Compiled(e, front) + [] == Compiled(e, front);
    }
  }

  lemma UnusableHitsNothing(e: RegexEngine, entry: string, n: string)
    ensures EntryHits(e, entry, n) ==> EntryUsable(e, entry)
  {
    hide EntryUsable, EntryText, NormalizedName, Wild;
  }

  /** The compiled matchers match what the entries say, and are usable when some entry is. */
  lemma {:induction false} CompiledHits(e: RegexEngine, entries: seq<string>, n: string)
    requires Lawful(e) && n != ""
    ensures SomeMatcherHits(e, Compiled(e, entries), n) <==> SomeEntryHits(e, entries, n)
    ensures SomeUsable(Compiled(e, entries)) <==> SomeEntryUsable(e, entries)
  {
    if entries != [] {
      hide EntryUsable, EntryHits, SomeMatcherHits, SomeUsable, SomeEntryHits, SomeEntryUsable, Lawful, Compiled;
      var front, entry := entries[..|entries| - 1], entries[|entries| - 1];
      CompiledHits(e, front, n);
      OneMoreCompiled(e, front, entry, n);
      OneMoreEntry(e, front, entry, n);
      assert entries == front + [entry];
    }
  }

  lemma BlankEntry(e: RegexEngine, entry: string, n: string)
    requires Lawful(e)
    ensures Blank(entry) ==> !EntryUsable(e, entry) && !EntryHits(e, entry, n)
  {
    hide TrimSpace, NormalizedName, Wild;
  }

  /** Some entry of the list matches the name. */
  ghost predicate AnyMatches(e: RegexEngine, ms: seq<DomainMatcher>, name: string) {
    exists m :: m in ms && Matches(e, m, name)
  }

  predicate Usable(m: DomainMatcher) {
    m.Pattern? || m.base != ""
  }

  // ---------- the compiled set ----------

  datatype MatcherSet = MatcherSet(trie: SuffixTrie, regexes: seq<DomainMatcher>, plainCount: nat, exact: set<string>)
  {
    function Len(): nat {
      plainCount + |regexes| + |exact|
    }

    ghost predicate Valid()
      reads trie, trie.nodes.Values
    {
      && trie.Valid()
      && plainCount == |trie.bases|
      && forall r :: r in regexes ==> r.Pattern?
    }

    /** What MatchAny answers. */
    ghost predicate Hits(e: RegexEngine, name: string)
      reads trie
    {
      var n := NormalizedName(name);
      n != "" && (CoveredBy(trie.bases, n) || n in exact || exists r :: r in regexes && MatchLower(e, r, n))
    }
  }

  method MatchAny(e: RegexEngine, s: MatcherSet, name: string) returns (hit: bool)
    requires s.Valid()
    ensures hit <==> s.Hits(e, name)
  {
    var n := NormalizedName(name);
    if n == "" {
      return false;
    }
    var found := s.trie.Match(n);
    if found {
      return true;
    }
    if n in s.exact {
      return true;
    }
    for i := 0 to |s.regexes|
      invariant forall j :: 0 <= j < i ==> !MatchLower(e, s.regexes[j], n)
    {
      if MatchLower(e, s.regexes[i], n) {
        return true;
      }
    }
    return false;
  }

  // ---------- sorting by length ----------

  predicate SortedByLength(s: seq<string>) {
    forall i, j :: 0 <= i < j < |s| ==> |s[i]| <= |s[j]|
  }

  lemma HeadIsShortest(s: seq<string>)
    requires SortedByLength(s) && s != []
    ensures forall y :: y in s ==> |s[0]| <= |y|
  {
    forall y | y in s
      ensures |s[0]| <= |y|
    {
      var j :| 0 <= j < |s| && s[j] == y;
    }
  }

  lemma PrependShortest(x: string, s: seq<string>)
    requires SortedByLength(s) && forall y :: y in s ==> |x| <= |y|
    ensures SortedByLength([x] + s)
  {
    assert forall j :: 0 <= j < |s| ==> s[j] in s;
  }

  function InsertByLength(x: string, s: seq<string>): (r: seq<string>)
    requires SortedByLength(s)
    ensures SortedByLength(r)
    ensures forall y :: y in r <==> y == x || y in s
  {
    if s == [] then [x]
    else if |x| <= |s[0]| then [x] + s
    else
      var rest := InsertByLength(x, s[1..]);
      HeadIsShortest(s);
      PrependShortest(s[0], rest);
      [s[0]] + rest
  }

  function SortByLength(s: seq<string>): (r: seq<string>)
    ensures SortedByLength(r)
    ensures forall y :: y in r <==> y in s
  {
    if s == [] then [] else InsertByLength(s[0], SortByLength(s[1..]))
  }

  // ---------- redundancy elimination ----------

  /** No base of the set covers another one. */
  ghost predicate Antichain(bases: set<string>) {
    forall a, b :: a in bases && b in bases && Covers(a, b) ==> a == b
  }

  predicate EndsInLiteral(literals: seq<string>, base: string) {
    exists k :: 0 <= k < |literals| && HasSuffix(base, literals[k])
  }

  predicate TestsFor(e: RegexEngine, r: DomainMatcher, literal: string) {
    r.Pattern? && IsLiteralSuffix(e, r.src) && e.literalPrefix(r.src) == literal
  }

  ghost predicate FromSome(e: RegexEngine, regexes: seq<DomainMatcher>, literal: string) {
    exists r :: r in regexes && TestsFor(e, r, literal)
  }

  /** Every literal is what some kept regular expression tests for at the end of the name. */
  ghost predicate LiteralsOf(e: RegexEngine, literals: seq<string>, regexes: seq<DomainMatcher>) {
    && (forall literal :: literal in literals ==> FromSome(e, regexes, literal))
    && (forall r, literal :: r in regexes && TestsFor(e, r, literal) ==> literal in literals)
  }

  /** The three pools hold exactly what the compiled entries ask for. */
  ghost predicate Pools(ms: seq<DomainMatcher>, plains: seq<string>, regexes: seq<DomainMatcher>, exact: set<string>) {
    && (forall b :: b in plains <==> b != "" && Name(b, false) in ms)
    && (forall r :: r in regexes <==> r.Pattern? && r in ms)
    && (forall b :: b in exact <==> b != "" && Name(b, true) in ms)
    && NoDuplicates(plains) && NoDuplicates(regexes)
  }

  method Split(ms: seq<DomainMatcher>) returns (plains: seq<string>, regexes: seq<DomainMatcher>, exact: set<string>)
    ensures Pools(ms, plains, regexes, exact)
  {
    plains, regexes, exact := [], [], {};
    for i := 0 to |ms|
      invariant Pools(ms[..i], plains, regexes, exact)
    {
      assert ms[..i + 1] == ms[..i] + [ms[i]];
      match ms[i] {
        case Pattern(_) =>
          if ms[i] !in regexes {
            regexes := regexes + [ms[i]];
          }
        case Name(base, isExact) =>
          if base != "" && isExact {
            exact := exact + {base};
          } else if base != "" && base !in plains {
            plains := plains + [base];
          }
      }
    }
    assert ms[..|ms|] == ms;
  }

  function WithLiteral(e: RegexEngine, literals: seq<string>, r: DomainMatcher): seq<string>
    requires r.Pattern?
  {
    if IsLiteralSuffix(e, r.src) then literals + [e.literalPrefix(r.src)] else literals
  }

  lemma LiteralsOfOneMore(e: RegexEngine, literals: seq<string>, regexes: seq<DomainMatcher>, r: DomainMatcher)
    requires r.Pattern? && LiteralsOf(e, literals, regexes)
    ensures LiteralsOf(e, WithLiteral(e, literals, r), regexes + [r])
  {
    var more, all := WithLiteral(e, literals, r), regexes + [r];
    forall literal | literal in more
      ensures FromSome(e, all, literal)
    {
      if literal in literals {
        assert FromSome(e, regexes, literal);
        var q :| q in regexes && TestsFor(e, q, literal);
        assert q in all;
      } else {
        assert r in all && TestsFor(e, r, literal);
      }
    }
    forall q, literal | q in all && TestsFor(e, q, literal)
      ensures literal in more
    {
      assert q in regexes || (q == r && more == literals + [literal]);
    }
  }

  method LiteralSuffixes(e: RegexEngine, regexes: seq<DomainMatcher>) returns (literals: seq<string>)
    requires forall r :: r in regexes ==> r.Pattern?
    ensures LiteralsOf(e, literals, regexes)
  {
    literals := [];
    for i := 0 to |regexes|
      invariant LiteralsOf(e, literals, regexes[..i])
    {
      assert regexes[..i + 1] == regexes[..i] + [regexes[i]];
      LiteralsOfOneMore(e, literals, regexes[..i], regexes[i]);
      if IsLiteralSuffix(e, regexes[i].src) {
        literals := literals + [e.literalPrefix(regexes[i].src)];
      }
    }
    assert regexes[..|regexes|] == regexes;
  }

  method CoveredByLiteral(literals: seq<string>, base: string) returns (covered: bool)
    ensures covered <==> EndsInLiteral(literals, base)
  {
    for k := 0 to |literals|
      invariant forall j :: 0 <= j < k ==> !HasSuffix(base, literals[j])
    {
      if HasSuffix(base, literals[k]) {
        return true;
      }
    }
    return false;
  }

  /** The kept bases stand for all the plain ones, given the literal suffixes. */
  ghost predicate StandsFor(kept: set<string>, plains: seq<string>, literals: seq<string>) {
    && (forall b :: b in kept ==> b in plains && !EndsInLiteral(literals, b))
    && (forall p :: p in plains ==> CoveredBy(kept, p) || EndsInLiteral(literals, p))
    && Antichain(kept)
  }

  lemma CoveredByMore(kept: set<string>, p: string, q: string)
    requires CoveredBy(kept, q)
    ensures CoveredBy(kept + {p}, q)
  {
    var b :| b in kept && Covers(b, q);
    assert b in kept + {p};
  }

  lemma StandsForSkipped(kept: set<string>, plains: seq<string>, literals: seq<string>, p: string)
    requires StandsFor(kept, plains, literals) && (CoveredBy(kept, p) || EndsInLiteral(literals, p))
    ensures StandsFor(kept, plains + [p], literals)
  {
  }

  lemma AntichainOneMore(kept: set<string>, p: string)
    requires Antichain(kept) && !CoveredBy(kept, p) && forall b :: b in kept ==> |b| <= |p|
    ensures Antichain(kept + {p})
  {
    forall a, b | a in kept + {p} && b in kept + {p} && Covers(a, b)
      ensures a == b
    {
      CoversIsLabelSuffix(a, b);
      if b == p {
        assert a !in kept;
      }
    }
  }

  lemma StandsForAdded(kept: set<string>, plains: seq<string>, literals: seq<string>, p: string)
    requires StandsFor(kept, plains, literals) && p != "" && !CoveredBy(kept, p) && !EndsInLiteral(literals, p)
    requires forall q :: q in plains ==> |q| <= |p|
    ensures p !in kept && StandsFor(kept + {p}, plains + [p], literals)
  {
    assert Covers(p, p);
    AntichainOneMore(kept, p);
    assert p in kept + {p};
    forall q | q in plains && CoveredBy(kept, q)
      ensures CoveredBy(kept + {p}, q)
    {
      CoveredByMore(kept, p, q);
    }
  }

  /** Add one more plain base to the trie unless it is covered already. */
  method KeepPlain(trie: SuffixTrie, ghost done: seq<string>, literals: seq<string>, p: string) returns (kept: bool)
    requires trie.Valid() && p != "" && StandsFor(trie.bases, done, literals)
    requires forall q :: q in done ==> |q| <= |p|
    modifies trie`nodes, trie`kids, trie`bases, trie.nodes.Values
    ensures trie.Valid() && fresh(trie.nodes.Values - old(trie.nodes.Values))
    ensures StandsFor(trie.bases, done + [p], literals)
    ensures if kept then p !in old(trie.bases) && trie.bases == old(trie.bases) + {p}
            else trie.bases == old(trie.bases)
  {
    var covered := trie.Match(p);
    if !covered {
      covered := CoveredByLiteral(literals, p);
    }
    if covered {
      StandsForSkipped(trie.bases, done, literals, p);
      return false;
    }
    StandsForAdded(trie.bases, done, literals, p);
    trie.AddBase(p);
    return true;
  }

  lemma NothingStandsForNothing(literals: seq<string>)
    ensures StandsFor({}, [], literals)
  {
  }

  lemma EarlierIsShorter(s: seq<string>, i: nat)
    requires SortedByLength(s) && i < |s|
    ensures forall q :: q in s[..i] ==> |q| <= |s[i]|
    ensures s[..i + 1] == s[..i] + [s[i]]
  {
  }

  /** Feed the trie the plain bases, shortest first, skipping what is already covered. */
  method KeepPlains(trie: SuffixTrie, plains: seq<string>, literals: seq<string>) returns (kept: nat)
    requires trie.Valid() && trie.bases == {} && SortedByLength(plains)
    requires "" !in plains
    modifies trie`nodes, trie`kids, trie`bases, trie.nodes.Values
    ensures trie.Valid() && fresh(trie.nodes.Values - old(trie.nodes.Values))
    ensures kept == |trie.bases|
    ensures StandsFor(trie.bases, plains, literals)
  {
    hide StandsFor, SortedByLength, SuffixTrie.Valid;
    NothingStandsForNothing(literals);
    kept := 0;
    for i := 0 to |plains|
      invariant trie.Valid() && fresh(trie.nodes.Values - old(trie.nodes.Values))
      invariant kept == |trie.bases|
      invariant StandsFor(trie.bases, plains[..i], literals)
    {
      EarlierIsShorter(plains, i);
      var added := KeepPlain(trie, plains[..i], literals, plains[i]);
      if added {
        kept := kept + 1;
      }
    }
    assert plains[..|plains|] == plains;
  }

  ghost predicate Redundant(e: RegexEngine, bases: set<string>, regexes: seq<DomainMatcher>, name: string) {
    CoveredBy(bases, name) || exists r :: r in regexes && MatchLower(e, r, name)
  }

  method AnyRegexMatches(e: RegexEngine, regexes: seq<DomainMatcher>, name: string) returns (hit: bool)
    requires name != "" && forall r :: r in regexes ==> r.Pattern?
    ensures hit <==> exists r :: r in regexes && MatchLower(e, r, name)
  {
    for i := 0 to |regexes|
      invariant forall j :: 0 <= j < i ==> !MatchLower(e, regexes[j], name)
    {
      if e.matches(regexes[i].src, name) {
        assert MatchLower(e, regexes[i], name);
        return true;
      }
    }
    return false;
  }

  /** Drop the exact hosts that something else already matches. */
  method KeepExact(e: RegexEngine, trie: SuffixTrie, regexes: seq<DomainMatcher>, names: set<string>) returns (exact: set<string>)
    requires trie.Valid() && "" !in names && forall r :: r in regexes ==> r.Pattern?
    ensures forall n :: n in exact <==> n in names && !Redundant(e, trie.bases, regexes, n)
  {
    exact := names;
    var todo := names;
    while todo != {}
      invariant exact <= names && todo <= names
      invariant forall n :: n in names && n !in todo ==> (n in exact <==> !Redundant(e, trie.bases, regexes, n))
      invariant forall n :: n in todo ==> n in exact
    {
      var name :| name in todo;
      todo := todo - {name};
      var covered := trie.Match(name);
      if !covered {
        covered := AnyRegexMatches(e, regexes, name);
      }
      if covered {
        exact := exact - {name};
      }
    }
  }

  // ---------- the compiled set decides like the list of entries ----------

  lemma SuffixOfSuffix(n: string, p: string, literal: string)
    requires Covers(p, n) && HasSuffix(p, literal)
    ensures HasSuffix(n, literal)
  {
    CoversIsLabelSuffix(p, n);
    assert n[|n| - |literal|..] == p[|p| - |literal|..];
  }

  /** A plain entry that was dropped is answered by what was kept. */
  lemma PlainIsAnswered(e: RegexEngine, kept: set<string>, plains: seq<string>, literals: seq<string>,
                        regexes: seq<DomainMatcher>, p: string, n: string)
    requires Lawful(e) && StandsFor(kept, plains, literals) && LiteralsOf(e, literals, regexes)
    requires p in plains && Covers(p, n) && n != ""
    ensures Redundant(e, kept, regexes, n)
  {
    if CoveredBy(kept, p) {
      var b :| b in kept && Covers(b, p);
      CoversIsTransitive(b, p, n);
    } else {
      var k :| 0 <= k < |literals| && HasSuffix(p, literals[k]);
      SuffixOfSuffix(n, p, literals[k]);
      assert FromSome(e, regexes, literals[k]);
      var r :| r in regexes && TestsFor(e, r, literals[k]);
      assert MatchLower(e, r, n);
    }
  }

  lemma SetDecidesLikeEntries(e: RegexEngine, ms: seq<DomainMatcher>, plains: seq<string>, names: set<string>,
                              sorted: seq<string>, literals: seq<string>, kept: set<string>,
                              regexes: seq<DomainMatcher>, exact: set<string>, name: string)
    requires Lawful(e) && Pools(ms, plains, regexes, names)
    requires forall p :: p in sorted <==> p in plains
    requires LiteralsOf(e, literals, regexes) && StandsFor(kept, sorted, literals)
    requires forall x :: x in exact <==> x in names && !Redundant(e, kept, regexes, x)
    requires NormalizedName(name) != ""
    ensures var n := NormalizedName(name);
            (Redundant(e, kept, regexes, n) || n in exact) <==> AnyMatches(e, ms, name)
  {
    var n := NormalizedName(name);
    if AnyMatches(e, ms, name) {
      var m :| m in ms && Matches(e, m, name);
      if m.Name? {
        NameEntryMeaning(e, m.base, m.exact, n);
        if !m.exact {
          assert m == Name(m.base, false);
          PlainIsAnswered(e, kept, sorted, literals, regexes, m.base, n);
        } else {
          assert m == Name(n, true);
        }
      }
    }
    if CoveredBy(kept, n) {
      var b :| b in kept && Covers(b, n);
      NameEntryMeaning(e, b, false, n);
      assert Name(b, false) in ms && Matches(e, Name(b, false), name);
    } else if n in exact {
      NameEntryMeaning(e, n, true, n);
      assert Name(n, true) in ms && Matches(e, Name(n, true), name);
    } else if Redundant(e, kept, regexes, n) {
      var r :| r in regexes && MatchLower(e, r, n);
      assert r in ms && Matches(e, r, name);
    }
  }

  lemma EmptyOnlyWithoutUsableEntries(e: RegexEngine, ms: seq<DomainMatcher>, plains: seq<string>, names: set<string>,
                                      sorted: seq<string>, literals: seq<string>, kept: set<string>,
                                      regexes: seq<DomainMatcher>, exact: set<string>)
    requires Pools(ms, plains, regexes, names)
    requires forall p :: p in sorted <==> p in plains
    requires LiteralsOf(e, literals, regexes) && StandsFor(kept, sorted, literals)
    requires forall x :: x in exact <==> x in names && !Redundant(e, kept, regexes, x)
    ensures |kept| + |regexes| + |exact| > 0 <==> exists m :: m in ms && Usable(m)
  {
    if m :| m in ms && Usable(m) {
      if m.Pattern? {
        assert m in regexes;
      } else if m.exact {
        assert m == Name(m.base, true);
        assert m.base in exact || Redundant(e, kept, regexes, m.base);
      } else {
        assert m == Name(m.base, false);
        assert m.base in sorted;
        if EndsInLiteral(literals, m.base) {
          assert FromSome(e, regexes, literals[0]);
        }
      }
    }
    if kept != {} {
      var b :| b in kept;
      assert Name(b, false) in ms && Usable(Name(b, false));
    } else if |regexes| > 0 {
      assert regexes[0] in ms && Usable(regexes[0]);
    } else if exact != {} {
      var x :| x in exact;
      assert Name(x, true) in ms && Usable(Name(x, true));
    }
  }

  /** What redundancy elimination must preserve: the verdict on every name, and whether there is anything to match. */
  ghost predicate Faithful(e: RegexEngine, ms: seq<DomainMatcher>, kept: set<string>, regexes: seq<DomainMatcher>, exact: set<string>) {
    && (forall name :: NormalizedName(name) != "" ==>
          (Redundant(e, kept, regexes, NormalizedName(name)) || NormalizedName(name) in exact <==> AnyMatches(e, ms, name)))
    && (|kept| + |regexes| + |exact| > 0 <==> exists m :: m in ms && Usable(m))
  }

  lemma ReductionIsFaithful(e: RegexEngine, ms: seq<DomainMatcher>, plains: seq<string>, names: set<string>,
                            sorted: seq<string>, literals: seq<string>, kept: set<string>,
                            regexes: seq<DomainMatcher>, exact: set<string>)
    requires Lawful(e) && Pools(ms, plains, regexes, names)
    requires forall p :: p in sorted <==> p in plains
    requires LiteralsOf(e, literals, regexes) && StandsFor(kept, sorted, literals)
    requires forall x :: x in exact <==> x in names && !Redundant(e, kept, regexes, x)
    ensures Faithful(e, ms, kept, regexes, exact)
  {
    EmptyOnlyWithoutUsableEntries(e, ms, plains, names, sorted, literals, kept, regexes, exact);
    forall name | NormalizedName(name) != ""
      ensures Redundant(e, kept, regexes, NormalizedName(name)) || NormalizedName(name) in exact <==> AnyMatches(e, ms, name)
    {
      SetDecidesLikeEntries(e, ms, plains, names, sorted, literals, kept, regexes, exact, name);
    }
  }

  /** The entries decide about no name that is empty after normalisation, and neither does the set. */
  lemma HitsAreEntryMatches(e: RegexEngine, ms: seq<DomainMatcher>, s: MatcherSet)
    requires s.Valid() && Faithful(e, ms, s.trie.bases, s.regexes, s.exact)
    ensures forall name :: s.Hits(e, name) <==> AnyMatches(e, ms, name)
  {
    forall name
      ensures s.Hits(e, name) <==> AnyMatches(e, ms, name)
    {
      if NormalizedName(name) == "" {
        assert forall m :: !Matches(e, m, name);
      }
    }
  }

  /** The part of CompileMatcherSet that drops redundant patterns. */
  method Reduce(e: RegexEngine, ms: seq<DomainMatcher>) returns (s: MatcherSet)
    requires Lawful(e)
    ensures s.Valid() && fresh(s.trie) && fresh(s.trie.nodes.Values)
    ensures Faithful(e, ms, s.trie.bases, s.regexes, s.exact)
    ensures Antichain(s.trie.bases)
    ensures forall n :: n in s.exact ==> !Redundant(e, s.trie.bases, s.regexes, n)
  {
    hide Pools, LiteralsOf, Redundant, Faithful, Antichain, SuffixTrie.Valid, Lawful, IsLiteralSuffix, CoveredBy, SortedByLength;
    var plains, regexes, names := Split(ms);
    var sorted := SortByLength(plains);
    var literals := LiteralSuffixes(e, regexes);
    var trie := new SuffixTrie();
    var kept := KeepPlains(trie, sorted, literals);
    var exact := KeepExact(e, trie, regexes, names);
    ReductionIsFaithful(e, ms, plains, names, sorted, literals, trie.bases, regexes, exact);
    s := MatcherSet(trie, regexes, kept, exact);
  }

  /**
    CompileMatcherSet: whatever is deduplicated, dropped as covered or moved into
    the trie, a name is matched exactly when the text of some entry says so; what
    is left is free of redundancy; the set is empty only if no entry is usable;
    and the entries reported are those that cannot be read.
   */
  method CompileMatcherSet(e: RegexEngine, entries: seq<string>) returns (s: MatcherSet, bad: seq<string>)
    requires Lawful(e)
    ensures s.Valid() && fresh(s.trie) && fresh(s.trie.nodes.Values)
    ensures bad == Refused(e, entries)
    ensures forall name :: s.Hits(e, name) <==> ListHits(e, entries, name)
    ensures Antichain(s.trie.bases)
    ensures forall n :: n in s.exact ==> !Redundant(e, s.trie.bases, s.regexes, n)
    ensures s.Len() == 0 <==> forall i :: 0 <= i < |entries| ==> !EntryUsable(e, entries[i])
  {
    hide Lawful, EntryUsable, EntryHits, Antichain, Redundant;
    var ms;
    ms, bad := CompileMatchers(e, entries);
    RejectedAreTheRefused(e, entries);
    s := Reduce(e, ms);
    HitsAreEntryMatches(e, ms, s);
    CompiledDecides(e, entries);
  }

  /** Whatever the name, the compiled matchers and the text of the entries decide alike. */
  lemma CompiledDecides(e: RegexEngine, entries: seq<string>)
    requires Lawful(e)
    ensures forall name :: AnyMatches(e, Compiled(e, entries), name) <==> ListHits(e, entries, name)
    ensures SomeUsable(Compiled(e, entries)) <==> SomeEntryUsable(e, entries)
  {
    hide Lawful, EntryUsable, EntryHits, NormalizedName, Compiled, Usable;
    CompiledHits(e, entries, "x");
    forall name
      ensures AnyMatches(e, Compiled(e, entries), name) <==> ListHits(e, entries, name)
    {
      if NormalizedName(name) != "" {
        CompiledHits(e, entries, NormalizedName(name));
        hide MatchLower;
        assert forall m :: Matches(e, m, name) <==> MatchLower(e, m, NormalizedName(name));
      }
    }
  }
}
