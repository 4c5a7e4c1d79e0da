/**
  What a domain entry means, read off its text alone: the promise at the head of
  match.go. The regular-expression engine is a parameter; what is assumed of it is
  how it treats the few forms the program itself writes or looks for.
 */
module Entries {
  import opened Text

  datatype RegexEngine = RegexEngine(
    valid: string -> bool,
    literalPrefix: string -> string,
    matches: (string, string) -> bool)

  // ---------- what is assumed of regular expressions ----------

  function QuoteMeta(s: string): string {
    if s == "" then ""
    else (if s[0] in "\\.+*?()|[]{}^$" then ['\\', s[0]] else [s[0]]) + QuoteMeta(s[1..])
  }

  /** The regular expression is a quoted literal anchored at the end. */
  predicate IsLiteralSuffix(e: RegexEngine, src: string) {
    e.literalPrefix(src) != "" && src == QuoteMeta(e.literalPrefix(src)) + "$"
  }

  /** A regular expression made of `.*`, `.` and literal characters. */
  datatype Piece = AnyRun | AnyChar | Literal(c: char)

  function PieceText(p: Piece): string {
    match p
    case AnyRun => ".*"
    case AnyChar => "."
    case Literal(c) =>
      if c == '\\' || c == '.' || c == '+' || c == '*' || c == '?' || c == '(' || c == ')' || c == '|'
         || c == '[' || c == ']' || c == '{' || c == '}' || c == '^' || c == '$'
      then ['\\', c] else [c]
  }

  function PieceTexts(pieces: seq<Piece>): string {
    if pieces == [] then "" else PieceText(pieces[0]) + PieceTexts(pieces[1..])
  }

  function Anchored(pieces: seq<Piece>): string {
    "^" + PieceTexts(pieces) + "$"
  }

  /** The dot of a regular expression stands for any character but a line end. */
  predicate OnOneLine(s: string) {
    forall i :: 0 <= i < |s| ==> s[i] != '\n'
  }

  /** The pieces match the whole name. */
  predicate PiecesMatch(pieces: seq<Piece>, n: string)
    decreases |pieces|
  {
    if pieces == [] then n == ""
    else
      match pieces[0]
      case AnyRun => exists k :: 0 <= k <= |n| && OnOneLine(n[..k]) && PiecesMatch(pieces[1..], n[k..])
      case AnyChar => n != "" && n[0] != '\n' && PiecesMatch(pieces[1..], n[1..])
      case Literal(c) => n != "" && n[0] == c && PiecesMatch(pieces[1..], n[1..])
  }

  ghost predicate Lawful(e: RegexEngine) {
    && (forall src, n :: IsLiteralSuffix(e, src) ==> (e.matches(src, n) <==> HasSuffix(n, e.literalPrefix(src))))
    && (forall pieces, n :: e.matches(Anchored(pieces), n) <==> PiecesMatch(pieces, n))
    && e.valid("^")
    && (forall n :: e.matches("^", n))
  }

  // ---------- names and wildcards ----------

  function NormalizedName(name: string): string {
    TrimSuffix(ToLower(TrimSpace(name)), ".")
  }

  /** A normalised name: the spaces around it gone, one trailing dot gone, letters in lower case. */
  lemma NormalizedNameIs(a: string, t: string, b: string)
    requires AllSpaces(a) && AllSpaces(b) && Trimmed(t)
    ensures var n := NormalizedName(a + t + b);
            && |n| == (if t != "" && t[|t| - 1] == '.' then |t| - 1 else |t|)
            && forall i :: 0 <= i < |n| ==> IsLowerOf(t[i], n[i])
  {
    TrimSpaceIs(a, t, b);
    var low := ToLower(t);
    forall i | 0 <= i < |t|
      ensures IsLowerOf(t[i], low[i])
    {
      LowerCharIs(t[i]);
    }
    assert t != "" ==> (low[|low| - 1..] == "." <==> t[|t| - 1] == '.');
  }

  /** The wildcard text names n: `*` stands for any run of characters of one line, `#` for one character, the rest for itself. */
  predicate Wild(text: string, n: string)
    decreases |text|
  {
    if text == "" then n == ""
    else if text[0] == '*' then exists k :: 0 <= k <= |n| && OnOneLine(n[..k]) && Wild(text[1..], n[k..])
    else if text[0] == '#' then n != "" && n[0] != '\n' && Wild(text[1..], n[1..])
    else n != "" && n[0] == text[0] && Wild(text[1..], n[1..])
  }

  // ---------- what an entry matches ----------

  /** The part of an entry that counts. */
  function EntryText(entry: string): string {
    ToLower(TrimSpace(entry))
  }

  predicate IsHost(p: string) {
    |p| >= 5 && p[..5] == "full:"
  }

  predicate IsRegexp(p: string) {
    |p| >= 4 && p[..4] == "[re]"
  }

  predicate IsGlob(p: string) {
    !IsHost(p) && !IsRegexp(p) && exists i :: 0 <= i < |p| && (p[i] == '*' || p[i] == '#')
  }

  predicate IsDomain(p: string) {
    !IsHost(p) && !IsRegexp(p) && !IsGlob(p)
  }

  /** The domain a plain entry names; one dot in front of it is not part of it. */
  function DomainOf(p: string): string {
    if p != "" && p[0] == '.' then p[1..] else p
  }

  /** The expression of a `[re]` entry. */
  function ExprOf(p: string): string
    requires IsRegexp(p)
  {
    TrimSpace(p[4..])
  }

  /** The entry takes part in matching. */
  predicate EntryUsable(e: RegexEngine, entry: string) {
    var p := EntryText(entry);
    || (IsHost(p) && NormalizedName(p[5..]) != "")
    || (IsRegexp(p) && ExprOf(p) != "" && e.valid(ExprOf(p)))
    || IsGlob(p)
    || (IsDomain(p) && DomainOf(p) != "")
  }

  /** The entry is reported as bad: a host entry without a host, or an expression that is missing or invalid. */
  predicate EntryRefused(e: RegexEngine, entry: string) {
    var p := EntryText(entry);
    || (IsHost(p) && NormalizedName(p[5..]) == "")
    || (IsRegexp(p) && (ExprOf(p) == "" || !e.valid(ExprOf(p))))
  }

  /** The name is the domain or ends in a dot and the domain. */
  predicate InDomain(d: string, n: string) {
    n == d || (|n| > |d| && n[|n| - |d| - 1..] == "." + d)
  }

  /**
    The usable entry matches the normalised, non-empty name: `full:` the host
    alone, `[re]` what the engine says, a text with `*` or `#` as a wildcard, any
    other text the domain and every name under it.
   */
  predicate EntryHits(e: RegexEngine, entry: string, n: string) {
    var p := EntryText(entry);
    && EntryUsable(e, entry)
    && (IsHost(p) ==> n == NormalizedName(p[5..]))
    && (IsRegexp(p) ==> e.matches(ExprOf(p), n))
    && (IsGlob(p) ==> Wild(p, n))
    && (IsDomain(p) ==> InDomain(DomainOf(p), n))
  }

  /** The refused entries, in order. */
  function Refused(e: RegexEngine, entries: seq<string>): seq<string> {
    if entries == [] then []
    else
      var entry := entries[|entries| - 1];
      Refused(e, entries[..|entries| - 1]) + (if EntryRefused(e, entry) then [entry] else [])
  }

  /** Some entry matches the name. */
  ghost predicate ListHits(e: RegexEngine, entries: seq<string>, name: string) {
    NormalizedName(name) != "" && exists i :: 0 <= i < |entries| && EntryHits(e, entries[i], NormalizedName(name))
  }

  // ---------- the assumptions agree with each other ----------

  lemma PieceStarts(p: Piece, rest: string)
    ensures PieceText(p) != "" && PieceText(p)[0] != '*'
    ensures (PieceText(p) + rest)[0] == PieceText(p)[0]
    ensures p.Literal? ==> PieceText(p)[0] != '.' && (PieceText(p)[0] == '\\' <==> |PieceText(p)| == 2)
    ensures p.Literal? ==> PieceText(p)[|PieceText(p)| - 1] == p.c
  {
  }

  lemma {:induction false} PiecesDoNotStartWithAStar(pieces: seq<Piece>)
    ensures PieceTexts(pieces) != "" ==> PieceTexts(pieces)[0] != '*'
  {
    if pieces != [] {
      hide PieceText;
      PieceStarts(pieces[0], PieceTexts(pieces[1..]));
    }
  }

  lemma FirstPieceIsTold(p: Piece, x: string, q: Piece, y: string)
    requires PieceText(p) + x == PieceText(q) + y
    requires (x != "" ==> x[0] != '*') && (y != "" ==> y[0] != '*')
    ensures p == q && x == y
  {
    var s := PieceText(p) + x;
    PieceStarts(p, x);
    PieceStarts(q, y);
    assert |s| > 1 ==> s[1] == if |PieceText(p)| == 2 then PieceText(p)[1] else x[0];
    assert |s| > 1 ==> s[1] == if |PieceText(q)| == 2 then PieceText(q)[1] else y[0];
    assert p == q;
    assert s[|PieceText(p)|..] == x && s[|PieceText(q)|..] == y;
  }

  /** Pieces can be read back from their text. */
  lemma {:induction false} PiecesAreTold(a: seq<Piece>, b: seq<Piece>)
    requires PieceTexts(a) == PieceTexts(b)
    ensures a == b
  {
    hide PieceText;
    if a != [] {
      PieceStarts(a[0], PieceTexts(a[1..]));
    }
    if b != [] {
      PieceStarts(b[0], PieceTexts(b[1..]));
    }
    if a != [] && b != [] {
      PiecesDoNotStartWithAStar(a[1..]);
      PiecesDoNotStartWithAStar(b[1..]);
      FirstPieceIsTold(a[0], PieceTexts(a[1..]), b[0], PieceTexts(b[1..]));
      PiecesAreTold(a[1..], b[1..]);
      assert a == [a[0]] + a[1..] && b == [b[0]] + b[1..];
    }
  }

  ghost predicate MatchesSome(src: string, n: string) {
    src == "^" || exists pieces :: src == Anchored(pieces) && PiecesMatch(pieces, n)
  }

  /** Some engine treats these forms as assumed. */
  lemma LawsAreConsistent() returns (e: RegexEngine)
    ensures Lawful(e)
  {
    e := RegexEngine(src => true, src => "", (src, n) => MatchesSome(src, n));
    forall pieces, n
      ensures e.matches(Anchored(pieces), n) <==> PiecesMatch(pieces, n)
    {
      if e.matches(Anchored(pieces), n) {
        assert |Anchored(pieces)| >= 2;
        var other :| Anchored(pieces) == Anchored(other) && PiecesMatch(other, n);
        SameText(pieces, other);
      }
    }
  }

  lemma SameText(a: seq<Piece>, b: seq<Piece>)
    requires Anchored(a) == Anchored(b)
    ensures a == b
  {
    var x, y := PieceTexts(a), PieceTexts(b);
    assert Anchored(a)[1..|x| + 1] == x && Anchored(b)[1..|y| + 1] == y;
    PiecesAreTold(a, b);
  }
}
