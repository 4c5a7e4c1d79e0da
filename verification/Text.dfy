/** The few string functions the routing engine uses, on ASCII text. */
module Text {

  predicate IsSpace(c: char) {
    c == ' ' || 9 as char <= c <= 13 as char
  }

  function TrimLeft(s: string): string {
    if s != "" && IsSpace(s[0]) then TrimLeft(s[1..]) else s
  }

  function TrimRight(s: string): string {
    if s != "" && IsSpace(s[|s| - 1]) then TrimRight(s[..|s| - 1]) else s
  }

  function TrimSpace(s: string): string {
    TrimRight(TrimLeft(s))
  }

  /** Neither the first nor the last character is a space. */
  predicate Trimmed(s: string) {
    s != "" ==> !IsSpace(s[0]) && !IsSpace(s[|s| - 1])
  }

  function LowerChar(c: char): char {
    if 'A' <= c <= 'Z' then c + 32 as char else c
  }

  function ToLower(s: string): (r: string)
    ensures |r| == |s|
    ensures forall i :: 0 <= i < |s| ==> r[i] == LowerChar(s[i])
  {
    if s == "" then "" else [LowerChar(s[0])] + ToLower(s[1..])
  }

  /** The first place of a character, or the length of the text. */
  function IndexOf(s: string, c: char): (r: nat)
    ensures r <= |s|
    ensures r < |s| ==> s[r] == c
    ensures forall i :: 0 <= i < r ==> s[i] != c
  {
    if s == "" || s[0] == c then 0 else 1 + IndexOf(s[1..], c)
  }

  predicate HasPrefix(s: string, p: string) {
    p <= s
  }

  predicate HasSuffix(s: string, p: string) {
    |p| <= |s| && s[|s| - |p|..] == p
  }

  function TrimPrefix(s: string, p: string): string {
    if HasPrefix(s, p) then s[|p|..] else s
  }

  function TrimSuffix(s: string, p: string): string {
    if HasSuffix(s, p) then s[..|s| - |p|] else s
  }

  lemma TrimOfTrimmed(s: string)
    requires Trimmed(s)
    ensures TrimSpace(s) == s
  {
  }

  lemma {:induction false} TrimLeftIsSuffix(s: string)
    ensures exists k :: 0 <= k <= |s| && TrimLeft(s) == s[k..]
    ensures TrimLeft(s) != "" ==> !IsSpace(TrimLeft(s)[0])
  {
    if s != "" && IsSpace(s[0]) {
      TrimLeftIsSuffix(s[1..]);
      var k :| 0 <= k <= |s| - 1 && TrimLeft(s[1..]) == s[1..][k..];
      assert s[1..][k..] == s[k + 1..];
    } else {
      assert TrimLeft(s) == s[0..];
    }
  }

  lemma {:induction false} TrimRightIsPrefix(s: string)
    ensures TrimRight(s) <= s
    ensures TrimRight(s) != "" ==> !IsSpace(TrimRight(s)[|TrimRight(s)| - 1])
  {
    if s != "" && IsSpace(s[|s| - 1]) {
      TrimRightIsPrefix(s[..|s| - 1]);
    }
  }

  lemma TrimSpaceTrims(s: string)
    ensures Trimmed(TrimSpace(s))
    ensures |TrimSpace(s)| <= |s|
    ensures TrimSpace(TrimSpace(s)) == TrimSpace(s)
  {
    TrimLeftIsSuffix(s);
    TrimRightIsPrefix(TrimLeft(s));
    TrimOfTrimmed(TrimSpace(s));
  }

  // ---------- what trimming and lower case mean ----------

  predicate AllSpaces(s: string) {
    forall i :: 0 <= i < |s| ==> s[i] in " \t\n\r" || s[i] == 11 as char || s[i] == 12 as char
  }

  lemma {:induction false} TrimLeftOfSpaces(a: string, t: string)
    requires AllSpaces(a) && (t == "" || !IsSpace(t[0]))
    ensures TrimLeft(a + t) == t
  {
    if a == "" {
      assert a + t == t;
    } else {
      assert (a + t)[1..] == a[1..] + t && (a + t)[0] == a[0];
      TrimLeftOfSpaces(a[1..], t);
    }
  }

  lemma {:induction false} TrimRightOfSpaces(t: string, b: string)
    requires AllSpaces(b) && (t == "" || !IsSpace(t[|t| - 1]))
    ensures TrimRight(t + b) == t
  {
    if b == "" {
      assert t + b == t;
    } else {
      var s := t + b;
      assert s[..|s| - 1] == t + b[..|b| - 1] && s[|s| - 1] == b[|b| - 1];
      TrimRightOfSpaces(t, b[..|b| - 1]);
    }
  }

  /** Trimming takes away the spaces around a text and nothing else. */
  lemma TrimSpaceIs(a: string, t: string, b: string)
    requires AllSpaces(a) && AllSpaces(b) && Trimmed(t)
    ensures TrimSpace(a + t + b) == t
  {
    if t == "" {
      assert a + t + b == (a + b) + "" && AllSpaces(a + b);
      TrimLeftOfSpaces(a + b, "");
    } else {
      assert a + t + b == a + (t + b);
      TrimLeftOfSpaces(a, t + b);
      TrimRightOfSpaces(t, b);
    }
  }

  /** The letter in lower case; any other character itself. */
  predicate IsLowerOf(c: char, low: char) {
    if exists k :: 0 <= k < 26 && "ABCDEFGHIJKLMNOPQRSTUVWXYZ"[k] == c
    then exists k :: 0 <= k < 26 && "ABCDEFGHIJKLMNOPQRSTUVWXYZ"[k] == c && "abcdefghijklmnopqrstuvwxyz"[k] == low
    else low == c
  }

  lemma LowerCharIs(c: char)
    ensures IsLowerOf(c, LowerChar(c))
  {
    var upper, lower := "ABCDEFGHIJKLMNOPQRSTUVWXYZ", "abcdefghijklmnopqrstuvwxyz";
    assert forall k :: 0 <= k < 26 ==> upper[k] == ('A' as int + k) as char && lower[k] == ('a' as int + k) as char;
    if 'A' <= c <= 'Z' {
      var k := c as int - 'A' as int;
      assert upper[k] == c && lower[k] == LowerChar(c);
    }
  }
}
