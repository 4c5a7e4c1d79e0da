/** When an exported configuration is taken for a vpn:// link (import.go). */
module ConfLinks {
  import opened Wrappers
  import opened Text
  import opened TextLines
  import opened Ranges
  import opened Obfuscation
  import opened ClientConf
  import opened ConfImport
  import opened ConfRoundTrip

  // ---------- links in a text ----------

  lemma LinkCharacters(s: string, i: nat)
    requires i + 6 <= |s| && LinkAt(s, i)
    ensures s[i + 3] == ':' && forall k :: i <= k < i + 6 ==> !IsSpace(s[k])
  {
    var word := ToLower(s[i..i + 6]);
    forall k | i <= k < i + 6
      ensures LowerChar(s[k]) == "vpn://"[k - i]
    {
      assert word[k - i] == LowerChar(s[i..i + 6][k - i]);
    }
  }

  /** A link has no space in it, so each is on one side of a space. */
  lemma LinkBesideSpace(a: string, c: char, b: string, i: nat)
    requires IsSpace(c) && i + 6 <= |a + [c] + b| && LinkAt(a + [c] + b, i)
    ensures i + 6 <= |a| || |a| < i
  {
    hide LinkAt;
    assert (a + [c] + b)[|a|] == c;
    LinkCharacters(a + [c] + b, i);
  }

  lemma LinkOnTheLeft(a: string, rest: string)
    requires HasLink(a)
    ensures HasLink(a + rest)
  {
    hide ToLower;
    var i :| 0 <= i && i + 6 <= |a| && LinkAt(a, i);
    assert (a + rest)[i..i + 6] == a[i..i + 6];
    assert LinkAt(a + rest, i);
  }

  lemma LinkOnTheRight(a: string, c: char, b: string)
    requires IsSpace(c) && HasLink(b)
    ensures HasLink(a + [c] + b)
  {
    hide ToLower;
    var s := a + [c] + b;
    var j :| 0 <= j && j + 6 <= |b| && LinkAt(b, j);
    var i := |a| + 1 + j;
    assert s[i..] == b[j..];
    assert s[i..i + 6] == s[i..][..6] == b[j..][..6] == b[j..j + 6];
    assert s[i - 1] == if j == 0 then c else b[j - 1];
    assert LinkAt(s, i);
  }

  lemma LinkIsOnOneSide(a: string, c: char, b: string)
    requires IsSpace(c) && HasLink(a + [c] + b)
    ensures HasLink(a) || HasLink(b)
  {
    hide ToLower;
    var s := a + [c] + b;
    var i :| 0 <= i && i + 6 <= |s| && LinkAt(s, i);
    LinkBesideSpace(a, c, b, i);
    if i + 6 <= |a| {
      assert s[i..i + 6] == a[i..i + 6];
      assert LinkAt(a, i);
    } else {
      var j := i - |a| - 1;
      assert s[i..i + 6] == b[j..j + 6];
      assert j > 0 ==> s[i - 1] == b[j - 1];
      assert LinkAt(b, j);
    }
  }

  lemma HasLinkApart(a: string, c: char, b: string)
    requires IsSpace(c)
    ensures HasLink(a + [c] + b) <==> HasLink(a) || HasLink(b)
  {
    hide HasLink;
    if HasLink(a + [c] + b) {
      LinkIsOnOneSide(a, c, b);
    }
    if HasLink(a) {
      assert a + [c] + b == a + ([c] + b);
      LinkOnTheLeft(a, [c] + b);
    }
    if HasLink(b) {
      LinkOnTheRight(a, c, b);
    }
  }

  lemma NoColonNoLink(s: string)
    requires ':' !in s
    ensures !HasLink(s)
  {
    if HasLink(s) {
      var i :| 0 <= i && i + 6 <= |s| && LinkAt(s, i);
      LinkCharacters(s, i);
    }
  }

  /** A line has a link exactly when its value has: the name and the equals sign are no link. */
  lemma LinkInKeyLine(k: Key, v: string)
    ensures HasLink(KeyLine(k, v)) <==> HasLink(v)
  {
    hide Key.Name, HasLink, PlainName;
    var name := k.Name() + " =";
    NamesArePlain(k);
    PlainNameHasNoColon(k.Name());
    NoColonNoLink(name);
    assert KeyLine(k, v) == name + [' '] + v;
    HasLinkApart(name, ' ', v);
  }

  lemma PlainNameHasNoColon(name: string)
    requires PlainName(name)
    ensures ':' !in name + " ="
  {
  }

  /** Some of these keys is written with a link. */
  predicate WritesLink(c: Server, p: Peer, keys: seq<Key>) {
    exists i :: 0 <= i < |keys| && Value(c, p, keys[i]).Some? && HasLink(Value(c, p, keys[i]).value)
  }

  predicate LineHasLink(lines: seq<string>) {
    exists i :: 0 <= i < |lines| && HasLink(lines[i])
  }

  lemma LineHasLinkJoin(a: seq<string>, b: seq<string>)
    ensures LineHasLink(a + b) <==> LineHasLink(a) || LineHasLink(b)
  {
    hide HasLink;
    if LineHasLink(a) {
      var i :| 0 <= i < |a| && HasLink(a[i]);
      assert HasLink((a + b)[i]);
    }
    if LineHasLink(b) {
      var i :| 0 <= i < |b| && HasLink(b[i]);
      assert HasLink((a + b)[|a| + i]);
    }
  }

  lemma {:induction false} LinkInKeyLines(c: Server, p: Peer, keys: seq<Key>)
    ensures LineHasLink(KeyLines(c, p, keys)) <==> WritesLink(c, p, keys)
  {
    hide Value, KeyLine, HasLink;
    if keys != [] {
      var front, k := keys[..|keys| - 1], keys[|keys| - 1];
      LinkInKeyLines(c, p, front);
      assert keys == front + [k];
      WritesLinkSnoc(c, p, front, k);
      if Value(c, p, k).Some? {
        var v := Value(c, p, k).value;
        LinkInKeyLine(k, v);
        LineHasLinkJoin(KeyLines(c, p, front), [KeyLine(k, v)]);
        assert LineHasLink([KeyLine(k, v)]) <==> HasLink([KeyLine(k, v)][0]);
      } else {
        assert KeyLines(c, p, keys) == KeyLines(c, p, front);
      }
    }
  }

  lemma WritesLinkSnoc(c: Server, p: Peer, keys: seq<Key>, k: Key)
    ensures WritesLink(c, p, keys + [k]) <==> WritesLink(c, p, keys) || (Value(c, p, k).Some? && HasLink(Value(c, p, k).value))
  {
    hide Value, HasLink;
    var more := keys + [k];
    assert forall i :: 0 <= i < |keys| ==> more[i] == keys[i];
    assert more[|keys|] == k;
  }

  lemma {:induction false} LinkInRendered(lines: seq<string>)
    ensures HasLink(Render(lines)) <==> LineHasLink(lines)
  {
    hide HasLink;
    if lines == [] {
      assert Render(lines) == "";
      NoColonNoLink("");
    } else {
      LinkInRendered(lines[1..]);
      assert lines == [lines[0]] + lines[1..];
      LineHasLinkJoin([lines[0]], lines[1..]);
      assert LineHasLink([lines[0]]) <==> HasLink([lines[0]][0]);
      HasLinkApart(lines[0], '\n', Render(lines[1..]));
      assert Render(lines) == lines[0] + ['\n'] + Render(lines[1..]);
    }
  }

  /** An exported configuration is taken for a link exactly when one of its values has a vpn:// word. */
  lemma LinkInConf(c: Server, p: Peer)
    requires PlainValues(c, p, InterfaceKeys(c)) && PlainValues(c, p, PEER_KEYS)
    ensures HasLink(TrimSpace(Render(ConfLines(c, p)))) <==> WritesLink(c, p, InterfaceKeys(c)) || WritesLink(c, p, PEER_KEYS)
  {
    hide Render, KeyLines, InterfaceKeys, HasLink, PlainValues, WritesLink, LineHasLink, TrimSpace, Lines, Scannable;
    var interface, peer := KeyLines(c, p, InterfaceKeys(c)), KeyLines(c, p, PEER_KEYS);
    LinkInKeyLines(c, p, InterfaceKeys(c));
    LinkInKeyLines(c, p, PEER_KEYS);
    LineHasLinkJoin(["[Interface]"] + interface + ["", "[Peer]"], peer);
    LineHasLinkJoin(["[Interface]"] + interface, ["", "[Peer]"]);
    LineHasLinkJoin(["[Interface]"], interface);
    FixedLinesHaveNoLink();
    LinkInRendered(ConfLines(c, p));
    ConfTextReads(c, p);
    var text := Render(ConfLines(c, p));
    NoColonNoLink("");
    HasLinkApart(TrimSpace(text), '\n', "");
    assert TrimSpace(text) + ['\n'] + "" == text;
  }

  lemma FixedLinesHaveNoLink()
    ensures !LineHasLink(["[Interface]"]) && !LineHasLink(["", "[Peer]"])
  {
    hide HasLink;
    NoColonNoLink("[Interface]");
    NoColonNoLink("");
    NoColonNoLink("[Peer]");
  }

  /**
    The round trip is exact: with the link unpacker refusing, the import gives back
    the connection exactly when no written value has a vpn:// word, and otherwise
    says that the link is bad.
   */
  lemma RoundTripIsExact(c: Server, p: Peer, env: Env)
    requires Ready(c, p, env)
    ensures var text := Render(ConfLines(c, p));
            var linked := WritesLink(c, p, InterfaceKeys(c)) || WritesLink(c, p, PEER_KEYS);
            && (!linked ==> ImportConf(text, env).Ok? && SameConnection(c, p, env, ImportConf(text, env).value))
            && (linked && env.unpack(TrimSpace(text)).None? ==> ImportConf(text, env) == Err(BadLink))
            && (env.unpack(TrimSpace(text)).None? ==> (ImportConf(text, env).Ok? <==> !linked))
  {
    hide Render, ConfLines, InterfaceKeys, HasLink, PlainValues, WritesLink, ImportConf, SameConnection, TrimSpace;
    LinkInConf(c, p);
    ExportThenImport(c, p, env);
  }

  // ---------- a name server that looks like a link ----------

  const ANY: Env := Env(s => true, s => Some("public"), s => true, s => true, s => None)

  function PlainObf(): Obf {
    Obf(0, 0, 0, 0, 0, 0, 0, "1", "2", "3", "4", "", "", "", "", "", "", "", "", "", "", "", "", false, false)
  }

  function LinkedServer(): Server {
    Server("server", "host:1", "vpn://home", 0, true, PlainObf())
  }

  function SomePeer(): Peer {
    Peer("private", "", "10.0.0.2/32", "::/0", 0, "")
  }

  lemma OneDigitHeader(h: string, d: nat)
    requires 1 <= d <= 4 && h == [Digit(d)]
    ensures NumericRange(h, 32) == Some(Interval(d, d))
    ensures NormalHeader(h, h) == h && ValidHeader(h)
  {
    hide NumericRange, ValidHeader, TrimSpace;
    RangeReadsBack(d, d, 32);
    assert Decimal(d) == h;
    HeadersAreRanges(h);
  }

  lemma NoPacketsNoTimings()
    ensures NormalTiming("") == "" && TrimSpace("") == ""
  {
  }

  lemma OneDigitHeaders()
    ensures NormalHeader("1", "1") == "1" && NormalHeader("2", "2") == "2"
    ensures NormalHeader("3", "3") == "3" && NormalHeader("4", "4") == "4"
    ensures forall i :: 0 <= i < 4 ==> ValidHeader(PlainObf().Headers()[i])
    ensures forall i, j :: 0 <= j < i < 4 ==> !Overlap(PlainObf().Headers()[i], PlainObf().Headers()[j])
  {
    hide NumericRange, NormalHeader, ValidHeader;
    OneDigitHeader("1", 1);
    OneDigitHeader("2", 2);
    OneDigitHeader("3", 3);
    OneDigitHeader("4", 4);
  }

  lemma PlainObfIsExportable()
    ensures Exportable(PlainObf(), ANY)
  {
    hide NormalHeader, ValidHeader, Overlap, NormalTiming, TrimSpace;
    NoPacketsNoTimings();
    OneDigitHeaders();
  }

  predicate OneWord(v: string) {
    |v| <= 20 && forall i :: 0 <= i < |v| ==> !IsSpace(v[i])
  }

  lemma OneWordIsPlain(k: Key, v: string)
    requires OneWord(v)
    ensures PlainValue(k, v)
  {
    hide Key.Name;
    NamesAreMarked(k);
    assert |k.Name()| <= 22;
  }

  lemma Words()
    ensures OneWord("0") && OneWord("1") && OneWord("2") && OneWord("3") && OneWord("4") && OneWord("25") && OneWord("::/0")
    ensures OneWord("private") && OneWord("server") && OneWord("host:1") && OneWord("vpn://home") && OneWord("10.0.0.2/32")
  {
  }

  lemma Trimming()
    ensures TrimSpace("") == "" && TrimSpace("1") == "1" && TrimSpace("2") == "2" && TrimSpace("3") == "3" && TrimSpace("4") == "4"
    ensures TrimSpace("::/0") == "::/0" && TrimSpace("vpn://home") == "vpn://home"
    ensures Itoa(0) == "0"
  {
  }

  lemma LinkedObfValues(k: Key)
    ensures var v := ObfValue(PlainObf(), k); v.Some? ==> OneWord(v.value)
  {
    hide OneWord, TrimSpace, Itoa;
    Words();
    Trimming();
  }

  lemma LinkedKeepalive()
    ensures PeerKeepaliveValue(LinkedServer(), SomePeer()) == "25"
  {
    hide TrimSpace, WireRange, Itoa;
    Trimming();
  }

  lemma LinkedValues(k: Key)
    ensures var v := Value(LinkedServer(), SomePeer(), k); v.Some? ==> OneWord(v.value)
  {
    hide OneWord, TrimSpace, Itoa, ObfValue, PeerKeepaliveValue;
    Words();
    Trimming();
    LinkedKeepalive();
    LinkedObfValues(k);
  }

  lemma LinkedValuesArePlain(keys: seq<Key>)
    ensures PlainValues(LinkedServer(), SomePeer(), keys)
  {
    hide Value, PlainValue;
    forall i | 0 <= i < |keys| && Value(LinkedServer(), SomePeer(), keys[i]).Some?
      ensures PlainValue(keys[i], Value(LinkedServer(), SomePeer(), keys[i]).value)
    {
      LinkedValues(keys[i]);
      OneWordIsPlain(keys[i], Value(LinkedServer(), SomePeer(), keys[i]).value);
    }
  }

  lemma LinkedServerIsReady()
    ensures Ready(LinkedServer(), SomePeer(), ANY)
  {
    hide Exportable, PlainValues, NumericRange, Value;
    PlainObfIsExportable();
    LinkedValuesArePlain(InterfaceKeys(LinkedServer()));
    LinkedValuesArePlain(PEER_KEYS);
    TwentyFive();
    RangeReadsBack(25, 25, 16);
    LinkedKeepalive();
  }

  lemma LinkAtTheStart(s: string)
    requires |s| >= 6 && s[..6] == "vpn://"
    ensures HasLink(s)
  {
    assert s[0..6] == s[..6];
    assert ToLower("vpn://") == "vpn://";
    assert LinkAt(s, 0);
  }

  lemma NameServerIsALink()
    ensures HasLink("vpn://home") && Value(LinkedServer(), SomePeer(), DNS) == Some("vpn://home")
  {
    hide HasLink, TrimSpace, PeerKeepaliveValue, ObfValue;
    assert "vpn://home"[..6] == "vpn://";
    LinkAtTheStart("vpn://home");
    Trimming();
  }

  /** A valid connection whose name server starts with vpn:// is exported and not imported again. */
  lemma LinkedNameServerIsNotImported()
    ensures Ready(LinkedServer(), SomePeer(), ANY)
    ensures ImportConf(Render(ConfLines(LinkedServer(), SomePeer())), ANY) == Err(BadLink)
  {
    hide Ready, Render, ConfLines, ImportConf, SameConnection, HasLink, Value, LinkedServer, SomePeer, TrimSpace;
    LinkedServerIsReady();
    NameServerIsALink();
    var c, p := LinkedServer(), SomePeer();
    assert InterfaceKeys(c)[2] == DNS;
    assert WritesLink(c, p, InterfaceKeys(c));
    RoundTripIsExact(c, p, ANY);
  }
}
