/** Importing an exported client configuration recovers what matters (conf.go, import.go). */
module ConfRoundTrip {
  import opened Wrappers
  import opened Text
  import opened TextLines
  import opened Ranges
  import opened Obfuscation
  import opened ClientConf
  import opened ConfImport

  // ---------- one line ----------

  lemma TrimAround(s: string)
    requires Trimmed(s) && s != ""
    ensures TrimSpace(s + " ") == s && TrimSpace(" " + s) == s
  {
    assert (s + " ")[..|s + " "| - 1] == s && (s + " ")[0] == s[0];
    assert (" " + s)[1..] == s;
    TrimOfTrimmed(s);
  }

  lemma BlankIsTrimmed()
    ensures TrimSpace("") == "" && TrimSpace(" ") == ""
  {
    assert " "[1..] == "";
  }

  lemma PlainNamesAreTrimmed(s: string)
    requires PlainName(s)
    ensures s != "" && Trimmed(s) && TrimSpace(s) == s && OneLine(s)
    ensures NameChar(s[0]) && NameChar(s[|s| - 1])
    ensures forall i :: 0 <= i < |s| ==> s[i] != '='
  {
    TrimOfTrimmed(s);
  }

  lemma {:induction false} IndexAt(s: string, c: char, at: nat)
    requires at < |s| && s[at] == c && forall i :: 0 <= i < at ==> s[i] != c
    ensures IndexOf(s, c) == at
  {
    if at > 0 {
      IndexAt(s[1..], c, at - 1);
    }
  }

  /** A name, an equals sign and a value are told apart again. */
  lemma PairReadsBack(name: string, v: string)
    requires PlainName(name) && Trimmed(v)
    ensures var line := TrimSpace(name + " = " + v);
            && line != "" && NameChar(line[0])
            && SplitKV(line) == Some(Pair(name, v))
  {
    hide TrimSpace, IndexOf, PlainName;
    PlainNamesAreTrimmed(name);
    BlankIsTrimmed();
    TrimAround(name);
    var n := |name|;
    if v == "" {
      var line := name + " =";
      assert name + " = " + v == line + " ";
      assert line[0] == name[0] && line[|line| - 1] == '=';
      assert Trimmed(line);
      TrimAround(line);
      assert line[n + 1] == '=' && forall i :: 0 <= i < n ==> line[i] == name[i];
      IndexAt(line, '=', n + 1);
      assert line[..n + 1] == name + " " && line[n + 2..] == "";
    } else {
      var line := name + " = " + v;
      assert line[0] == name[0] && line[|line| - 1] == v[|v| - 1];
      TrimOfTrimmed(line);
      assert line[n + 1] == '=' && forall i :: 0 <= i < n ==> line[i] == name[i];
      IndexAt(line, '=', n + 1);
      assert line[..n + 1] == name + " " && line[n + 2..] == " " + v;
      TrimAround(v);
    }
  }

  lemma KeyLineParses(p: Sections, k: Key, v: string)
    requires Trimmed(v)
    ensures ParseLine(p, KeyLine(k, v)) ==
            if p.section == "interface" then p.(iface := p.iface[k.Name() := v])
            else if p.section == "peer" then p.(peer := p.peer[k.Name() := v])
            else p
  {
    hide TrimSpace, SplitKV, Key.Name, PlainName, IndexOf, ToLower;
    NamesArePlain(k);
    PairReadsBack(k.Name(), v);
  }

  // ---------- a section ----------

  /** Every value that is written is trimmed. */
  predicate TrimmedValues(c: Server, p: Peer, keys: seq<Key>) {
    forall i :: 0 <= i < |keys| ==> Value(c, p, keys[i]).Some? ==> Trimmed(Value(c, p, keys[i]).value)
  }

  /** The section has exactly the values written for these keys. */
  ghost predicate Holds(m: Section, c: Server, p: Peer, keys: seq<Key>) {
    forall k: Key {:trigger k.Name()} ::
      && (k.Name() in m <==> k in keys && Value(c, p, k).Some?)
      && (k.Name() in m ==> m[k.Name()] == Value(c, p, k).value)
  }

  /** The same sections with other contents of the current one. */
  function WithCurrent(s: Sections, m: Section): Sections {
    if s.section == "interface" then s.(iface := m) else s.(peer := m)
  }

  function Current(s: Sections): Section {
    if s.section == "interface" then s.iface else s.peer
  }

  lemma HoldsSnoc(m: Section, c: Server, p: Peer, keys: seq<Key>, k: Key)
    requires Holds(m, c, p, keys)
    ensures var v := Value(c, p, k);
            Holds(if v.Some? then m[k.Name() := v.value] else m, c, p, keys + [k])
  {
    hide Value, Key.Name;
    var v := Value(c, p, k);
    var after := if v.Some? then m[k.Name() := v.value] else m;
    forall l: Key {:trigger l.Name()}
      ensures l.Name() in after <==> l in keys + [k] && Value(c, p, l).Some?
      ensures l.Name() in after ==> after[l.Name()] == Value(c, p, l).value
    {
      NamesDiffer(l, k);
      assert l in keys + [k] <==> l in keys || l == k;
    }
  }

  lemma {:induction false} KeyLinesParse(s: Sections, c: Server, p: Peer, keys: seq<Key>)
    requires s.section == "interface" || s.section == "peer"
    requires Current(s) == map[] && TrimmedValues(c, p, keys)
    ensures var after := ParseLines(s, KeyLines(c, p, keys));
            after == WithCurrent(s, Current(after)) && Holds(Current(after), c, p, keys)
  {
    hide Value, KeyLine, Key.Name, Trimmed, ParseLine;
    if keys == [] {
      NothingHolds(c, p);
    } else {
      var front, k := keys[..|keys| - 1], keys[|keys| - 1];
      assert keys == front + [k];
      KeyLinesParse(s, c, p, front);
      var before := ParseLines(s, KeyLines(c, p, front));
      HoldsSnoc(Current(before), c, p, front, k);
      var v := Value(c, p, k);
      if v.Some? {
        assert Trimmed(v.value);
        ParseLinesSnoc(s, KeyLines(c, p, front), KeyLine(k, v.value));
        KeyLineParses(before, k, v.value);
      } else {
        assert KeyLines(c, p, keys) == KeyLines(c, p, front);
      }
    }
  }

  lemma NothingHolds(c: Server, p: Peer)
    ensures Holds(map[], c, p, [])
  {
  }

  // ---------- the whole text ----------

  lemma SectionLineParses(s: Sections, name: string)
    requires PlainName(name)
    ensures ParseLine(s, "[" + name + "]") == s.(section := ToLower(name))
  {
    hide TrimSpace, ToLower, SplitKV, PlainName;
    PlainNamesAreTrimmed(name);
    var line := "[" + name + "]";
    assert line[0] == '[' && line[|line| - 1] == ']' && line[1..|line| - 1] == name;
    TrimOfTrimmed(line);
  }

  lemma InterfaceName()
    ensures PlainName("Interface") && ToLower("Interface") == "interface"
  {
    var a := ToLower("Interface");
    assert forall i :: 0 <= i < 9 ==> a[i] == "interface"[i];
  }

  lemma PeerName()
    ensures PlainName("Peer") && ToLower("Peer") == "peer"
  {
    var b := ToLower("Peer");
    assert forall i :: 0 <= i < 4 ==> b[i] == "peer"[i];
  }

  lemma HeaderLinesParse(s: Sections)
    ensures ParseLine(s, "[Interface]") == s.(section := "interface")
    ensures ParseLine(s, "[Peer]") == s.(section := "peer")
    ensures ParseLine(s, "") == s
  {
    InterfaceName();
    PeerName();
    BlankIsTrimmed();
    hide TrimSpace, ToLower, SplitKV, PlainName;
    SectionLineParses(s, "Interface");
    SectionLineParses(s, "Peer");
    assert "[" + "Interface" + "]" == "[Interface]";
    assert "[" + "Peer" + "]" == "[Peer]";
  }

  lemma {:induction false} ParseLinesAppend(s: Sections, a: seq<string>, b: seq<string>)
    ensures ParseLines(s, a + b) == ParseLines(ParseLines(s, a), b)
  {
    hide ParseLine;
    if b == [] {
      assert a + b == a;
    } else {
      assert (a + b)[..|a + b| - 1] == a + b[..|b| - 1];
      ParseLinesAppend(s, a, b[..|b| - 1]);
    }
  }

  lemma ConfLinesParse(c: Server, p: Peer)
    requires TrimmedValues(c, p, InterfaceKeys(c)) && TrimmedValues(c, p, PEER_KEYS)
    ensures var after := ParseLines(NOTHING, ConfLines(c, p));
            Holds(after.iface, c, p, InterfaceKeys(c)) && Holds(after.peer, c, p, PEER_KEYS)
  {
    hide ParseLine, KeyLines, TrimmedValues, Holds, InterfaceKeys;
    var interface, peer := KeyLines(c, p, InterfaceKeys(c)), KeyLines(c, p, PEER_KEYS);
    HeaderLinesParse(NOTHING);
    var s1 := NOTHING.(section := "interface");
    assert ParseLines(NOTHING, ["[Interface]"]) == s1 by {
      assert ["[Interface]"] == [] + ["[Interface]"];
      ParseLinesSnoc(NOTHING, [], "[Interface]");
    }
    KeyLinesParse(s1, c, p, InterfaceKeys(c));
    var s2 := ParseLines(s1, interface);
    ParseLinesAppend(NOTHING, ["[Interface]"], interface);
    HeaderLinesParse(s2);
    var s3 := s2.(section := "peer");
    assert ParseLines(s2, ["", "[Peer]"]) == s3 by {
      assert ["", "[Peer]"] == ([] + [""]) + ["[Peer]"];
      ParseLinesSnoc(s2, [], "");
      ParseLinesSnoc(s2, [] + [""], "[Peer]");
    }
    ParseLinesAppend(NOTHING, ["[Interface]"] + interface, ["", "[Peer]"]);
    KeyLinesParse(s3, c, p, PEER_KEYS);
    ParseLinesAppend(NOTHING, ["[Interface]"] + interface + ["", "[Peer]"], peer);
  }

  // ---------- values ----------

  predicate NumberText(s: string) {
    Trimmed(s) && OneLine(s)
  }

  lemma AtoiOfItoa(n: int)
    ensures Atoi(Itoa(n)) == n && NumberText(Itoa(n)) && TrimSpace(Itoa(n)) == Itoa(n)
  {
    hide TrimSpace, Digits, Decimal;
    var m := if n < 0 then -n else n;
    var d := Decimal(m);
    DecimalIsDigits(m);
    DecimalReadsBack(m);
    var s := Itoa(n);
    if n < 0 {
      assert s == "-" + d && s[1..] == d && s[0] == '-';
      assert forall i :: 1 <= i < |s| ==> s[i] == d[i - 1];
    }
    assert NumberText(s);
    TrimOfTrimmed(s);
  }

  /** What one key comes back as. */
  lemma ValueComesBack(m: Section, c: Server, p: Peer, keys: seq<Key>, k: Key)
    requires Holds(m, c, p, keys) && k in keys
    requires Value(c, p, k).Some? ==> Trimmed(Value(c, p, k).value)
    ensures Get(m, k) == if Value(c, p, k).Some? then Value(c, p, k).value else ""
  {
    hide TrimSpace, Value, Key.Name;
    if Value(c, p, k).Some? {
      TrimOfTrimmed(Value(c, p, k).value);
    }
  }

  /** The settings can be written: normal, valid and without stray spaces. */
  predicate Exportable(o: Obf, env: Env) {
    Normalized(o) == o && Valid(o, env.packet, env.key) && o.AllTrimmed()
  }

  lemma IfTextOfTrimmed(v: string)
    requires Trimmed(v)
    ensures IfText(v) == if v == "" then None else Some(v)
  {
    TrimOfTrimmed(v);
  }

  lemma HeaderTextOfValid(h: string, default: string)
    requires Trimmed(h) && ValidHeader(h)
    ensures HeaderText(h, default) == h
  {
    hide ParseU32;
    TrimOfTrimmed(h);
  }

  lemma NumbersComeBack(m: Section, c: Server, p: Peer, keys: seq<Key>, k: Key, n: int)
    requires Holds(m, c, p, keys) && k in keys && n >= 0
    requires Value(c, p, k) == Some(Itoa(n)) || (n == 0 && Value(c, p, k) == None)
    ensures Atoi(Get(m, k)) == n
  {
    hide TrimSpace, Value, Key.Name, Digits, Itoa, Holds;
    AtoiOfItoa(n);
    ValueComesBack(m, c, p, keys, k);
    AtoiOfBlank();
  }

  lemma AtoiOfBlank()
    ensures Atoi("") == 0
  {
  }

  lemma TextsComeBack(m: Section, c: Server, p: Peer, keys: seq<Key>, k: Key, v: string)
    requires Holds(m, c, p, keys) && k in keys && Trimmed(v)
    requires Value(c, p, k) == Some(v) || Value(c, p, k) == IfText(v)
    ensures Get(m, k) == v
  {
    hide TrimSpace, Value, Key.Name, Holds;
    IfTextOfTrimmed(v);
    ValueComesBack(m, c, p, keys, k);
  }

  lemma ObfKeysArePresent(c: Server, k: Key)
    requires c.obfuscate && IsObfKey(k)
    ensures k in InterfaceKeys(c)
  {
    assert k in OBF_KEYS;
  }

  lemma ObfValueIsWritten(c: Server, p: Peer, k: Key)
    requires IsObfKey(k)
    ensures Value(c, p, k) == ObfValue(c.obf, k)
  {
  }

  lemma ObfTextComesBack(m: Section, c: Server, p: Peer, k: Key, v: string)
    requires c.obfuscate && Holds(m, c, p, InterfaceKeys(c)) && IsObfKey(k) && Trimmed(v)
    requires ObfValue(c.obf, k) == Some(v) || ObfValue(c.obf, k) == IfText(v)
    ensures Get(m, k) == v
  {
    hide Get, Holds, InterfaceKeys, ObfValue, Value, IfText, Trimmed;
    ObfKeysArePresent(c, k);
    ObfValueIsWritten(c, p, k);
    TextsComeBack(m, c, p, InterfaceKeys(c), k, v);
  }

  lemma ObfNumberComesBack(m: Section, c: Server, p: Peer, k: Key, n: int)
    requires c.obfuscate && Holds(m, c, p, InterfaceKeys(c)) && IsObfKey(k) && n >= 0
    requires ObfValue(c.obf, k) == Some(Itoa(n)) || (n == 0 && ObfValue(c.obf, k) == None)
    ensures Atoi(Get(m, k)) == n
  {
    hide Get, Holds, InterfaceKeys, ObfValue, Value, Itoa, Atoi;
    ObfKeysArePresent(c, k);
    ObfValueIsWritten(c, p, k);
    NumbersComeBack(m, c, p, InterfaceKeys(c), k, n);
  }

  lemma NumbersRecover(m: Section, c: Server, p: Peer)
    requires c.obfuscate && Holds(m, c, p, InterfaceKeys(c))
    requires c.obf.jc >= 0 && c.obf.jmin >= 0 && c.obf.jmax >= 0
    requires c.obf.s1 >= 0 && c.obf.s2 >= 0 && c.obf.s3 >= 0 && c.obf.s4 >= 0
    ensures Atoi(Get(m, Jc)) == c.obf.jc && Atoi(Get(m, Jmin)) == c.obf.jmin && Atoi(Get(m, Jmax)) == c.obf.jmax
    ensures Atoi(Get(m, S1)) == c.obf.s1 && Atoi(Get(m, S2)) == c.obf.s2
    ensures Atoi(Get(m, S3)) == c.obf.s3 && Atoi(Get(m, S4)) == c.obf.s4
  {
    hide Atoi, Get, Itoa, Holds, InterfaceKeys;
    var o := c.obf;
    ObfNumberComesBack(m, c, p, Jc, o.jc);
    ObfNumberComesBack(m, c, p, Jmin, o.jmin);
    ObfNumberComesBack(m, c, p, Jmax, o.jmax);
    ObfNumberComesBack(m, c, p, S1, o.s1);
    ObfNumberComesBack(m, c, p, S2, o.s2);
    ObfNumberComesBack(m, c, p, S3, o.s3);
    ObfNumberComesBack(m, c, p, S4, o.s4);
  }

  predicate GoodHeader(h: string) {
    Trimmed(h) && ValidHeader(h)
  }

  lemma HeadersRecover(m: Section, c: Server, p: Peer)
    requires c.obfuscate && Holds(m, c, p, InterfaceKeys(c))
    requires GoodHeader(c.obf.h1) && GoodHeader(c.obf.h2) && GoodHeader(c.obf.h3) && GoodHeader(c.obf.h4)
    ensures Get(m, H1) == c.obf.h1 && Get(m, H2) == c.obf.h2 && Get(m, H3) == c.obf.h3 && Get(m, H4) == c.obf.h4
  {
    hide Get, HeaderText, Holds, InterfaceKeys, ValidHeader, Trimmed;
    var o := c.obf;
    HeaderTextOfValid(o.h1, "1");
    HeaderTextOfValid(o.h2, "2");
    HeaderTextOfValid(o.h3, "3");
    HeaderTextOfValid(o.h4, "4");
    ObfTextComesBack(m, c, p, H1, o.h1);
    ObfTextComesBack(m, c, p, H2, o.h2);
    ObfTextComesBack(m, c, p, H3, o.h3);
    ObfTextComesBack(m, c, p, H4, o.h4);
  }

  lemma PacketsRecover(m: Section, c: Server, p: Peer)
    requires c.obfuscate && Holds(m, c, p, InterfaceKeys(c))
    requires Trimmed(c.obf.i1) && Trimmed(c.obf.i2) && Trimmed(c.obf.i3)
    ensures Get(m, I1) == c.obf.i1 && Get(m, I2) == c.obf.i2 && Get(m, I3) == c.obf.i3
  {
    hide Get, IfText, Holds, InterfaceKeys, Trimmed;
    ObfTextComesBack(m, c, p, I1, c.obf.i1);
    ObfTextComesBack(m, c, p, I2, c.obf.i2);
    ObfTextComesBack(m, c, p, I3, c.obf.i3);
  }

  lemma MorePacketsRecover(m: Section, c: Server, p: Peer)
    requires c.obfuscate && Holds(m, c, p, InterfaceKeys(c))
    requires Trimmed(c.obf.i4) && Trimmed(c.obf.i5) && Trimmed(c.obf.headerProtectionKey)
    ensures Get(m, I4) == c.obf.i4 && Get(m, I5) == c.obf.i5
    ensures Get(m, HeaderProtectionKey) == c.obf.headerProtectionKey
  {
    hide Get, IfText, Holds, InterfaceKeys, Trimmed;
    ObfTextComesBack(m, c, p, I4, c.obf.i4);
    ObfTextComesBack(m, c, p, I5, c.obf.i5);
    ObfTextComesBack(m, c, p, HeaderProtectionKey, c.obf.headerProtectionKey);
  }

  lemma TimingsRecover(m: Section, c: Server, p: Peer)
    requires c.obfuscate && Holds(m, c, p, InterfaceKeys(c))
    requires Trimmed(c.obf.contentPaddingAddition) && Trimmed(c.obf.rekeyAfterTime) && Trimmed(c.obf.rekeyTimeout)
    ensures Get(m, ContentPaddingAddition) == c.obf.contentPaddingAddition
    ensures Get(m, RekeyAfterTime) == c.obf.rekeyAfterTime
    ensures Get(m, RekeyTimeout) == c.obf.rekeyTimeout
  {
    hide Get, IfText, Holds, InterfaceKeys, Trimmed;
    ObfTextComesBack(m, c, p, ContentPaddingAddition, c.obf.contentPaddingAddition);
    ObfTextComesBack(m, c, p, RekeyAfterTime, c.obf.rekeyAfterTime);
    ObfTextComesBack(m, c, p, RekeyTimeout, c.obf.rekeyTimeout);
  }

  lemma MoreTimingsRecover(m: Section, c: Server, p: Peer)
    requires c.obfuscate && Holds(m, c, p, InterfaceKeys(c))
    requires Trimmed(c.obf.rejectAfterTime) && Trimmed(c.obf.keepaliveTimeout) && Trimmed(c.obf.maxHandshakeAttempts)
    ensures Get(m, RejectAfterTime) == c.obf.rejectAfterTime
    ensures Get(m, KeepaliveTimeout) == c.obf.keepaliveTimeout
    ensures Get(m, MaxHandshakeAttempts) == c.obf.maxHandshakeAttempts
  {
    hide Get, IfText, Holds, InterfaceKeys, Trimmed;
    ObfTextComesBack(m, c, p, RejectAfterTime, c.obf.rejectAfterTime);
    ObfTextComesBack(m, c, p, KeepaliveTimeout, c.obf.keepaliveTimeout);
    ObfTextComesBack(m, c, p, MaxHandshakeAttempts, c.obf.maxHandshakeAttempts);
  }

  /** The lists of settings, field by field. */
  lemma ExportableFields(o: Obf, env: Env)
    requires Exportable(o, env)
    ensures GoodHeader(o.h1) && GoodHeader(o.h2) && GoodHeader(o.h3) && GoodHeader(o.h4)
    ensures Trimmed(o.i1) && Trimmed(o.i2) && Trimmed(o.i3) && Trimmed(o.i4) && Trimmed(o.i5) && Trimmed(o.headerProtectionKey)
    ensures Trimmed(o.contentPaddingAddition) && Trimmed(o.rekeyAfterTime) && Trimmed(o.rekeyTimeout)
    ensures Trimmed(o.rejectAfterTime) && Trimmed(o.keepaliveTimeout) && Trimmed(o.maxHandshakeAttempts)
  {
    hide Trimmed, ValidHeader, Normalized, NumericRange, Overlap;
    assert o.Headers()[0] == o.h1 && o.Headers()[1] == o.h2 && o.Headers()[2] == o.h3 && o.Headers()[3] == o.h4;
    assert o.Packets()[0] == o.i1 && o.Packets()[1] == o.i2 && o.Packets()[2] == o.i3 && o.Packets()[3] == o.i4 && o.Packets()[4] == o.i5;
    assert o.Timings()[0] == o.contentPaddingAddition && o.Timings()[1] == o.rekeyAfterTime && o.Timings()[2] == o.rekeyTimeout;
    assert o.Timings()[3] == o.rejectAfterTime && o.Timings()[4] == o.keepaliveTimeout && o.Timings()[5] == o.maxHandshakeAttempts;
  }

  lemma SwitchReadsBack(on: bool)
    ensures Switch(if on then "on" else "") == Some(on) && Trimmed("on") && OneLine("on")
  {
    var l := ToLower("on");
    assert |l| == 2 && l[0] == 'o' && l[1] == 'n';
    assert l == "on";
  }

  lemma SwitchesRecover(m: Section, c: Server, p: Peer)
    requires c.obfuscate && Holds(m, c, p, InterfaceKeys(c))
    ensures Switch(Get(m, RandomTrailers)) == Some(c.obf.randomTrailers)
    ensures Switch(Get(m, DisableCookies)) == Some(c.obf.disableCookies)
  {
    hide Get, Switch, Holds, Key.Name, InterfaceKeys, Trimmed, OneLine;
    ObfKeysArePresent(c, RandomTrailers);
    ObfKeysArePresent(c, DisableCookies);
    SwitchReadsBack(true);
    SwitchReadsBack(false);
    ValueComesBack(m, c, p, InterfaceKeys(c), RandomTrailers);
    ValueComesBack(m, c, p, InterfaceKeys(c), DisableCookies);
  }

  /** The section gives back the obfuscation settings it was written from. */
  lemma ObfRecovers(m: Section, c: Server, p: Peer, env: Env)
    requires c.obfuscate && Holds(m, c, p, InterfaceKeys(c)) && Exportable(c.obf, env)
    ensures ImportedObf(m, c.obf.randomTrailers, c.obf.disableCookies) == c.obf
    ensures Switch(Get(m, RandomTrailers)) == Some(c.obf.randomTrailers)
    ensures Switch(Get(m, DisableCookies)) == Some(c.obf.disableCookies)
    ensures HasObfuscation(m)
  {
    ExportableFields(c.obf, env);
    hide Get, Atoi, Switch, Holds, InterfaceKeys, Normalized, GoodHeader, ValidHeader, Trimmed, Overlap, NumericRange, HasObfuscation;
    NumbersRecover(m, c, p);
    HeadersRecover(m, c, p);
    PacketsRecover(m, c, p);
    MorePacketsRecover(m, c, p);
    TimingsRecover(m, c, p);
    MoreTimingsRecover(m, c, p);
    SwitchesRecover(m, c, p);
    JcIsWritten(m, c, p);
  }

  lemma JcIsWritten(m: Section, c: Server, p: Peer)
    requires c.obfuscate && Holds(m, c, p, InterfaceKeys(c))
    ensures HasObfuscation(m)
  {
    hide Get, Holds, InterfaceKeys, Itoa;
    ObfKeysArePresent(c, Jc);
    AtoiOfItoa(c.obf.jc);
    ValueComesBack(m, c, p, InterfaceKeys(c), Jc);
    assert Get(m, OBF_KEYS[0]) != "";
  }

  // ---------- the text reads back ----------

  /** Every value that is written is one trimmed line that the scanner accepts. */
  predicate PlainValues(c: Server, p: Peer, keys: seq<Key>) {
    forall i :: 0 <= i < |keys| ==> Value(c, p, keys[i]).Some? ==> PlainValue(keys[i], Value(c, p, keys[i]).value)
  }

  predicate PlainValue(k: Key, v: string) {
    Trimmed(v) && OneLine(v) && |KeyLine(k, v)| < MAX_LINE
  }

  predicate PlainLine(line: string) {
    OneLine(line) && |line| < MAX_LINE
  }

  lemma KeyLineIsPlain(k: Key, v: string)
    requires PlainValue(k, v)
    ensures PlainLine(KeyLine(k, v)) && KeyLine(k, v) != ""
    ensures v != "" ==> !IsSpace(KeyLine(k, v)[|KeyLine(k, v)| - 1])
  {
    hide Key.Name, PlainName;
    NamesArePlain(k);
    PlainNamesAreTrimmed(k.Name());
    var name, line := k.Name(), KeyLine(k, v);
    assert forall i :: 0 <= i < |line| ==>
      line[i] == if i < |name| then name[i] else if i < |name| + 3 then " = "[i - |name|] else v[i - |name| - 3];
  }

  lemma {:induction false} KeyLinesArePlain(c: Server, p: Peer, keys: seq<Key>)
    requires PlainValues(c, p, keys)
    ensures forall i :: 0 <= i < |KeyLines(c, p, keys)| ==> PlainLine(KeyLines(c, p, keys)[i])
  {
    hide Value, KeyLine, PlainLine, PlainValue;
    if keys != [] {
      var front, k := keys[..|keys| - 1], keys[|keys| - 1];
      KeyLinesArePlain(c, p, front);
      if Value(c, p, k).Some? {
        KeyLineIsPlain(k, Value(c, p, k).value);
      }
    }
  }

  lemma {:induction false} RenderEnds(lines: seq<string>)
    requires lines != [] && lines[|lines| - 1] != ""
    ensures var r := Render(lines);
            && |r| >= 2 && r[|r| - 1] == '\n'
            && r[|r| - 2] == lines[|lines| - 1][|lines[|lines| - 1]| - 1]
            && (lines[0] != "" ==> r[0] == lines[0][0])
  {
    RenderFirst(lines);
    if |lines| == 1 {
      assert Render(lines[1..]) == "";
    } else {
      RenderEnds(lines[1..]);
      hide Render;
      var r, rest := Render(lines), Render(lines[1..]);
      assert r[|r| - 1] == rest[|rest| - 1] && r[|r| - 2] == rest[|rest| - 2];
    }
  }

  /** Trimming the text takes away its last line end and nothing else. */
  lemma TrimRendered(lines: seq<string>)
    requires lines != [] && lines[0] != "" && !IsSpace(lines[0][0])
    requires var last := lines[|lines| - 1]; last != "" && !IsSpace(last[|last| - 1])
    requires forall i :: 0 <= i < |lines| ==> OneLine(lines[i])
    ensures TrimSpace(Render(lines)) != "" && Lines(TrimSpace(Render(lines))) == lines
    ensures Render(lines) == TrimSpace(Render(lines)) + "\n"
  {
    hide Render, Lines, OneLine, TrimLeft;
    RenderEnds(lines);
    LastLineEndDoesNotMatter(lines);
    var r := Render(lines);
    var t := r[..|r| - 1];
    TrimLeftOfTrimmed(r);
    assert t[|t| - 1] == r[|r| - 2];
    TrimRightOfLineEnd(r);
  }

  lemma TrimLeftOfTrimmed(s: string)
    requires s != "" && !IsSpace(s[0])
    ensures TrimLeft(s) == s
  {
  }

  lemma TrimRightOfLineEnd(s: string)
    requires |s| >= 2 && s[|s| - 1] == '\n' && !IsSpace(s[|s| - 2])
    ensures TrimRight(s) == s[..|s| - 1]
  {
  }

  lemma KeepaliveIsLast(c: Server, p: Peer)
    ensures var lines, v := KeyLines(c, p, PEER_KEYS), PeerKeepaliveValue(c, p);
            lines != [] && lines[|lines| - 1] == KeyLine(PersistentKeepalive, v)
  {
    KeepaliveIsWritten(c, p);
    hide PeerKeepaliveValue, KeyLine, KeyLines, Value;
    var front: seq<Key> := [PublicKey, PresharedKey, Endpoint, AllowedIPs];
    assert PEER_KEYS == front + [PersistentKeepalive];
    KeyLinesSnoc(c, p, front, PersistentKeepalive);
  }

  lemma KeepaliveIsNotBlank(c: Server, p: Peer)
    ensures PeerKeepaliveValue(c, p) != ""
  {
    hide TrimSpace, NumericRange, Decimal, Itoa;
    BlankIsTrimmed();
    TrimSpaceTrims(p.keepaliveRange);
  }

  lemma ConfTextReads(c: Server, p: Peer)
    requires PlainValues(c, p, InterfaceKeys(c)) && PlainValues(c, p, PEER_KEYS)
    ensures var lines := ConfLines(c, p);
            && TrimSpace(Render(lines)) != "" && Lines(TrimSpace(Render(lines))) == lines && Scannable(lines)
            && Render(lines) == TrimSpace(Render(lines)) + "\n"
  {
    hide Render, Lines, KeyLines, InterfaceKeys, TrimSpace, KeyLine, PlainValue, Value, PeerKeepaliveValue;
    var lines := ConfLines(c, p);
    var interface, peer := KeyLines(c, p, InterfaceKeys(c)), KeyLines(c, p, PEER_KEYS);
    KeyLinesArePlain(c, p, InterfaceKeys(c));
    KeyLinesArePlain(c, p, PEER_KEYS);
    KeepaliveIsLast(c, p);
    KeepaliveIsNotBlank(c, p);
    assert PEER_KEYS[4] == PersistentKeepalive;
    KeepaliveIsWritten(c, p);
    KeyLineIsPlain(PersistentKeepalive, PeerKeepaliveValue(c, p));
    assert lines[|lines| - 1] == peer[|peer| - 1];
    FixedLinesArePlain();
    assert forall i :: 0 <= i < |lines| ==> PlainLine(lines[i]);
    TrimRendered(lines);
  }

  lemma KeepaliveIsWritten(c: Server, p: Peer)
    ensures Value(c, p, PersistentKeepalive) == Some(PeerKeepaliveValue(c, p))
  {
  }

  lemma FixedLinesArePlain()
    ensures PlainLine("[Interface]") && PlainLine("") && PlainLine("[Peer]")
  {
  }

  // ---------- keepalive ----------

  /** A valid keepalive is exported in normal form. */
  lemma KeepaliveIsNormal(keepalive: int, keepaliveRange: string)
    requires NumericRange(KeepaliveValue(keepalive, keepaliveRange), 16).Some?
    ensures Normal(KeepaliveValue(keepalive, keepaliveRange), 16)
  {
    hide TrimSpace, NumericRange, WireRange, Decimal, Normal;
    if TrimSpace(keepaliveRange) != "" {
      WireRangeIsNormal(TrimSpace(keepaliveRange), 16);
    } else if keepalive < 0 {
      DecimalIsDigits(-keepalive);
      NegativeIsNoRange(Decimal(-keepalive));
    } else {
      TwentyFive();
      DecimalIsNormal(if keepalive > 0 then keepalive else 25, 16);
    }
  }

  lemma TwentyFive()
    ensures Decimal(25) == "25" && Decimal(0) == "0"
  {
    assert Decimal(2) == "2";
  }

  /** The keepalive an import makes of a value. */
  function ImportedKeepalive(v: string): int {
    if Atoi(v) == 0 then 25 else Atoi(v)
  }

  function ImportedRange(v: string): string {
    if '-' in v || v == "0" then v else ""
  }

  /** An imported keepalive means what the exported one meant. */
  lemma KeepaliveComesBack(v: string)
    requires Normal(v, 16)
    ensures KeepaliveValue(ImportedKeepalive(v), ImportedRange(v)) == v
  {
    hide TrimSpace, NumericRange, Decimal, Atoi;
    BlankIsTrimmed();
    if '-' in v || v == "0" {
      assert v != "";
    } else {
      NormalWithoutDash(v, 16);
      var n := NumericRange(v, 16).value.low;
      TwentyFive();
      AtoiOfItoa(n);
    }
  }

  // ---------- the round trip ----------

  /** A configuration whose written values are plain lines, with keys, endpoint and keepalive in order. */
  predicate Ready(c: Server, p: Peer, env: Env) {
    && c.obfuscate && Exportable(c.obf, env)
    && PlainValues(c, p, InterfaceKeys(c)) && PlainValues(c, p, PEER_KEYS)
    && p.privateKey != "" && env.publicOf(p.privateKey).Some?
    && c.publicKey != "" && c.endpoint != "" && env.hostPort(c.endpoint)
    && NumericRange(PeerKeepaliveValue(c, p), 16).Some?
  }

  /** What the import of an exported configuration has to give. */
  predicate SameConnection(c: Server, p: Peer, env: Env, r: Imported) {
    && r.obf == c.obf && r.obfuscated
    && r.privateKey == p.privateKey && Some(r.clientKey) == env.publicOf(p.privateKey) && r.serverKey == c.publicKey
    && r.psk == TrimSpace(p.psk) && r.endpoint == c.endpoint && r.address == p.address
    && r.allowedIPs == (if TrimSpace(p.allowedIPs) == "" then EVERYWHERE else TrimSpace(p.allowedIPs))
    && KeepaliveValue(r.keepalive, r.keepaliveRange) == PeerKeepaliveValue(c, p)
    && r.dns == TrimSpace(c.dns) && r.mtu == (if c.mtu > 0 then c.mtu else 0)
  }

  lemma PlainKeyComesBack(m: Section, c: Server, p: Peer, keys: seq<Key>, i: nat)
    requires Holds(m, c, p, keys) && i < |keys| && PlainValues(c, p, keys)
    ensures Get(m, keys[i]) == if Value(c, p, keys[i]).Some? then Value(c, p, keys[i]).value else ""
  {
    hide Get, Holds, Value;
    ValueComesBack(m, c, p, keys, keys[i]);
  }

  lemma InterfaceKeysStart(c: Server)
    ensures var keys := InterfaceKeys(c);
            |keys| >= 4 && keys[0] == PrivateKey && keys[1] == Address && keys[2] == DNS && keys[3] == MTU
  {
  }

  /** The other settings of the interface section. */
  lemma IdentityRecovers(m: Section, c: Server, p: Peer)
    requires Holds(m, c, p, InterfaceKeys(c)) && PlainValues(c, p, InterfaceKeys(c))
    ensures Get(m, PrivateKey) == p.privateKey && Get(m, Address) == p.address
    ensures Get(m, DNS) == TrimSpace(c.dns)
    ensures (if Atoi(Get(m, MTU)) > 0 then Atoi(Get(m, MTU)) else 0) == if c.mtu > 0 then c.mtu else 0
  {
    hide Get, Holds, InterfaceKeys, TrimSpace, Atoi, Itoa;
    InterfaceKeysStart(c);
    var keys := InterfaceKeys(c);
    PlainKeyComesBack(m, c, p, keys, 0);
    PlainKeyComesBack(m, c, p, keys, 1);
    PlainKeyComesBack(m, c, p, keys, 2);
    PlainKeyComesBack(m, c, p, keys, 3);
    AtoiOfItoa(c.mtu);
    AtoiOfBlank();
    if TrimSpace(c.dns) != "" {
      TrimOfTrimmed(c.dns);
    }
  }

  lemma PeerValues(c: Server, p: Peer)
    ensures Value(c, p, PublicKey) == Some(c.publicKey) && Value(c, p, Endpoint) == Some(c.endpoint)
    ensures Value(c, p, PresharedKey) == if TrimSpace(p.psk) != "" then Some(p.psk) else None
    ensures Value(c, p, AllowedIPs) == Some(if TrimSpace(p.allowedIPs) == "" then EVERYWHERE else TrimSpace(p.allowedIPs))
    ensures Value(c, p, PersistentKeepalive) == Some(PeerKeepaliveValue(c, p))
  {
    hide TrimSpace, PeerKeepaliveValue;
  }

  lemma PeerRecovers(m: Section, c: Server, p: Peer)
    requires Holds(m, c, p, PEER_KEYS) && PlainValues(c, p, PEER_KEYS)
    ensures Get(m, PublicKey) == c.publicKey && Get(m, Endpoint) == c.endpoint
    ensures Get(m, PresharedKey) == TrimSpace(p.psk)
    ensures Get(m, AllowedIPs) == if TrimSpace(p.allowedIPs) == "" then EVERYWHERE else TrimSpace(p.allowedIPs)
    ensures Get(m, PersistentKeepalive) == PeerKeepaliveValue(c, p)
  {
    hide Get, Holds, TrimSpace, PeerKeepaliveValue, Value, KeyLine;
    PeerValues(c, p);
    PlainKeyComesBack(m, c, p, PEER_KEYS, 0);
    PlainKeyComesBack(m, c, p, PEER_KEYS, 1);
    PlainKeyComesBack(m, c, p, PEER_KEYS, 2);
    PlainKeyComesBack(m, c, p, PEER_KEYS, 3);
    PlainKeyComesBack(m, c, p, PEER_KEYS, 4);
    if TrimSpace(p.psk) != "" {
      assert PlainValue(PEER_KEYS[1], p.psk);
      TrimOfTrimmed(p.psk);
    }
  }

  lemma PlainValuesAreTrimmed(c: Server, p: Peer, keys: seq<Key>)
    requires PlainValues(c, p, keys)
    ensures TrimmedValues(c, p, keys)
  {
    hide Value, KeyLine;
  }

  lemma SectionsAreNotEmpty(s: Sections, c: Server, p: Peer)
    requires Holds(s.iface, c, p, InterfaceKeys(c)) && Holds(s.peer, c, p, PEER_KEYS)
    ensures s.iface != map[] && s.peer != map[]
  {
    hide InterfaceKeys;
    InterfaceKeysStart(c);
    assert PrivateKey in InterfaceKeys(c) && PublicKey in PEER_KEYS;
    assert PrivateKey.Name() in s.iface && PublicKey.Name() in s.peer;
  }

  lemma KeepaliveOfPeerIsNormal(c: Server, p: Peer)
    requires NumericRange(PeerKeepaliveValue(c, p), 16).Some?
    ensures Normal(PeerKeepaliveValue(c, p), 16)
  {
    hide NumericRange, Normal, KeepaliveValue;
    var v := KeepaliveValue(p.keepalive, p.keepaliveRange);
    if !c.obfuscate && '-' in v {
      KeepaliveIsNormal(p.keepalive, "");
    } else {
      KeepaliveIsNormal(p.keepalive, p.keepaliveRange);
    }
  }

  lemma SectionsImport(s: Sections, c: Server, p: Peer, env: Env)
    requires Ready(c, p, env)
    requires Holds(s.iface, c, p, InterfaceKeys(c)) && Holds(s.peer, c, p, PEER_KEYS)
    ensures var r := ImportSections(s, env);
            r.Ok? && SameConnection(c, p, env, r.value)
  {
    hide Holds, InterfaceKeys, TrimSpace, PeerKeepaliveValue, Get, Atoi, Switch, HasObfuscation, ImportedObf, Normalized, Valid,
         NumericRange, KeepaliveValue, Normal, PlainValues, Value, Obf.AllTrimmed;
    IdentityRecovers(s.iface, c, p);
    PeerRecovers(s.peer, c, p);
    ObfRecovers(s.iface, c, p, env);
    KeepaliveOfPeerIsNormal(c, p);
    KeepaliveComesBack(PeerKeepaliveValue(c, p));
  }

  /**
    Export then import is the identity on what matters: obfuscation settings,
    keys, endpoint, address, allowed IPs and the effective keepalive. The one
    text that is not read as a configuration is one with a vpn:// word in it.
   */
  lemma ExportThenImport(c: Server, p: Peer, env: Env)
    requires Ready(c, p, env)
    ensures var text := Render(ConfLines(c, p));
            !HasLink(TrimSpace(text)) ==>
              ImportConf(text, env).Ok? && SameConnection(c, p, env, ImportConf(text, env).value)
    ensures var text := Render(ConfLines(c, p));
            HasLink(TrimSpace(text)) && env.unpack(TrimSpace(text)).None? ==> ImportConf(text, env) == Err(BadLink)
  {
    hide Render, ConfLines, TrimSpace, Lines, ParseLines, Scannable, ImportSections, SameConnection, InterfaceKeys, PlainValues, HasLink;
    ConfTextReads(c, p);
    PlainValuesAreTrimmed(c, p, InterfaceKeys(c));
    PlainValuesAreTrimmed(c, p, PEER_KEYS);
    ConfLinesParse(c, p);
    var s := ParseLines(NOTHING, ConfLines(c, p));
    SectionsAreNotEmpty(s, c, p);
    SectionsImport(s, c, p, env);
  }
}
