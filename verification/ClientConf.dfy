/** The client configuration as text (ClientConf and obfLines in conf.go, KeepaliveValue in awg31.go). */
module ClientConf {
  import opened Wrappers
  import opened Text
  import opened TextLines
  import opened Ranges
  import opened Obfuscation

  datatype Peer = Peer(privateKey: string, psk: string, address: string, allowedIPs: string, keepalive: int, keepaliveRange: string)

  datatype Server = Server(publicKey: string, endpoint: string, dns: string, mtu: int, obfuscate: bool, obf: Obf)

  const EVERYWHERE := "0.0.0.0/0, ::/0"

  function Itoa(n: int): (r: string)
    ensures r != ""
  {
    if n < 0 then "-" + Decimal(-n) else Decimal(n)
  }

  function KeepaliveValue(keepalive: int, keepaliveRange: string): string {
    if TrimSpace(keepaliveRange) != "" then WireRange(TrimSpace(keepaliveRange), 16)
    else if keepalive != 0 then Itoa(keepalive)
    else "25"
  }

  /** Without obfuscation a range falls back to the plain number. */
  function PeerKeepaliveValue(c: Server, p: Peer): string {
    var v := KeepaliveValue(p.keepalive, p.keepaliveRange);
    if !c.obfuscate && '-' in v then KeepaliveValue(p.keepalive, "") else v
  }

  // ---------- the keys ----------

  datatype Key =
    | PrivateKey | Address | DNS | MTU
    | Jc | Jmin | Jmax | S1 | S2 | S3 | S4 | H1 | H2 | H3 | H4 | I1 | I2 | I3 | I4 | I5
    | HeaderProtectionKey
    | ContentPaddingAddition | RekeyAfterTime | RekeyTimeout | RejectAfterTime | KeepaliveTimeout | MaxHandshakeAttempts
    | RandomTrailers | DisableCookies
    | PublicKey | PresharedKey | Endpoint | AllowedIPs | PersistentKeepalive
  {
    function Name(): string {
      match this
      case PrivateKey => "PrivateKey"
      case Address => "Address"
      case DNS => "DNS"
      case MTU => "MTU"
      case Jc => "Jc"
      case Jmin => "Jmin"
      case Jmax => "Jmax"
      case S1 => "S1"
      case S2 => "S2"
      case S3 => "S3"
      case S4 => "S4"
      case H1 => "H1"
      case H2 => "H2"
      case H3 => "H3"
      case H4 => "H4"
      case I1 => "I1"
      case I2 => "I2"
      case I3 => "I3"
      case I4 => "I4"
      case I5 => "I5"
      case HeaderProtectionKey => "HeaderProtectionKey"
      case ContentPaddingAddition => "ContentPaddingAddition"
      case RekeyAfterTime => "RekeyAfterTime"
      case RekeyTimeout => "RekeyTimeout"
      case RejectAfterTime => "RejectAfterTime"
      case KeepaliveTimeout => "KeepaliveTimeout"
      case MaxHandshakeAttempts => "MaxHandshakeAttempts"
      case RandomTrailers => "RandomTrailers"
      case DisableCookies => "DisableCookies"
      case PublicKey => "PublicKey"
      case PresharedKey => "PresharedKey"
      case Endpoint => "Endpoint"
      case AllowedIPs => "AllowedIPs"
      case PersistentKeepalive => "PersistentKeepalive"
    }
  }

  const OBF_KEYS: seq<Key> := [
    Jc, Jmin, Jmax, S1, S2, S3, S4, H1, H2, H3, H4, I1, I2, I3, I4, I5, HeaderProtectionKey,
    ContentPaddingAddition, RekeyAfterTime, RekeyTimeout, RejectAfterTime, KeepaliveTimeout, MaxHandshakeAttempts,
    RandomTrailers, DisableCookies]

  const PEER_KEYS: seq<Key> := [PublicKey, PresharedKey, Endpoint, AllowedIPs, PersistentKeepalive]

  function InterfaceKeys(c: Server): seq<Key> {
    [PrivateKey, Address, DNS, MTU] + (if c.obfuscate then OBF_KEYS else [])
  }

  // ---------- the values ----------

  /** A value that is left out when blank (writeStrIf). */
  function IfText(v: string): Option<string> {
    if TrimSpace(v) == "" then None else Some(TrimSpace(v))
  }

  function HeaderText(h: string, default: string): string {
    if TrimSpace(h) == "" then default else TrimSpace(h)
  }

  function ObfValue(o: Obf, k: Key): Option<string> {
    match k
    case Jc => Some(Itoa(o.jc))
    case Jmin => Some(Itoa(o.jmin))
    case Jmax => Some(Itoa(o.jmax))
    case S1 => Some(Itoa(o.s1))
    case S2 => Some(Itoa(o.s2))
    case S3 => if o.s3 > 0 then Some(Itoa(o.s3)) else None
    case S4 => if o.s4 > 0 then Some(Itoa(o.s4)) else None
    case H1 => Some(HeaderText(o.h1, "1"))
    case H2 => Some(HeaderText(o.h2, "2"))
    case H3 => Some(HeaderText(o.h3, "3"))
    case H4 => Some(HeaderText(o.h4, "4"))
    case I1 => IfText(o.i1)
    case I2 => IfText(o.i2)
    case I3 => IfText(o.i3)
    case I4 => IfText(o.i4)
    case I5 => IfText(o.i5)
    case HeaderProtectionKey => IfText(o.headerProtectionKey)
    case ContentPaddingAddition => IfText(o.contentPaddingAddition)
    case RekeyAfterTime => IfText(o.rekeyAfterTime)
    case RekeyTimeout => IfText(o.rekeyTimeout)
    case RejectAfterTime => IfText(o.rejectAfterTime)
    case KeepaliveTimeout => IfText(o.keepaliveTimeout)
    case MaxHandshakeAttempts => IfText(o.maxHandshakeAttempts)
    case RandomTrailers => if o.randomTrailers then Some("on") else None
    case DisableCookies => if o.disableCookies then Some("on") else None
    case _ => None
  }

  /** The value written for a key, or None when the line is left out. */
  function Value(c: Server, p: Peer, k: Key): Option<string> {
    match k
    case PrivateKey => Some(p.privateKey)
    case Address => Some(p.address)
    case DNS => if TrimSpace(c.dns) != "" then Some(c.dns) else None
    case MTU => if c.mtu > 0 then Some(Itoa(c.mtu)) else None
    case PublicKey => Some(c.publicKey)
    case PresharedKey => if TrimSpace(p.psk) != "" then Some(p.psk) else None
    case Endpoint => Some(c.endpoint)
    case AllowedIPs => Some(if TrimSpace(p.allowedIPs) == "" then EVERYWHERE else TrimSpace(p.allowedIPs))
    case PersistentKeepalive => Some(PeerKeepaliveValue(c, p))
    case _ => ObfValue(c.obf, k)
  }

  function KeyLine(k: Key, v: string): string {
    k.Name() + " = " + v
  }

  /** One line for each key that has a value. */
  function KeyLines(c: Server, p: Peer, keys: seq<Key>): seq<string> {
    if keys == [] then []
    else
      var k := keys[|keys| - 1];
      var v := Value(c, p, k);
      KeyLines(c, p, keys[..|keys| - 1]) + (if v.Some? then [KeyLine(k, v.value)] else [])
  }

  function ConfLines(c: Server, p: Peer): seq<string> {
    ["[Interface]"] + KeyLines(c, p, InterfaceKeys(c)) + ["", "[Peer]"] + KeyLines(c, p, PEER_KEYS)
  }

  lemma KeyLinesSnoc(c: Server, p: Peer, keys: seq<Key>, k: Key)
    ensures KeyLines(c, p, keys + [k]) ==
            KeyLines(c, p, keys) + (if Value(c, p, k).Some? then [KeyLine(k, Value(c, p, k).value)] else [])
  {
    assert (keys + [k])[..|keys + [k]| - 1] == keys;
  }

  method WriteKeys(text: string, c: Server, p: Peer, keys: seq<Key>, ghost lines: seq<string>) returns (out: string)
    requires text == Render(lines)
    ensures out == Render(lines + KeyLines(c, p, keys))
  {
    hide Value, KeyLine, Render;
    out := text;
    assert lines + [] == lines;
    for i := 0 to |keys|
      invariant out == Render(lines + KeyLines(c, p, keys[..i]))
    {
      assert keys[..i + 1] == keys[..i] + [keys[i]];
      KeyLinesSnoc(c, p, keys[..i], keys[i]);
      var v := Value(c, p, keys[i]);
      if v.Some? {
        ghost var before := lines + KeyLines(c, p, keys[..i]);
        RenderSnoc(before, KeyLine(keys[i], v.value));
        assert lines + KeyLines(c, p, keys[..i + 1]) == before + [KeyLine(keys[i], v.value)];
        out := out + (KeyLine(keys[i], v.value) + "\n");
      } else {
        assert KeyLines(c, p, keys[..i]) + [] == KeyLines(c, p, keys[..i]);
      }
    }
    assert keys[..|keys|] == keys;
  }

  method ClientConf(c: Server, p: Peer) returns (text: string)
    ensures text == Render(ConfLines(c, p))
  {
    hide Value, KeyLines, Render;
    ghost var lines: seq<string> := [];
    ghost var interface, peer := KeyLines(c, p, InterfaceKeys(c)), KeyLines(c, p, PEER_KEYS);
    RenderSnoc([], "[Interface]");
    NothingRendered();
    assert [] + ["[Interface]"] == ["[Interface]"];
    text := "[Interface]" + "\n";
    text := WriteKeys(text, c, p, InterfaceKeys(c), ["[Interface]"]);
    RenderSnoc(["[Interface]"] + interface, "");
    text := text + ("" + "\n");
    RenderSnoc(["[Interface]"] + interface + [""], "[Peer]");
    text := text + ("[Peer]" + "\n");
    text := WriteKeys(text, c, p, PEER_KEYS, ["[Interface]"] + interface + [""] + ["[Peer]"]);
    assert ["[Interface]"] + interface + [""] + ["[Peer]"] + peer == ConfLines(c, p);
  }

  lemma NothingRendered()
    ensures Render([]) == ""
  {
  }

  // ---------- what the lines say ----------

  /** A key that has a value has a line that says it. */
  predicate Says(lines: seq<string>, name: string, v: Option<string>) {
    v.Some? ==> name + " = " + v.value in lines
  }

  lemma {:induction false} KeyIsSaid(c: Server, p: Peer, keys: seq<Key>, i: nat)
    requires i < |keys|
    ensures Says(KeyLines(c, p, keys), keys[i].Name(), Value(c, p, keys[i]))
    decreases |keys|
  {
    hide Value, Key.Name;
    var front, k := keys[..|keys| - 1], keys[|keys| - 1];
    assert keys == front + [k];
    KeyLinesSnoc(c, p, front, k);
    if i < |front| {
      KeyIsSaid(c, p, front, i);
    }
  }

  /** The keys of the obfuscation settings. */
  predicate IsObfKey(k: Key) {
    k !in [PrivateKey, Address, DNS, MTU] && k !in PEER_KEYS
  }

  lemma ObfKeyHasAPlace(k: Key)
    requires IsObfKey(k)
    ensures k in OBF_KEYS
  {
  }

  lemma ObfKeyIsSaid(c: Server, p: Peer, k: Key)
    requires c.obfuscate && IsObfKey(k)
    ensures Says(ConfLines(c, p), k.Name(), ObfValue(c.obf, k))
  {
    hide ObfValue, Key.Name, KeyLines;
    ObfKeyHasAPlace(k);
    var i :| 0 <= i < |OBF_KEYS| && OBF_KEYS[i] == k;
    KeyIsSaid(c, p, InterfaceKeys(c), i + 4);
    assert InterfaceKeys(c)[i + 4] == k;
  }

  lemma CountsAreSaid(c: Server, p: Peer)
    requires c.obfuscate
    ensures var lines, o := ConfLines(c, p), c.obf;
            && Says(lines, "Jc", Some(Itoa(o.jc)))
            && Says(lines, "Jmin", Some(Itoa(o.jmin)))
            && Says(lines, "Jmax", Some(Itoa(o.jmax)))
            && Says(lines, "S1", Some(Itoa(o.s1)))
            && Says(lines, "S2", Some(Itoa(o.s2)))
            && Says(lines, "S3", (if o.s3 > 0 then Some(Itoa(o.s3)) else None))
            && Says(lines, "S4", (if o.s4 > 0 then Some(Itoa(o.s4)) else None))
  {
    hide ConfLines, Itoa, TrimSpace, Says;
    ObfKeyIsSaid(c, p, Jc);
    ObfKeyIsSaid(c, p, Jmin);
    ObfKeyIsSaid(c, p, Jmax);
    ObfKeyIsSaid(c, p, S1);
    ObfKeyIsSaid(c, p, S2);
    ObfKeyIsSaid(c, p, S3);
    ObfKeyIsSaid(c, p, S4);
  }

  lemma HeadersAreSaid(c: Server, p: Peer)
    requires c.obfuscate
    ensures var lines, o := ConfLines(c, p), c.obf;
            && Says(lines, "H1", Some(if TrimSpace(o.h1) == "" then "1" else TrimSpace(o.h1)))
            && Says(lines, "H2", Some(if TrimSpace(o.h2) == "" then "2" else TrimSpace(o.h2)))
            && Says(lines, "H3", Some(if TrimSpace(o.h3) == "" then "3" else TrimSpace(o.h3)))
            && Says(lines, "H4", Some(if TrimSpace(o.h4) == "" then "4" else TrimSpace(o.h4)))
  {
    hide ConfLines, Itoa, TrimSpace, Says;
    ObfKeyIsSaid(c, p, H1);
    ObfKeyIsSaid(c, p, H2);
    ObfKeyIsSaid(c, p, H3);
    ObfKeyIsSaid(c, p, H4);
  }

  lemma PacketsAreSaid(c: Server, p: Peer)
    requires c.obfuscate
    ensures var lines, o := ConfLines(c, p), c.obf;
            && Says(lines, "I1", (if TrimSpace(o.i1) == "" then None else Some(TrimSpace(o.i1))))
            && Says(lines, "I2", (if TrimSpace(o.i2) == "" then None else Some(TrimSpace(o.i2))))
            && Says(lines, "I3", (if TrimSpace(o.i3) == "" then None else Some(TrimSpace(o.i3))))
            && Says(lines, "I4", (if TrimSpace(o.i4) == "" then None else Some(TrimSpace(o.i4))))
            && Says(lines, "I5", (if TrimSpace(o.i5) == "" then None else Some(TrimSpace(o.i5))))
            && Says(lines, "HeaderProtectionKey", (if TrimSpace(o.headerProtectionKey) == "" then None else Some(TrimSpace(o.headerProtectionKey))))
  {
    hide ConfLines, Itoa, TrimSpace, Says;
    ObfKeyIsSaid(c, p, I1);
    ObfKeyIsSaid(c, p, I2);
    ObfKeyIsSaid(c, p, I3);
    ObfKeyIsSaid(c, p, I4);
    ObfKeyIsSaid(c, p, I5);
    ObfKeyIsSaid(c, p, HeaderProtectionKey);
  }

  lemma TimesAreSaid(c: Server, p: Peer)
    requires c.obfuscate
    ensures var lines, o := ConfLines(c, p), c.obf;
            && Says(lines, "ContentPaddingAddition", (if TrimSpace(o.contentPaddingAddition) == "" then None else Some(TrimSpace(o.contentPaddingAddition))))
            && Says(lines, "RekeyAfterTime", (if TrimSpace(o.rekeyAfterTime) == "" then None else Some(TrimSpace(o.rekeyAfterTime))))
            && Says(lines, "RekeyTimeout", (if TrimSpace(o.rekeyTimeout) == "" then None else Some(TrimSpace(o.rekeyTimeout))))
            && Says(lines, "RejectAfterTime", (if TrimSpace(o.rejectAfterTime) == "" then None else Some(TrimSpace(o.rejectAfterTime))))
            && Says(lines, "KeepaliveTimeout", (if TrimSpace(o.keepaliveTimeout) == "" then None else Some(TrimSpace(o.keepaliveTimeout))))
            && Says(lines, "MaxHandshakeAttempts", (if TrimSpace(o.maxHandshakeAttempts) == "" then None else Some(TrimSpace(o.maxHandshakeAttempts))))
  {
    hide ConfLines, Itoa, TrimSpace, Says;
    ObfKeyIsSaid(c, p, ContentPaddingAddition);
    ObfKeyIsSaid(c, p, RekeyAfterTime);
    ObfKeyIsSaid(c, p, RekeyTimeout);
    ObfKeyIsSaid(c, p, RejectAfterTime);
    ObfKeyIsSaid(c, p, KeepaliveTimeout);
    ObfKeyIsSaid(c, p, MaxHandshakeAttempts);
  }

  lemma SwitchesAreSaid(c: Server, p: Peer)
    requires c.obfuscate
    ensures var lines, o := ConfLines(c, p), c.obf;
            && Says(lines, "RandomTrailers", (if o.randomTrailers then Some("on") else None))
            && Says(lines, "DisableCookies", (if o.disableCookies then Some("on") else None))
  {
    hide ConfLines, Itoa, TrimSpace, Says;
    ObfKeyIsSaid(c, p, RandomTrailers);
    ObfKeyIsSaid(c, p, DisableCookies);
  }

  /** The identity of the connection, under the headings of its two sections. */
  lemma IdentityIsSaid(c: Server, p: Peer)
    ensures var lines := ConfLines(c, p);
            && lines[0] == "[Interface]" && "[Peer]" in lines
            && Says(lines, "PrivateKey", Some(p.privateKey)) && Says(lines, "Address", Some(p.address))
            && Says(lines, "DNS", if TrimSpace(c.dns) == "" then None else Some(c.dns))
            && Says(lines, "MTU", if c.mtu > 0 then Some(Itoa(c.mtu)) else None)
            && Says(lines, "PublicKey", Some(c.publicKey)) && Says(lines, "Endpoint", Some(c.endpoint))
            && Says(lines, "PresharedKey", if TrimSpace(p.psk) == "" then None else Some(p.psk))
            && Says(lines, "AllowedIPs", Some(if TrimSpace(p.allowedIPs) == "" then "0.0.0.0/0, ::/0" else TrimSpace(p.allowedIPs)))
            && Says(lines, "PersistentKeepalive", Some(PeerKeepaliveValue(c, p)))
  {
    hide KeyLines, Itoa, TrimSpace, PeerKeepaliveValue;
    InterfaceIsSaid(c, p);
    PeerIsSaid(c, p);
    PeerRoutingIsSaid(c, p);
    var interface, peer := KeyLines(c, p, InterfaceKeys(c)), KeyLines(c, p, PEER_KEYS);
    assert ConfLines(c, p)[0] == "[Interface]" && ConfLines(c, p)[|interface| + 2] == "[Peer]";
  }

  lemma InterfaceIsSaid(c: Server, p: Peer)
    ensures var lines := KeyLines(c, p, InterfaceKeys(c));
            && Says(lines, "PrivateKey", Some(p.privateKey)) && Says(lines, "Address", Some(p.address))
            && Says(lines, "DNS", if TrimSpace(c.dns) == "" then None else Some(c.dns))
            && Says(lines, "MTU", if c.mtu > 0 then Some(Itoa(c.mtu)) else None)
  {
    hide KeyLines, Itoa, TrimSpace, Says;
    var keys := InterfaceKeys(c);
    KeyIsSaid(c, p, keys, 0);
    KeyIsSaid(c, p, keys, 1);
    KeyIsSaid(c, p, keys, 2);
    KeyIsSaid(c, p, keys, 3);
  }

  lemma PeerIsSaid(c: Server, p: Peer)
    ensures var lines := KeyLines(c, p, PEER_KEYS);
            && Says(lines, "PublicKey", Some(c.publicKey)) && Says(lines, "Endpoint", Some(c.endpoint))
            && Says(lines, "PresharedKey", if TrimSpace(p.psk) == "" then None else Some(p.psk))
  {
    hide KeyLines, Itoa, TrimSpace, Says, PeerKeepaliveValue;
    PeerKeyIsSaid(c, p, PublicKey);
    PeerKeyIsSaid(c, p, PresharedKey);
    PeerKeyIsSaid(c, p, Endpoint);
  }

  lemma PeerRoutingIsSaid(c: Server, p: Peer)
    ensures var lines := KeyLines(c, p, PEER_KEYS);
            && Says(lines, "AllowedIPs", Some(if TrimSpace(p.allowedIPs) == "" then "0.0.0.0/0, ::/0" else TrimSpace(p.allowedIPs)))
            && Says(lines, "PersistentKeepalive", Some(PeerKeepaliveValue(c, p)))
  {
    hide KeyLines, Itoa, TrimSpace, Says, PeerKeepaliveValue;
    PeerKeyIsSaid(c, p, AllowedIPs);
    PeerKeyIsSaid(c, p, PersistentKeepalive);
  }

  lemma PeerKeyIsSaid(c: Server, p: Peer, k: Key)
    requires k == PublicKey || k == PresharedKey || k == Endpoint || k == AllowedIPs || k == PersistentKeepalive
    ensures Says(KeyLines(c, p, PEER_KEYS), k.Name(), Value(c, p, k))
  {
    hide Value, Key.Name, KeyLines, Says;
    assert PEER_KEYS[0] == PublicKey && PEER_KEYS[1] == PresharedKey && PEER_KEYS[2] == Endpoint;
    assert PEER_KEYS[3] == AllowedIPs && PEER_KEYS[4] == PersistentKeepalive;
    var i :| 0 <= i < |PEER_KEYS| && PEER_KEYS[i] == k;
    KeyIsSaid(c, p, PEER_KEYS, i);
  }

  // ---------- names are told apart ----------

  predicate NameChar(c: char) {
    'a' <= c <= 'z' || 'A' <= c <= 'Z' || '0' <= c <= '9'
  }

  /** Length, first and last character of a key's name. */
  function Mark(k: Key): (nat, char, char) {
    match k
    case PrivateKey => (10, 'P', 'y')
    case Address => (7, 'A', 's')
    case DNS => (3, 'D', 'S')
    case MTU => (3, 'M', 'U')
    case Jc => (2, 'J', 'c')
    case Jmin => (4, 'J', 'n')
    case Jmax => (4, 'J', 'x')
    case S1 => (2, 'S', '1')
    case S2 => (2, 'S', '2')
    case S3 => (2, 'S', '3')
    case S4 => (2, 'S', '4')
    case H1 => (2, 'H', '1')
    case H2 => (2, 'H', '2')
    case H3 => (2, 'H', '3')
    case H4 => (2, 'H', '4')
    case I1 => (2, 'I', '1')
    case I2 => (2, 'I', '2')
    case I3 => (2, 'I', '3')
    case I4 => (2, 'I', '4')
    case I5 => (2, 'I', '5')
    case HeaderProtectionKey => (19, 'H', 'y')
    case ContentPaddingAddition => (22, 'C', 'n')
    case RekeyAfterTime => (14, 'R', 'e')
    case RekeyTimeout => (12, 'R', 't')
    case RejectAfterTime => (15, 'R', 'e')
    case KeepaliveTimeout => (16, 'K', 't')
    case MaxHandshakeAttempts => (20, 'M', 's')
    case RandomTrailers => (14, 'R', 's')
    case DisableCookies => (14, 'D', 's')
    case PublicKey => (9, 'P', 'y')
    case PresharedKey => (12, 'P', 'y')
    case Endpoint => (8, 'E', 't')
    case AllowedIPs => (10, 'A', 's')
    case PersistentKeepalive => (19, 'P', 'e')
  }

  predicate PlainName(s: string) {
    s != "" && forall i :: 0 <= i < |s| ==> NameChar(s[i])
  }

  predicate Marked(k: Key) {
    var s := k.Name();
    s != "" && (|s|, s[0], s[|s| - 1]) == Mark(k)
  }

  lemma ShortNamesAreMarked(k: Key)
    requires Mark(k).0 <= 10
    ensures Marked(k)
  {
  }

  lemma LongNamesAreMarked(k: Key)
    requires 10 < Mark(k).0
    ensures Marked(k)
  {
  }

  lemma NamesAreMarked(k: Key)
    ensures Marked(k)
  {
    hide Key.Name, Mark, Marked;
    if Mark(k).0 <= 10 {
      ShortNamesAreMarked(k);
    } else {
      LongNamesAreMarked(k);
    }
  }

  lemma Names4ArePlain(k: Key)
    requires Mark(k).0 <= 4
    ensures PlainName(k.Name())
  {
  }

  lemma Names9ArePlain(k: Key)
    requires 4 < Mark(k).0 <= 9
    ensures PlainName(k.Name())
  {
  }

  lemma Names10ArePlain(k: Key)
    requires Mark(k).0 == 10
    ensures PlainName(k.Name())
  {
  }

  lemma Names12ArePlain(k: Key)
    requires 10 < Mark(k).0 <= 12
    ensures PlainName(k.Name())
  {
  }

  lemma Names14ArePlain(k: Key)
    requires 12 < Mark(k).0 <= 14
    ensures PlainName(k.Name())
  {
  }

  lemma Names16ArePlain(k: Key)
    requires 14 < Mark(k).0 <= 16
    ensures PlainName(k.Name())
  {
  }

  lemma Names19ArePlain(k: Key)
    requires 16 < Mark(k).0 <= 19
    ensures PlainName(k.Name())
  {
  }

  lemma Names22ArePlain(k: Key)
    requires 19 < Mark(k).0
    ensures PlainName(k.Name())
  {
  }

  lemma NamesArePlain(k: Key)
    ensures PlainName(k.Name())
  {
    hide Key.Name, PlainName, Mark;
    var n := Mark(k).0;
    if n <= 4 {
      Names4ArePlain(k);
    } else if n <= 9 {
      Names9ArePlain(k);
    } else if n == 10 {
      Names10ArePlain(k);
    } else if n <= 12 {
      Names12ArePlain(k);
    } else if n <= 14 {
      Names14ArePlain(k);
    } else if n <= 16 {
      Names16ArePlain(k);
    } else if n <= 19 {
      Names19ArePlain(k);
    } else {
      Names22ArePlain(k);
    }
  }

  lemma ShortMarksDiffer(k: Key, l: Key)
    requires Mark(k).0 <= 4
    ensures Mark(k) == Mark(l) ==> k == l
  {
  }

  lemma LongMarksDiffer(k: Key, l: Key)
    requires 4 < Mark(k).0
    ensures Mark(k) == Mark(l) ==> k == l
  {
  }

  /** No two keys share a name. */
  lemma NamesDiffer(k: Key, l: Key)
    ensures k.Name() == l.Name() ==> k == l
  {
    hide Key.Name, Mark;
    NamesAreMarked(k);
    NamesAreMarked(l);
    if Mark(k).0 <= 4 {
      ShortMarksDiffer(k, l);
    } else {
      LongMarksDiffer(k, l);
    }
  }
}
