/** Reading a client configuration (import.go), and what export followed by import preserves. */
module ConfImport {
  import opened Wrappers
  import opened Text
  import opened TextLines
  import opened Ranges
  import opened Obfuscation
  import opened ClientConf

  /** The scanner gives up on lines of this length. */
  const MAX_LINE: nat := 65536

  datatype ImportError =
    | EmptyText | BadLink | LineTooLong
    | NoInterface | NoPeer | NoPrivateKey | NoPublicKey | NoEndpoint | BadEndpoint | BadPrivateKey
    | BadSwitch | BadKeepalive | BadObfuscation

  /** Checks of other packages, and the unpacking of `vpn://` links. */
  datatype Env = Env(
    hostPort: string -> bool,
    publicOf: string -> Option<string>,
    packet: string -> bool,
    key: string -> bool,
    unpack: string -> Option<string>)

  /** The imported profile; a blank `dns` and a zero `mtu` keep the defaults. */
  datatype Imported = Imported(
    obf: Obf, obfuscated: bool,
    privateKey: string, clientKey: string, serverKey: string, psk: string,
    endpoint: string, address: string, allowedIPs: string,
    keepalive: int, keepaliveRange: string,
    dns: string, mtu: int)

  type Section = map<string, string>

  // ---------- lines ----------

  datatype Pair = Pair(key: string, value: string)

  /** A line cut at its first equals sign. */
  function SplitKV(line: string): Option<Pair> {
    var eq := IndexOf(line, '=');
    if eq == |line| then None else Some(Pair(TrimSpace(line[..eq]), TrimSpace(line[eq + 1..])))
  }

  datatype Sections = Sections(section: string, iface: Section, peer: Section)

  const NOTHING := Sections("", map[], map[])

  function ParseLine(p: Sections, raw: string): Sections {
    var line := TrimSpace(raw);
    if line == "" || line[0] == '#' || line[0] == ';' then p
    else if line[0] == '[' && line[|line| - 1] == ']' then p.(section := ToLower(TrimSpace(line[1..|line| - 1])))
    else
      match SplitKV(line)
      case None => p
      case Some(kv) =>
        if p.section == "interface" then p.(iface := p.iface[kv.key := kv.value])
        else if p.section == "peer" then p.(peer := p.peer[kv.key := kv.value])
        else p
  }

  function ParseLines(p: Sections, lines: seq<string>): Sections {
    if lines == [] then p else ParseLine(ParseLines(p, lines[..|lines| - 1]), lines[|lines| - 1])
  }

  predicate Scannable(lines: seq<string>) {
    forall i :: 0 <= i < |lines| ==> |lines[i]| < MAX_LINE
  }

  function ParseConf(text: string): Result<Sections, ImportError> {
    var lines := Lines(text);
    var p := ParseLines(NOTHING, lines);
    if !Scannable(lines) then Err(LineTooLong)
    else if p.iface == map[] then Err(NoInterface)
    else if p.peer == map[] then Err(NoPeer)
    else Ok(p)
  }

  lemma ParseLinesSnoc(p: Sections, lines: seq<string>, line: string)
    ensures ParseLines(p, lines + [line]) == ParseLine(ParseLines(p, lines), line)
  {
    assert (lines + [line])[..|lines + [line]| - 1] == lines;
  }

  method ParseConfSections(text: string) returns (r: Result<Sections, ImportError>)
    ensures r == ParseConf(text)
  {
    hide TrimSpace, ToLower, SplitKV, Lines, IndexOf;
    var lines := Lines(text);
    var section, iface, peer := "", map[], map[];
    for i := 0 to |lines|
      invariant Sections(section, iface, peer) == ParseLines(NOTHING, lines[..i])
      invariant Scannable(lines[..i])
    {
      assert lines[..i + 1] == lines[..i] + [lines[i]];
      ParseLinesSnoc(NOTHING, lines[..i], lines[i]);
      if |lines[i]| >= MAX_LINE {
        return Err(LineTooLong);
      }
      var line := TrimSpace(lines[i]);
      if line == "" || line[0] == '#' || line[0] == ';' {
        continue;
      }
      if line[0] == '[' && line[|line| - 1] == ']' {
        section := ToLower(TrimSpace(line[1..|line| - 1]));
        continue;
      }
      var kv := SplitKV(line);
      if kv.None? {
        continue;
      }
      if section == "interface" {
        iface := iface[kv.value.key := kv.value.value];
      } else if section == "peer" {
        peer := peer[kv.value.key := kv.value.value];
      }
    }
    assert lines[..|lines|] == lines;
    if |iface| == 0 {
      return Err(NoInterface);
    }
    if |peer| == 0 {
      return Err(NoPeer);
    }
    return Ok(Sections(section, iface, peer));
  }

  // ---------- values ----------

  function Get(m: Section, k: Key): string {
    if k.Name() in m then TrimSpace(m[k.Name()]) else ""
  }

  /** strconv.Atoi with its error ignored. */
  function Atoi(raw: string): int {
    var s := TrimSpace(raw);
    var digits := if s != "" && (s[0] == '+' || s[0] == '-') then s[1..] else s;
    if digits == "" then 0
    else
      match Digits(digits, 10)
      case None => 0
      case Some(n) => if s[0] == '-' then -(n as int) else n
  }

  function Switch(v: string): Option<bool> {
    var s := ToLower(v);
    if v == "" then Some(false)
    else if s == "on" || s == "true" || s == "1" then Some(true)
    else if s == "off" || s == "false" || s == "0" then Some(false)
    else None
  }

  function ImportedObf(iface: Section, trailers: bool, cookies: bool): Obf {
    Obf(Atoi(Get(iface, Jc)), Atoi(Get(iface, Jmin)), Atoi(Get(iface, Jmax)),
        Atoi(Get(iface, S1)), Atoi(Get(iface, S2)), Atoi(Get(iface, S3)), Atoi(Get(iface, S4)),
        Get(iface, H1), Get(iface, H2), Get(iface, H3), Get(iface, H4),
        Get(iface, I1), Get(iface, I2), Get(iface, I3), Get(iface, I4), Get(iface, I5),
        Get(iface, HeaderProtectionKey),
        Get(iface, ContentPaddingAddition), Get(iface, RekeyAfterTime), Get(iface, RekeyTimeout),
        Get(iface, RejectAfterTime), Get(iface, KeepaliveTimeout), Get(iface, MaxHandshakeAttempts),
        trailers, cookies)
  }

  /** Some obfuscation key has a value. */
  predicate HasObfuscation(iface: Section) {
    (exists i :: 0 <= i < |OBF_KEYS| && Get(iface, OBF_KEYS[i]) != "")
    || ("ProtocolVersion" in iface && TrimSpace(iface["ProtocolVersion"]) != "")
  }

  function ImportSections(p: Sections, env: Env): Result<Imported, ImportError> {
    var private, public, endpoint := Get(p.iface, PrivateKey), Get(p.peer, PublicKey), Get(p.peer, Endpoint);
    if private == "" then Err(NoPrivateKey)
    else if public == "" then Err(NoPublicKey)
    else if endpoint == "" then Err(NoEndpoint)
    else if !env.hostPort(endpoint) then Err(BadEndpoint)
    else
      var client := env.publicOf(private);
      var trailers, cookies := Switch(Get(p.iface, RandomTrailers)), Switch(Get(p.iface, DisableCookies));
      var v := Get(p.peer, PersistentKeepalive);
      var ranged := '-' in v;
      if client.None? then Err(BadPrivateKey)
      else if trailers.None? || cookies.None? then Err(BadSwitch)
      else if v != "" && NumericRange(v, 16).None? then Err(BadKeepalive)
      else
        var obf := Normalized(ImportedObf(p.iface, trailers.value, cookies.value));
        var obfuscated := HasObfuscation(p.iface) || ranged;
        if obfuscated && !Valid(obf, env.packet, env.key) then Err(BadObfuscation)
        else
          var allowed := Get(p.peer, AllowedIPs);
          Ok(Imported(obf, obfuscated, private, client.value, public, Get(p.peer, PresharedKey),
                      endpoint, Get(p.iface, Address), if allowed == "" then EVERYWHERE else allowed,
                      if Atoi(v) == 0 then 25 else Atoi(v), if ranged || v == "0" then v else "",
                      Get(p.iface, DNS), if Atoi(Get(p.iface, MTU)) > 0 then Atoi(Get(p.iface, MTU)) else 0))
  }

  // ---------- what is read from where ----------

  /** The trimmed value under this name, or nothing. */
  function Field(m: Section, name: string): string {
    if name in m then TrimSpace(m[name]) else ""
  }

  lemma GetIsField(m: Section, k: Key)
    ensures Get(m, k) == Field(m, k.Name())
  {
  }

  lemma NumbersAreRead(m: Section, trailers: bool, cookies: bool)
    ensures var o := ImportedObf(m, trailers, cookies);
            && o.jc == Atoi(Field(m, "Jc"))
            && o.jmin == Atoi(Field(m, "Jmin"))
            && o.jmax == Atoi(Field(m, "Jmax"))
            && o.s1 == Atoi(Field(m, "S1"))
            && o.s2 == Atoi(Field(m, "S2"))
            && o.s3 == Atoi(Field(m, "S3"))
            && o.s4 == Atoi(Field(m, "S4"))
  {
    hide Atoi, Field, Get;
    GetIsField(m, Jc);
    GetIsField(m, Jmin);
    GetIsField(m, Jmax);
    GetIsField(m, S1);
    GetIsField(m, S2);
    GetIsField(m, S3);
    GetIsField(m, S4);
  }

  lemma HeadersAreRead(m: Section, trailers: bool, cookies: bool)
    ensures var o := ImportedObf(m, trailers, cookies);
            && o.h1 == Field(m, "H1")
            && o.h2 == Field(m, "H2")
            && o.h3 == Field(m, "H3")
            && o.h4 == Field(m, "H4")
  {
    hide Atoi, Field, Get;
    GetIsField(m, H1);
    GetIsField(m, H2);
    GetIsField(m, H3);
    GetIsField(m, H4);
  }

  lemma PacketsAreRead(m: Section, trailers: bool, cookies: bool)
    ensures var o := ImportedObf(m, trailers, cookies);
            && o.i1 == Field(m, "I1")
            && o.i2 == Field(m, "I2")
            && o.i3 == Field(m, "I3")
            && o.i4 == Field(m, "I4")
            && o.i5 == Field(m, "I5")
            && o.headerProtectionKey == Field(m, "HeaderProtectionKey")
  {
    hide Atoi, Field, Get;
    GetIsField(m, I1);
    GetIsField(m, I2);
    GetIsField(m, I3);
    GetIsField(m, I4);
    GetIsField(m, I5);
    GetIsField(m, HeaderProtectionKey);
  }

  lemma TimingsAreRead(m: Section, trailers: bool, cookies: bool)
    ensures var o := ImportedObf(m, trailers, cookies);
            && o.contentPaddingAddition == Field(m, "ContentPaddingAddition")
            && o.rekeyAfterTime == Field(m, "RekeyAfterTime")
            && o.rekeyTimeout == Field(m, "RekeyTimeout")
            && o.rejectAfterTime == Field(m, "RejectAfterTime")
            && o.keepaliveTimeout == Field(m, "KeepaliveTimeout")
            && o.maxHandshakeAttempts == Field(m, "MaxHandshakeAttempts")
            && o.randomTrailers == trailers && o.disableCookies == cookies
  {
    hide Atoi, Field, Get;
    GetIsField(m, ContentPaddingAddition);
    GetIsField(m, RekeyAfterTime);
    GetIsField(m, RekeyTimeout);
    GetIsField(m, RejectAfterTime);
    GetIsField(m, KeepaliveTimeout);
    GetIsField(m, MaxHandshakeAttempts);
  }

  /** What an import needs: keys and endpoint, switches and a keepalive that can be read. */
  predicate Importable(p: Sections, env: Env) {
    && Field(p.iface, "PrivateKey") != "" && env.publicOf(Field(p.iface, "PrivateKey")).Some?
    && Field(p.peer, "PublicKey") != ""
    && Field(p.peer, "Endpoint") != "" && env.hostPort(Field(p.peer, "Endpoint"))
    && Switch(Field(p.iface, "RandomTrailers")).Some? && Switch(Field(p.iface, "DisableCookies")).Some?
    && (Field(p.peer, "PersistentKeepalive") != "" ==> NumericRange(Field(p.peer, "PersistentKeepalive"), 16).Some?)
  }

  lemma InterfaceFields(m: Section)
    ensures Get(m, PrivateKey) == Field(m, "PrivateKey")
    ensures Get(m, RandomTrailers) == Field(m, "RandomTrailers") && Get(m, DisableCookies) == Field(m, "DisableCookies")
  {
    hide Get, Field;
    GetIsField(m, PrivateKey);
    GetIsField(m, RandomTrailers);
    GetIsField(m, DisableCookies);
  }

  lemma PeerFields(m: Section)
    ensures Get(m, PublicKey) == Field(m, "PublicKey") && Get(m, Endpoint) == Field(m, "Endpoint")
    ensures Get(m, PersistentKeepalive) == Field(m, "PersistentKeepalive")
  {
    hide Get, Field;
    GetIsField(m, PublicKey);
    GetIsField(m, Endpoint);
    GetIsField(m, PersistentKeepalive);
  }

  /** The import fails exactly when something it needs is missing, or the profile is obfuscated with settings that are not valid. */
  lemma ImportNeeds(p: Sections, env: Env)
    ensures var r := ImportSections(p, env);
            && (r.Ok? ==> Importable(p, env))
            && (r.Err? && r.error != BadObfuscation ==> !Importable(p, env))
            && (r == Err(BadObfuscation) ==>
                  Importable(p, env)
                  && !Valid(Normalized(ImportedObf(p.iface, Switch(Field(p.iface, "RandomTrailers")).value,
                                                   Switch(Field(p.iface, "DisableCookies")).value)), env.packet, env.key))
  {
    hide Get, Field, Key.Name, Atoi, Switch, NumericRange, Normalized, Valid, ImportedObf, HasObfuscation;
    InterfaceFields(p.iface);
    PeerFields(p.peer);
  }

  lemma OptionalFields(iface: Section, peer: Section)
    ensures Get(iface, Address) == Field(iface, "Address") && Get(iface, DNS) == Field(iface, "DNS")
    ensures Get(iface, MTU) == Field(iface, "MTU")
    ensures Get(peer, PresharedKey) == Field(peer, "PresharedKey") && Get(peer, AllowedIPs) == Field(peer, "AllowedIPs")
  {
    hide Get, Field;
    GetIsField(iface, Address);
    GetIsField(iface, DNS);
    GetIsField(iface, MTU);
    GetIsField(peer, PresharedKey);
    GetIsField(peer, AllowedIPs);
  }

  /** Each field of the imported profile comes from the value of its own name. */
  lemma ImportReads(p: Sections, env: Env)
    requires ImportSections(p, env).Ok?
    ensures var r := ImportSections(p, env).value;
            && r.privateKey == Field(p.iface, "PrivateKey") && Some(r.clientKey) == env.publicOf(Field(p.iface, "PrivateKey"))
            && r.serverKey == Field(p.peer, "PublicKey") && r.psk == Field(p.peer, "PresharedKey")
            && r.endpoint == Field(p.peer, "Endpoint") && r.address == Field(p.iface, "Address") && r.dns == Field(p.iface, "DNS")
            && r.allowedIPs == (if Field(p.peer, "AllowedIPs") == "" then "0.0.0.0/0, ::/0" else Field(p.peer, "AllowedIPs"))
            && r.mtu == (if Atoi(Field(p.iface, "MTU")) > 0 then Atoi(Field(p.iface, "MTU")) else 0)
  {
    hide Get, Field, Key.Name, Atoi, Switch, NumericRange, Normalized, Valid, ImportedObf, HasObfuscation;
    InterfaceFields(p.iface);
    PeerFields(p.peer);
    OptionalFields(p.iface, p.peer);
  }

  /** A word of the text starts with vpn:// in any case. */
  predicate HasLink(text: string) {
    exists i :: 0 <= i && i + 6 <= |text| && LinkAt(text, i)
  }

  predicate LinkAt(text: string, i: nat)
    requires i + 6 <= |text|
  {
    (i == 0 || IsSpace(text[i - 1])) && ToLower(text[i..i + 6]) == "vpn://"
  }

  function ImportConf(raw: string, env: Env): Result<Imported, ImportError> {
    var text := TrimSpace(raw);
    if text == "" then Err(EmptyText)
    else
      var conf := if HasLink(text) then env.unpack(text) else Some(text);
      match conf
      case None => Err(BadLink)
      case Some(plain) =>
        match ParseConf(plain)
        case Err(e) => Err(e)
        case Ok(p) => ImportSections(p, env)
  }
}
