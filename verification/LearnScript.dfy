/** The batch of kernel additions for one DNS answer (awgDNSLearnScript in dns_learn_linux.go). */
module LearnScript {
  import opened Wrappers
  import opened Text
  import opened Lists
  import opened TextLines
  import DnsGate

  const MAX_DESTINATIONS := 64
  const MAX_SET_NAME := 31

  datatype Request = Request(setName: string, ip: string)

  datatype ScriptError = BadSetName | BadDestination | TooManyDestinations

  /** Reading an address: its canonical text, or None when it is malformed or unspecified. */
  type Parser = string -> Option<string>

  predicate NameChar(c: char) {
    'a' <= c <= 'z' || 'A' <= c <= 'Z' || '0' <= c <= '9' || c == '_' || c == '-'
  }

  predicate ValidSet(name: string) {
    0 < |name| <= MAX_SET_NAME && forall i :: 0 <= i < |name| ==> NameChar(name[i])
  }

  predicate Bare(s: string) {
    forall i :: 0 <= i < |s| ==> s[i] != ' ' && s[i] != '\n'
  }

  /** Canonical addresses contain neither spaces nor line ends. */
  ghost predicate Canonical(parse: Parser) {
    forall s {:trigger parse(s)} :: parse(s).Some? ==> Bare(parse(s).value)
  }

  predicate Usable(r: Request, parse: Parser) {
    ValidSet(r.setName) && parse(TrimSpace(r.ip)).Some?
  }

  predicate AllUsable(requests: seq<Request>, parse: Parser) {
    forall i :: 0 <= i < |requests| ==> Usable(requests[i], parse)
  }

  function Destination(r: Request, parse: Parser): string {
    var p := parse(TrimSpace(r.ip));
    if p.Some? then p.value else ""
  }

  function KeyOf(r: Request, parse: Parser): DnsGate.Key {
    r.setName + " " + Destination(r, parse)
  }

  function Keys(requests: seq<Request>, parse: Parser): seq<DnsGate.Key> {
    if requests == [] then []
    else Keys(requests[..|requests| - 1], parse) + [KeyOf(requests[|requests| - 1], parse)]
  }

  function Destinations(requests: seq<Request>, parse: Parser): set<string> {
    if requests == [] then {}
    else Destinations(requests[..|requests| - 1], parse) + {Destination(requests[|requests| - 1], parse)}
  }

  function Command(key: DnsGate.Key): string {
    "add " + key + " -exist"
  }

  function Line(key: DnsGate.Key): string {
    Command(key) + "\n"
  }

  function Script(keys: seq<DnsGate.Key>): string {
    if keys == [] then "" else Script(keys[..|keys| - 1]) + Line(keys[|keys| - 1])
  }

  /** Everything before request i is fine and i itself is refused for this reason. */
  predicate FirstRefusal(requests: seq<Request>, parse: Parser, i: nat, e: ScriptError)
    requires i < |requests|
  {
    && AllUsable(requests[..i], parse) && |Destinations(requests[..i], parse)| <= MAX_DESTINATIONS
    && match e
       case BadSetName => !ValidSet(requests[i].setName)
       case BadDestination => ValidSet(requests[i].setName) && parse(TrimSpace(requests[i].ip)).None?
       case TooManyDestinations =>
         Usable(requests[i], parse) && |Destinations(requests[..i + 1], parse)| > MAX_DESTINATIONS
  }

  method IsValidSet(name: string) returns (ok: bool)
    ensures ok <==> ValidSet(name)
  {
    if name == "" || |name| > MAX_SET_NAME {
      return false;
    }
    for i := 0 to |name|
      invariant forall j :: 0 <= j < i ==> NameChar(name[j])
    {
      if !NameChar(name[i]) {
        return false;
      }
    }
    return true;
  }

  lemma {:induction false} FewerDestinations(requests: seq<Request>, parse: Parser, i: nat)
    requires i <= |requests|
    ensures Destinations(requests[..i], parse) <= Destinations(requests, parse)
    ensures |Destinations(requests[..i], parse)| <= |Destinations(requests, parse)|
    decreases |requests| - i
  {
    hide TrimSpace;
    if i == |requests| {
      assert requests[..i] == requests;
    } else {
      FewerDestinations(requests, parse, i + 1);
      assert requests[..i + 1][..i] == requests[..i];
      SubsetIsSmaller(Destinations(requests[..i], parse), Destinations(requests[..i + 1], parse));
    }
  }

  lemma {:induction false} SubsetIsSmaller<T>(a: set<T>, b: set<T>)
    requires a <= b
    ensures |a| <= |b|
  {
    if a != {} {
      var x :| x in a;
      SubsetIsSmaller(a - {x}, b - {x});
    }
  }

  lemma RefusalsAreReal(requests: seq<Request>, parse: Parser, i: nat, e: ScriptError)
    requires i < |requests| && FirstRefusal(requests, parse, i, e)
    ensures !(AllUsable(requests, parse) && |Destinations(requests, parse)| <= MAX_DESTINATIONS)
  {
    hide TrimSpace;
    if e.TooManyDestinations? {
      FewerDestinations(requests, parse, i + 1);
    }
  }

  /** The script and the two sets after these requests. */
  predicate Collected(requests: seq<Request>, parse: Parser, script: string, seen: set<DnsGate.Key>, destinations: set<string>) {
    && script == Script(Dedup(Keys(requests, parse)))
    && seen == (set k | k in Keys(requests, parse))
    && destinations == Destinations(requests, parse)
    && |destinations| <= MAX_DESTINATIONS
    && AllUsable(requests, parse)
  }

  lemma CollectOne(requests: seq<Request>, i: nat, parse: Parser, script: string, seen: set<DnsGate.Key>, destinations: set<string>)
    requires i < |requests| && Collected(requests[..i], parse, script, seen, destinations) && Usable(requests[i], parse)
    ensures Destinations(requests[..i + 1], parse) == destinations + {Destination(requests[i], parse)}
    ensures var key, after := KeyOf(requests[i], parse), destinations + {Destination(requests[i], parse)};
            |after| <= MAX_DESTINATIONS ==>
              Collected(requests[..i + 1], parse, if key in seen then script else script + Line(key), seen + {key}, after)
  {
    hide TrimSpace, Dedup, KeyOf, Line, Usable, Destination, Script;
    assert requests[..i + 1][..i] == requests[..i];
    var keys, key := Keys(requests[..i], parse), KeyOf(requests[i], parse);
    assert Keys(requests[..i + 1], parse) == keys + [key];
    DedupSnoc(keys, key);
    ScriptSnoc(Dedup(keys), key);
  }

  lemma RefusedAt(requests: seq<Request>, i: nat, parse: Parser, script: string, seen: set<DnsGate.Key>,
                  destinations: set<string>, e: ScriptError)
    requires i < |requests| && Collected(requests[..i], parse, script, seen, destinations)
    requires match e
             case BadSetName => !ValidSet(requests[i].setName)
             case BadDestination => ValidSet(requests[i].setName) && parse(TrimSpace(requests[i].ip)).None?
             case TooManyDestinations =>
               Usable(requests[i], parse) && |destinations + {Destination(requests[i], parse)}| > MAX_DESTINATIONS
    ensures FirstRefusal(requests, parse, i, e)
    ensures !(AllUsable(requests, parse) && |Destinations(requests, parse)| <= MAX_DESTINATIONS)
  {
    hide TrimSpace, Dedup, KeyOf, ValidSet, Script, Keys, AllUsable, Destinations, Destination;
    if e.TooManyDestinations? {
      hide Collected, Usable;
      CollectOne(requests, i, parse, script, seen, destinations);
    }
    assert FirstRefusal(requests, parse, i, e);
    RefusalsAreReal(requests, parse, i, e);
  }

  method AwgDNSLearnScript(requests: seq<Request>, parse: Parser) returns (r: Result<string, ScriptError>)
    ensures r.Ok? <==> AllUsable(requests, parse) && |Destinations(requests, parse)| <= MAX_DESTINATIONS
    ensures r.Ok? ==> r.value == Script(Dedup(Keys(requests, parse)))
    ensures r.Err? ==> exists i :: 0 <= i < |requests| && FirstRefusal(requests, parse, i, r.error)
  {
    hide TrimSpace, ValidSet, Dedup, KeyOf, Collected, AllUsable, Script, Keys, Destinations, Line;
    var script := "";
    var seen: set<DnsGate.Key> := {};
    var destinations: set<string> := {};
    NothingCollected(parse);
    assert requests[..0] == [];
    for i := 0 to |requests|
      invariant Collected(requests[..i], parse, script, seen, destinations)
    {
      var request := requests[i];
      var named := IsValidSet(request.setName);
      if !named {
        RefusedAt(requests, i, parse, script, seen, destinations, BadSetName);
        return Err(BadSetName);
      }
      var ip := parse(TrimSpace(request.ip));
      if ip.None? {
        RefusedAt(requests, i, parse, script, seen, destinations, BadDestination);
        return Err(BadDestination);
      }
      var before := destinations;
      destinations := destinations + {ip.value};
      if |destinations| > MAX_DESTINATIONS {
        RefusedAt(requests, i, parse, script, seen, before, TooManyDestinations);
        return Err(TooManyDestinations);
      }
      CollectOne(requests, i, parse, script, seen, before);
      var key := KeyOf(request, parse);
      if key in seen {
        assert seen + {key} == seen;
        continue;
      }
      seen := seen + {key};
      script := script + Line(key);
    }
    assert requests[..|requests|] == requests;
    CollectedAll(requests, parse, script, seen, destinations);
    return Ok(script);
  }

  lemma CollectedAll(requests: seq<Request>, parse: Parser, script: string, seen: set<DnsGate.Key>, destinations: set<string>)
    requires Collected(requests, parse, script, seen, destinations)
    ensures AllUsable(requests, parse) && |Destinations(requests, parse)| <= MAX_DESTINATIONS
    ensures script == Script(Dedup(Keys(requests, parse)))
  {
  }

  lemma NothingCollected(parse: Parser)
    ensures Collected([], parse, "", {}, {})
  {
    assert Script(Dedup(Keys([], parse))) == "";
  }

  lemma ScriptSnoc(keys: seq<DnsGate.Key>, key: DnsGate.Key)
    ensures Script(keys + [key]) == Script(keys) + Line(key)
  {
    assert (keys + [key])[..|keys + [key]| - 1] == keys;
  }

  // ---------- the script says what was asked ----------

  /** What `ipset restore` reads on each line. */
  function CommandsOf(lines: seq<string>): seq<DnsGate.Key> {
    if lines == [] then []
    else CommandsOf(lines[..|lines| - 1]) + [TrimSuffix(TrimPrefix(lines[|lines| - 1], "add "), " -exist")]
  }

  /** The keys named by the lines of the script. */
  function Commands(script: string): seq<DnsGate.Key> {
    CommandsOf(Lines(script))
  }

  function ScriptLines(keys: seq<DnsGate.Key>): seq<string> {
    if keys == [] then [] else ScriptLines(keys[..|keys| - 1]) + [Command(keys[|keys| - 1])]
  }

  lemma CommandReadsBack(key: DnsGate.Key)
    ensures TrimSuffix(TrimPrefix(Command(key), "add "), " -exist") == key
    ensures OneLine(key) ==> OneLine(Command(key))
  {
    var body := Command(key);
    assert body[4..] == key + " -exist";
    assert (key + " -exist")[|key|..] == " -exist";
  }

  lemma {:induction false} ScriptIsRendered(keys: seq<DnsGate.Key>)
    ensures Script(keys) == Render(ScriptLines(keys))
  {
    if keys != [] {
      hide Command, Render;
      ScriptIsRendered(keys[..|keys| - 1]);
      RenderSnoc(ScriptLines(keys[..|keys| - 1]), Command(keys[|keys| - 1]));
    } else {
      assert Render([]) == "";
    }
  }

  lemma {:induction false} LinesReadBack(keys: seq<DnsGate.Key>)
    requires forall i :: 0 <= i < |keys| ==> OneLine(keys[i])
    ensures forall i :: 0 <= i < |ScriptLines(keys)| ==> OneLine(ScriptLines(keys)[i])
    ensures CommandsOf(ScriptLines(keys)) == keys
  {
    if keys != [] {
      hide Command, OneLine, TrimSuffix, TrimPrefix;
      var front, last := keys[..|keys| - 1], keys[|keys| - 1];
      LinesReadBack(front);
      CommandReadsBack(last);
      assert ScriptLines(keys)[..|ScriptLines(keys)| - 1] == ScriptLines(front);
      assert keys == front + [last];
    }
  }

  lemma KeyIsOneLine(r: Request, parse: Parser)
    requires Canonical(parse) && Usable(r, parse)
    ensures OneLine(KeyOf(r, parse))
  {
    hide TrimSpace;
    var ip := Destination(r, parse);
    assert Bare(ip);
    var key := KeyOf(r, parse);
    forall i | 0 <= i < |key|
      ensures key[i] != '\n'
    {
      if i < |r.setName| {
        assert key[i] == r.setName[i] && NameChar(r.setName[i]);
      } else if i > |r.setName| {
        assert key[i] == ip[i - |r.setName| - 1];
      }
    }
  }

  lemma {:induction false} KeysMembers(requests: seq<Request>, parse: Parser)
    ensures |Keys(requests, parse)| == |requests|
    ensures forall i :: 0 <= i < |requests| ==> Keys(requests, parse)[i] == KeyOf(requests[i], parse)
  {
    hide KeyOf;
    if requests != [] {
      KeysMembers(requests[..|requests| - 1], parse);
    }
  }

  /** The kernel is asked for every requested entry, each once, in the order of first request, and for nothing else. */
  lemma ScriptInstallsWhatWasAsked(requests: seq<Request>, parse: Parser)
    requires Canonical(parse) && AllUsable(requests, parse)
    ensures Commands(Script(Dedup(Keys(requests, parse)))) == Dedup(Keys(requests, parse))
    ensures forall k :: k in Commands(Script(Dedup(Keys(requests, parse)))) <==>
                        exists i :: 0 <= i < |requests| && KeyOf(requests[i], parse) == k
  {
    hide KeyOf, Usable, OneLine, Script, ScriptLines, CommandsOf, Dedup, Keys, Lines, Render;
    var keys := Keys(requests, parse);
    KeysMembers(requests, parse);
    DedupKeepsElements(keys);
    KeysAreOneLine(requests, parse);
    LinesOfScript(requests, parse);
    LinesReadBack(Dedup(keys));
  }

  lemma {:induction false} ScriptLinesMembers(keys: seq<DnsGate.Key>)
    ensures forall line :: line in ScriptLines(keys) <==> exists i :: 0 <= i < |keys| && line == "add " + keys[i] + " -exist"
  {
    if keys != [] {
      var front, last := keys[..|keys| - 1], keys[|keys| - 1];
      ScriptLinesMembers(front);
      assert forall i :: 0 <= i < |front| ==> front[i] == keys[i];
    }
  }

  /** The line that asks for one entry. */
  predicate AsksFor(line: string, r: Request, parse: Parser) {
    var ip := parse(TrimSpace(r.ip));
    ip.Some? && line == "add " + r.setName + " " + ip.value + " -exist"
  }

  lemma LineOfRequest(line: string, r: Request, parse: Parser)
    requires Usable(r, parse)
    ensures AsksFor(line, r, parse) <==> line == "add " + KeyOf(r, parse) + " -exist"
  {
    hide TrimSpace;
    var ip := parse(TrimSpace(r.ip)).value;
    assert "add " + (r.setName + " " + ip) + " -exist" == "add " + r.setName + " " + ip + " -exist";
  }

  /** Line by line, each request has its line and each line its request. */
  lemma EveryLineIsARequest(requests: seq<Request>, parse: Parser)
    requires Canonical(parse) && AllUsable(requests, parse)
    ensures var lines := Lines(Script(Dedup(Keys(requests, parse))));
            forall line :: line in lines <==> exists i :: 0 <= i < |requests| && AsksFor(line, requests[i], parse)
  {
    hide KeyOf, Usable, OneLine, Script, ScriptLines, Dedup, Keys, Lines, Render, AsksFor;
    var keys := Keys(requests, parse);
    var once := Dedup(keys);
    KeysMembers(requests, parse);
    DedupKeepsElements(keys);
    LinesOfScript(requests, parse);
    ScriptLinesMembers(once);
    forall line
      ensures line in ScriptLines(once) <==> exists i :: 0 <= i < |requests| && AsksFor(line, requests[i], parse)
    {
      forall i | 0 <= i < |requests|
        ensures AsksFor(line, requests[i], parse) <==> line == "add " + keys[i] + " -exist"
      {
        LineOfRequest(line, requests[i], parse);
      }
      if line in ScriptLines(once) {
        var k :| 0 <= k < |once| && line == "add " + once[k] + " -exist";
        assert once[k] in keys;
        var i :| 0 <= i < |keys| && keys[i] == once[k];
        assert AsksFor(line, requests[i], parse);
      }
      if i :| 0 <= i < |requests| && AsksFor(line, requests[i], parse) {
        assert keys[i] in once;
        var k :| 0 <= k < |once| && once[k] == keys[i];
        assert line == "add " + once[k] + " -exist";
      }
    }
  }

  lemma KeysAreOneLine(requests: seq<Request>, parse: Parser)
    requires Canonical(parse) && AllUsable(requests, parse)
    ensures forall i :: 0 <= i < |Dedup(Keys(requests, parse))| ==> OneLine(Dedup(Keys(requests, parse))[i])
  {
    hide KeyOf, Usable, OneLine, Dedup, Keys;
    var keys := Keys(requests, parse);
    KeysMembers(requests, parse);
    DedupKeepsElements(keys);
    forall i | 0 <= i < |Dedup(keys)|
      ensures OneLine(Dedup(keys)[i])
    {
      assert Dedup(keys)[i] in keys;
      var j :| 0 <= j < |requests| && keys[j] == Dedup(keys)[i];
      KeyIsOneLine(requests[j], parse);
    }
  }

  lemma LinesOfScript(requests: seq<Request>, parse: Parser)
    requires Canonical(parse) && AllUsable(requests, parse)
    ensures Lines(Script(Dedup(Keys(requests, parse)))) == ScriptLines(Dedup(Keys(requests, parse)))
  {
    hide KeyOf, Usable, OneLine, Script, ScriptLines, CommandsOf, Dedup, Keys, Lines, Render;
    var keys := Dedup(Keys(requests, parse));
    KeysAreOneLine(requests, parse);
    ScriptIsRendered(keys);
    LinesReadBack(keys);
    RenderedLinesReadBack(ScriptLines(keys));
  }

  /** The memo's text key stands for one set and one address. */
  lemma KeysAreUnambiguous(a: Request, b: Request, parse: Parser)
    requires Usable(a, parse) && Usable(b, parse)
    ensures KeyOf(a, parse) == KeyOf(b, parse) <==>
            a.setName == b.setName && Destination(a, parse) == Destination(b, parse)
  {
    hide TrimSpace;
    var k, l := KeyOf(a, parse), KeyOf(b, parse);
    if k == l {
      var n, m := |a.setName|, |b.setName|;
      assert forall i :: 0 <= i < n ==> k[i] != ' ';
      assert forall i :: 0 <= i < m ==> l[i] != ' ';
      assert k[n] == ' ' && l[m] == ' ';
      assert n == m;
      assert a.setName == k[..n] && b.setName == l[..n];
      assert Destination(a, parse) == k[n + 1..] && Destination(b, parse) == l[n + 1..];
    }
  }
}
