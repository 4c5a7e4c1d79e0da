/**
  The first-match-wins decision table (decision.go, with firstCatchAllZoneIndex
  of mode.go). List expansion, source-address membership and the regular
  expression engine are parameters. A compiled matcher set is immutable, and
  CompileMatcherSet proves that it decides like the entries it was compiled from
  and is empty only when none of them is usable; so a table entry holds those
  matchers, and MatchAny and Len are read off them.
 */
module Decisions {
  import opened Wrappers
  import opened Text
  import opened Zones
  import opened SuffixTries
  import opened Entries
  import opened Matchers

  datatype Env = Env(
    engine: RegexEngine,
    expand: Zone -> seq<string>,
    sourceMatches: (string, seq<string>) -> bool)

  /** What one lookup answers; `sourceSet` is the rank from which the ipset awg2_z<rank> is named. */
  datatype RouteDecision = RouteDecision(
    route: string, ruleIdx: nat, blockAAAA: bool, sourceBound: bool, sourceSet: Option<nat>)

  const NO_MATCH := RouteDecision("", 0, false, false, None)

  // ---------- the reference: walk the user's rules from the top ----------

  predicate IsCatchAllEntry(entry: string) {
    TrimSpace(entry) in ["*", "0.0.0.0/0", "::/0"]
  }

  function DropCatchAll(entries: seq<string>): seq<string> {
    if entries == [] then []
    else (if IsCatchAllEntry(entries[0]) then [] else [entries[0]]) + DropCatchAll(entries[1..])
  }

  const ALWAYS := ["[re]^"]

  /** The entries a rule is compiled from. */
  function ZoneEntries(env: Env, z: Zone): seq<string> {
    if z.IsCatchAll() then ALWAYS
    else if z.SourceBound() && z.domains == [] then []
    else DropCatchAll(env.expand(z))
  }

  /** MatchAny of the compiled set. */
  predicate MatchAny(e: RegexEngine, ms: seq<DomainMatcher>, name: string) {
    exists i :: 0 <= i < |ms| && Matches(e, ms[i], name)
  }

  /** Len() == 0 of the compiled set. */
  predicate NothingToMatch(ms: seq<DomainMatcher>) {
    forall i :: 0 <= i < |ms| ==> !Usable(ms[i])
  }

  /** The matchers of a rule. */
  function ZoneMatchers(env: Env, z: Zone): seq<DomainMatcher> {
    Compiled(env.engine, ZoneEntries(env, z))
  }

  /** A device rule without usable entries takes every name of its devices. */
  predicate ZoneMatches(env: Env, z: Zone, name: string, srcIP: string) {
    var ms := ZoneMatchers(env, z);
    if z.SourceBound() then env.sourceMatches(srcIP, z.sourceIPs) && (NothingToMatch(ms) || MatchAny(env.engine, ms, name))
    else MatchAny(env.engine, ms, name)
  }

  /** How many live device rules stand above row i. */
  function SourceRank(zones: seq<Zone>, i: nat): nat
    requires i <= |zones|
  {
    if i == 0 then 0
    else SourceRank(zones, i - 1) + (if zones[i - 1].Live() && zones[i - 1].SourceBound() then 1 else 0)
  }

  function Decide(zones: seq<Zone>, tunnelV6: bool, i: nat): RouteDecision
    requires i < |zones|
  {
    var route := zones[i].RouteValue();
    RouteDecision(route, i + 1, route == "tunnel" && !tunnelV6, zones[i].SourceBound(),
                  if zones[i].SourceBound() then Some(SourceRank(zones, i)) else None)
  }

  /** The first live rule from row i down that matches decides. */
  function Walk(env: Env, zones: seq<Zone>, tunnelV6: bool, name: string, srcIP: string, i: nat): RouteDecision
    requires i <= |zones|
    decreases |zones| - i
  {
    if i == |zones| then NO_MATCH
    else if zones[i].Live() && ZoneMatches(env, zones[i], name, srcIP) then Decide(zones, tunnelV6, i)
    else Walk(env, zones, tunnelV6, name, srcIP, i + 1)
  }

  predicate Passed(env: Env, z: Zone, name: string, srcIP: string) {
    !z.Live() || !ZoneMatches(env, z, name, srcIP)
  }

  lemma {:induction false} WalkSkipsPassed(env: Env, zones: seq<Zone>, tunnelV6: bool, name: string, srcIP: string, i: nat, k: nat)
    requires i <= k <= |zones|
    requires forall j :: i <= j < k ==> Passed(env, zones[j], name, srcIP)
    ensures Walk(env, zones, tunnelV6, name, srcIP, i) == Walk(env, zones, tunnelV6, name, srcIP, k)
    decreases k - i
  {
    if i < k {
      assert Passed(env, zones[i], name, srcIP);
      WalkSkipsPassed(env, zones, tunnelV6, name, srcIP, i + 1, k);
    }
  }

  // ---------- the promise, in terms of the rules' own fields ----------

  /** The rule names everything: the domain `*`, or one of the two default networks. */
  predicate CatchesAll(z: Zone) {
    || (exists i :: 0 <= i < |z.domains| && TrimSpace(z.domains[i]) == "*")
    || (exists i :: 0 <= i < |z.ips| && (TrimSpace(z.ips[i]) == "0.0.0.0/0" || TrimSpace(z.ips[i]) == "::/0"))
  }

  predicate NamesEverything(entry: string) {
    TrimSpace(entry) == "*" || TrimSpace(entry) == "0.0.0.0/0" || TrimSpace(entry) == "::/0"
  }

  /** Some entry of the expanded rule, one that does not name everything, matches the name. */
  ghost predicate SomeOwnEntryHits(env: Env, z: Zone, n: string) {
    exists i :: 0 <= i < |env.expand(z)| && !NamesEverything(env.expand(z)[i]) && EntryHits(env.engine, env.expand(z)[i], n)
  }

  ghost predicate SomeOwnEntryUsable(env: Env, z: Zone) {
    exists i :: 0 <= i < |env.expand(z)| && !NamesEverything(env.expand(z)[i]) && EntryUsable(env.engine, env.expand(z)[i])
  }

  /**
    The rule takes the name of this client. A device rule needs the client to be
    among its devices. A rule that names everything takes every name but the empty
    one; a device rule without domains, or without a usable entry, takes any name;
    all others take what one of their entries matches.
   */
  ghost predicate Takes(env: Env, z: Zone, name: string, srcIP: string) {
    && (z.sourceIPs != [] ==> env.sourceMatches(srcIP, z.sourceIPs))
    && if CatchesAll(z) then NormalizedName(name) != ""
       else if z.sourceIPs != [] && (z.domains == [] || !SomeOwnEntryUsable(env, z)) then true
       else NormalizedName(name) != "" && SomeOwnEntryHits(env, z, NormalizedName(name))
  }

  ghost predicate LiveAndTakes(env: Env, z: Zone, name: string, srcIP: string) {
    z.enabled && !z.waiting && Takes(env, z, name, srcIP)
  }

  predicate IsDeviceRule(z: Zone) {
    z.enabled && !z.waiting && z.sourceIPs != []
  }

  /** The live device rules above row i. */
  function DevicesAbove(zones: seq<Zone>, i: nat): set<nat>
    requires i <= |zones|
  {
    set j: nat | j < i && IsDeviceRule(zones[j])
  }

  /** What an answer for row i says. */
  predicate SaysRow(zones: seq<Zone>, tunnelV6: bool, i: nat, d: RouteDecision)
    requires i < |zones|
  {
    var z := zones[i];
    && d.ruleIdx == i + 1
    && (z.route == "tunnel" || z.route == "direct" ==> d.route == z.route)
    && (z.route != "tunnel" && z.route != "direct" ==> d.route == if z.mode == "exclude" then "direct" else "tunnel")
    && (d.blockAAAA <==> d.route == "tunnel" && !tunnelV6)
    && (d.sourceBound <==> z.sourceIPs != [])
    && (z.sourceIPs == [] ==> d.sourceSet.None?)
    && (z.sourceIPs != [] ==> d.sourceSet == Some(|DevicesAbove(zones, i)|))
  }

  /** The answer is the first live rule that takes the name, with its route, or that there is none. */
  ghost predicate Answers(env: Env, zones: seq<Zone>, tunnelV6: bool, name: string, srcIP: string, d: RouteDecision) {
    && d.ruleIdx <= |zones|
    && (d.ruleIdx == 0 ==>
          && d == RouteDecision("", 0, false, false, None)
          && forall i :: 0 <= i < |zones| ==> !LiveAndTakes(env, zones[i], name, srcIP))
    && (d.ruleIdx > 0 ==>
          && LiveAndTakes(env, zones[d.ruleIdx - 1], name, srcIP)
          && (forall i :: 0 <= i < d.ruleIdx - 1 ==> !LiveAndTakes(env, zones[i], name, srcIP))
          && SaysRow(zones, tunnelV6, d.ruleIdx - 1, d))
  }

  // ---------- catch-all rules ----------

  lemma AlwaysCompiles(e: RegexEngine)
    requires Lawful(e)
    ensures Compiled(e, ALWAYS) == [Pattern("^")]
  {
    var p := "[re]^";
    TrimOfTrimmed(p);
    TrimOfTrimmed("^");
    assert ToLower(p) == p;
    assert p[0] != "full:"[0];
    assert !HasPrefix(p, "full:");
    assert p[..4] == "[re]" && TrimPrefix(p, "[re]") == "^";
    assert NewDomainMatcher(e, p) == Ok(Pattern("^"));
    assert ALWAYS[..0] == [] && ALWAYS[0] == p;
    assert Compiled(e, []) == [];
  }

  /** A catch-all rule matches every name that is not empty once normalised. */
  lemma CatchAllMatchesEveryName(env: Env, z: Zone, name: string)
    requires Lawful(env.engine) && z.IsCatchAll()
    ensures MatchAny(env.engine, ZoneMatchers(env, z), name) <==> NormalizedName(name) != ""
    ensures !NothingToMatch(ZoneMatchers(env, z))
  {
    AlwaysCompiles(env.engine);
    var ms := ZoneMatchers(env, z);
    assert ms == [Pattern("^")] && Usable(ms[0]);
    assert Matches(env.engine, ms[0], name) <==> NormalizedName(name) != "";
  }

  // ---------- the walk keeps the promise ----------

  lemma {:induction false} DropCatchAllKeepsTheRest(e: RegexEngine, entries: seq<string>, n: string)
    ensures SomeEntryHits(e, DropCatchAll(entries), n) <==>
            exists i :: 0 <= i < |entries| && !NamesEverything(entries[i]) && EntryHits(e, entries[i], n)
    ensures SomeEntryUsable(e, DropCatchAll(entries)) <==>
            exists i :: 0 <= i < |entries| && !NamesEverything(entries[i]) && EntryUsable(e, entries[i])
  {
    hide EntryHits, EntryUsable, TrimSpace;
    DropCatchAllMembers(entries);
    var kept := DropCatchAll(entries);
    assert forall i :: 0 <= i < |kept| ==> kept[i] in kept;
    assert forall i :: 0 <= i < |entries| ==> entries[i] in entries;
  }

  lemma {:induction false} DropCatchAllMembers(entries: seq<string>)
    ensures forall x :: x in DropCatchAll(entries) <==> x in entries && !NamesEverything(x)
  {
    hide TrimSpace;
    if entries != [] {
      DropCatchAllMembers(entries[1..]);
      assert entries == [entries[0]] + entries[1..];
    }
  }

  lemma MatchersDecide(e: RegexEngine, entries: seq<string>, name: string)
    requires Lawful(e)
    ensures MatchAny(e, Compiled(e, entries), name) <==>
            NormalizedName(name) != "" && SomeEntryHits(e, entries, NormalizedName(name))
    ensures NothingToMatch(Compiled(e, entries)) <==> !SomeEntryUsable(e, entries)
  {
    hide Lawful, EntryUsable, EntryHits, NormalizedName, Compiled, Usable, SomeEntryHits, SomeEntryUsable;
    var ms, n := Compiled(e, entries), NormalizedName(name);
    CompiledHits(e, entries, if n == "" then "x" else n);
    assert forall i :: 0 <= i < |ms| ==> ms[i] in ms;
    assert n == "" ==> forall i :: 0 <= i < |ms| ==> !Matches(e, ms[i], name);
    hide MatchLower;
    assert forall m :: Matches(e, m, name) <==> MatchLower(e, m, n);
  }

  lemma CatchesAllIsCatchAll(z: Zone)
    ensures CatchesAll(z) <==> z.IsCatchAll()
  {
    hide TrimSpace;
  }

  /** What a rule is compiled to takes exactly the names it promises to take. */
  lemma ZoneTakesWhatItSays(env: Env, z: Zone, name: string, srcIP: string)
    requires Lawful(env.engine)
    ensures ZoneMatches(env, z, name, srcIP) <==> Takes(env, z, name, srcIP)
  {
    hide TrimSpace, NormalizedName, Compiled, MatchAny, NothingToMatch, EntryHits, EntryUsable, SomeEntryHits, SomeEntryUsable,
         Lawful, Zone.IsCatchAll, CatchesAll, DropCatchAll;
    CatchesAllIsCatchAll(z);
    if z.IsCatchAll() {
      CatchAllMatchesEveryName(env, z, name);
    } else {
      MatchersDecide(env.engine, ZoneEntries(env, z), name);
      if z.SourceBound() && z.domains == [] {
        NoEntries(env.engine);
      } else {
        DropCatchAllKeepsTheRest(env.engine, env.expand(z), NormalizedName(name));
      }
    }
  }

  lemma NoEntries(e: RegexEngine)
    ensures !SomeEntryUsable(e, [])
  {
  }

  lemma {:induction false} RankCountsDevices(zones: seq<Zone>, i: nat)
    requires i <= |zones|
    ensures SourceRank(zones, i) == |DevicesAbove(zones, i)|
  {
    if i > 0 {
      RankCountsDevices(zones, i - 1);
      assert zones[i - 1].Live() && zones[i - 1].SourceBound() <==> IsDeviceRule(zones[i - 1]);
      hide IsDeviceRule;
      OneMoreDevice(zones, i - 1);
    }
  }

  lemma OneMoreDevice(zones: seq<Zone>, i: nat)
    requires i < |zones|
    ensures |DevicesAbove(zones, i + 1)| == |DevicesAbove(zones, i)| + (if IsDeviceRule(zones[i]) then 1 else 0)
  {
    hide IsDeviceRule;
    var fewer := DevicesAbove(zones, i);
    assert DevicesAbove(zones, i + 1) == fewer + (if IsDeviceRule(zones[i]) then {i} else {});
    assert i !in fewer;
  }

  /** The walk from row i stops at the first live rule that takes the name. */
  lemma {:induction false} WalkAnswers(env: Env, zones: seq<Zone>, tunnelV6: bool, name: string, srcIP: string, i: nat)
    requires Lawful(env.engine) && i <= |zones|
    requires forall j :: 0 <= j < i ==> !LiveAndTakes(env, zones[j], name, srcIP)
    ensures Answers(env, zones, tunnelV6, name, srcIP, Walk(env, zones, tunnelV6, name, srcIP, i))
    decreases |zones| - i
  {
    hide ZoneMatches, Takes, Lawful, SourceRank;
    if i < |zones| {
      ZoneTakesWhatItSays(env, zones[i], name, srcIP);
      RankCountsDevices(zones, i);
      hide DevicesAbove;
      if !LiveAndTakes(env, zones[i], name, srcIP) {
        WalkAnswers(env, zones, tunnelV6, name, srcIP, i + 1);
      }
    }
  }

  predicate IsGlobalCatchAll(z: Zone) {
    z.Live() && !z.SourceBound() && z.IsCatchAll()
  }

  method FirstCatchAllZoneIndex(zones: seq<Zone>) returns (idx: int)
    ensures -1 <= idx < |zones|
    ensures idx >= 0 ==> IsGlobalCatchAll(zones[idx]) && forall i :: 0 <= i < idx ==> !IsGlobalCatchAll(zones[i])
    ensures idx < 0 ==> forall i :: 0 <= i < |zones| ==> !IsGlobalCatchAll(zones[i])
  {
    for i := 0 to |zones|
      invariant forall j :: 0 <= j < i ==> !IsGlobalCatchAll(zones[j])
    {
      var z := zones[i];
      if !z.enabled || z.waiting || |z.sourceIPs| > 0 {
        continue;
      }
      if z.IsCatchAll() {
        return i;
      }
    }
    return -1;
  }

  // ---------- the table ----------

  datatype OrderedZoneMatcher = OrderedZoneMatcher(matchers: seq<DomainMatcher>, route: string, index: nat)

  datatype SourceZoneDecision = SourceZoneDecision(
    matchers: seq<DomainMatcher>, setRank: nat, route: string, index: nat, sources: seq<string>)

  datatype RouteTable = RouteTable(ordered: seq<OrderedZoneMatcher>, source: seq<SourceZoneDecision>, tunnelV6: bool)

  predicate InOrdered(zones: seq<Zone>, catchAll: int, i: nat)
    requires i < |zones|
  {
    zones[i].Live() && !zones[i].SourceBound() && !(catchAll >= 0 && i > catchAll)
  }

  predicate InSource(zones: seq<Zone>, i: nat)
    requires i < |zones|
  {
    zones[i].Live() && zones[i].SourceBound()
  }

  predicate OrderedEntryOk(env: Env, zones: seq<Zone>, entry: OrderedZoneMatcher) {
    && entry.index < |zones|
    && entry.route == zones[entry.index].RouteValue()
    && entry.matchers == ZoneMatchers(env, zones[entry.index])
  }

  predicate SourceEntryOk(env: Env, zones: seq<Zone>, entry: SourceZoneDecision) {
    && entry.index < |zones|
    && entry.route == zones[entry.index].RouteValue()
    && entry.setRank == SourceRank(zones, entry.index)
    && entry.sources == zones[entry.index].sourceIPs
    && entry.matchers == ZoneMatchers(env, zones[entry.index])
  }

  predicate HasOrderedRow(out: seq<OrderedZoneMatcher>, i: nat) {
    exists a :: 0 <= a < |out| && out[a].index == i
  }

  predicate HasSourceRow(out: seq<SourceZoneDecision>, i: nat) {
    exists a :: 0 <= a < |out| && out[a].index == i
  }

  /** The rows of the ordered list among the first n: in order, none missing, none extra. */
  predicate OrderedRows(zones: seq<Zone>, catchAll: int, n: nat, out: seq<OrderedZoneMatcher>)
    requires n <= |zones|
  {
    && (forall a, b :: 0 <= a < b < |out| ==> out[a].index < out[b].index)
    && (forall a :: 0 <= a < |out| ==> out[a].index < n && InOrdered(zones, catchAll, out[a].index))
    && (forall i: nat {:trigger HasOrderedRow(out, i)} :: i < n && InOrdered(zones, catchAll, i) ==> HasOrderedRow(out, i))
  }

  predicate SourceRows(zones: seq<Zone>, n: nat, out: seq<SourceZoneDecision>)
    requires n <= |zones|
  {
    && (forall a, b :: 0 <= a < b < |out| ==> out[a].index < out[b].index)
    && (forall a :: 0 <= a < |out| ==> out[a].index < n && InSource(zones, out[a].index))
    && (forall i: nat {:trigger HasSourceRow(out, i)} :: i < n && InSource(zones, i) ==> HasSourceRow(out, i))
  }

  lemma OrderedRowsOneMore(zones: seq<Zone>, catchAll: int, n: nat, out: seq<OrderedZoneMatcher>, entry: OrderedZoneMatcher)
    requires n < |zones| && OrderedRows(zones, catchAll, n, out)
    ensures !InOrdered(zones, catchAll, n) ==> OrderedRows(zones, catchAll, n + 1, out)
    ensures InOrdered(zones, catchAll, n) && entry.index == n ==> OrderedRows(zones, catchAll, n + 1, out + [entry])
  {
    if InOrdered(zones, catchAll, n) && entry.index == n {
      var more := out + [entry];
      forall i: nat {:trigger HasOrderedRow(more, i)} | i < n + 1 && InOrdered(zones, catchAll, i)
        ensures HasOrderedRow(more, i)
      {
        if i < n {
          assert HasOrderedRow(out, i);
          var a :| 0 <= a < |out| && out[a].index == i;
          assert more[a].index == i;
        } else {
          assert more[|out|].index == i;
        }
      }
    }
  }

  lemma SourceRowsOneMore(zones: seq<Zone>, n: nat, out: seq<SourceZoneDecision>, entry: SourceZoneDecision)
    requires n < |zones| && SourceRows(zones, n, out)
    ensures !InSource(zones, n) ==> SourceRows(zones, n + 1, out)
    ensures InSource(zones, n) && entry.index == n ==> SourceRows(zones, n + 1, out + [entry])
  {
    if InSource(zones, n) && entry.index == n {
      var more := out + [entry];
      forall i: nat {:trigger HasSourceRow(more, i)} | i < n + 1 && InSource(zones, i)
        ensures HasSourceRow(more, i)
      {
        if i < n {
          assert HasSourceRow(out, i);
          var a :| 0 <= a < |out| && out[a].index == i;
          assert more[a].index == i;
        } else {
          assert more[|out|].index == i;
        }
      }
    }
  }

  method ZoneMatchersOrdered(env: Env, zones: seq<Zone>) returns (catchAll: int, out: seq<OrderedZoneMatcher>)
    ensures -1 <= catchAll < |zones| && (catchAll >= 0 ==> IsGlobalCatchAll(zones[catchAll]))
    ensures OrderedRows(zones, catchAll, |zones|, out)
    ensures forall a :: 0 <= a < |out| ==> OrderedEntryOk(env, zones, out[a])
  {
    hide ZoneMatchers;
    catchAll := FirstCatchAllZoneIndex(zones);
    out := [];
    for i := 0 to |zones|
      invariant OrderedRows(zones, catchAll, i, out)
      invariant forall a :: 0 <= a < |out| ==> OrderedEntryOk(env, zones, out[a])
    {
      var z := zones[i];
      if !z.enabled || z.waiting || |z.sourceIPs| > 0 || (catchAll >= 0 && i > catchAll) {
        assert !InOrdered(zones, catchAll, i);
        continue;
      }
      var entry := OrderedZoneMatcher(ZoneMatchers(env, z), z.RouteValue(), i);
      OrderedRowsOneMore(zones, catchAll, i, out, entry);
      out := out + [entry];
    }
  }

  method BuildSourceZoneDecisions(env: Env, zones: seq<Zone>) returns (out: seq<SourceZoneDecision>)
    ensures SourceRows(zones, |zones|, out)
    ensures forall a :: 0 <= a < |out| ==> SourceEntryOk(env, zones, out[a])
  {
    hide ZoneMatchers;
    out := [];
    var rank := 0;
    for i := 0 to |zones|
      invariant rank == SourceRank(zones, i)
      invariant SourceRows(zones, i, out)
      invariant forall a :: 0 <= a < |out| ==> SourceEntryOk(env, zones, out[a])
    {
      var z := zones[i];
      if !z.enabled || z.waiting || |z.sourceIPs| == 0 {
        assert !InSource(zones, i);
        continue;
      }
      var entry := SourceZoneDecision(ZoneMatchers(env, z), rank, z.RouteValue(), i, z.sourceIPs);
      SourceRowsOneMore(zones, i, out, entry);
      out := out + [entry];
      rank := rank + 1;
    }
  }

  /** The table was built from these rules. */
  predicate BuiltFrom(env: Env, zones: seq<Zone>, catchAll: int, tbl: RouteTable)
  {
    && -1 <= catchAll < |zones| && (catchAll >= 0 ==> IsGlobalCatchAll(zones[catchAll]))
    && OrderedRows(zones, catchAll, |zones|, tbl.ordered)
    && SourceRows(zones, |zones|, tbl.source)
    && (forall a :: 0 <= a < |tbl.ordered| ==> OrderedEntryOk(env, zones, tbl.ordered[a]))
    && (forall a :: 0 <= a < |tbl.source| ==> SourceEntryOk(env, zones, tbl.source[a]))
  }

  method BuildRouteTable(env: Env, zones: seq<Zone>, tunnelV6: bool) returns (tbl: RouteTable, ghost catchAll: int)
    ensures BuiltFrom(env, zones, catchAll, tbl) && tbl.tunnelV6 == tunnelV6
  {
    var ordered;
    catchAll, ordered := ZoneMatchersOrdered(env, zones);
    var source := BuildSourceZoneDecisions(env, zones);
    tbl := RouteTable(ordered, source, tunnelV6);
  }

  // ---------- looking a name up ----------

  /** The merge has taken the entries of both lists in row order so far. */
  ghost predicate Merged(tbl: RouteTable, oi: nat, si: nat)
    requires oi <= |tbl.ordered| && si <= |tbl.source|
  {
    && (oi < |tbl.ordered| ==> forall b :: 0 <= b < si ==> tbl.source[b].index < tbl.ordered[oi].index)
    && (si < |tbl.source| ==> forall a :: 0 <= a < oi ==> tbl.ordered[a].index < tbl.source[si].index)
  }

  /** The entries taken so far did not match. */
  predicate AllPassed(env: Env, zones: seq<Zone>, tbl: RouteTable, name: string, srcIP: string, oi: nat, si: nat)
    requires oi <= |tbl.ordered| && si <= |tbl.source|
  {
    && (forall a :: 0 <= a < oi ==> tbl.ordered[a].index < |zones| && Passed(env, zones[tbl.ordered[a].index], name, srcIP))
    && (forall b :: 0 <= b < si ==> tbl.source[b].index < |zones| && Passed(env, zones[tbl.source[b].index], name, srcIP))
  }

  /** A live row above the next entries of the merge was passed, or is hidden by a catch-all that was. */
  lemma RowAboveIsPassed(env: Env, zones: seq<Zone>, catchAll: int, tbl: RouteTable, name: string, srcIP: string,
                         oi: nat, si: nat, j: nat)
    requires Lawful(env.engine) && BuiltFrom(env, zones, catchAll, tbl)
    requires oi <= |tbl.ordered| && si <= |tbl.source| && j < |zones|
    requires oi < |tbl.ordered| ==> j < tbl.ordered[oi].index
    requires si < |tbl.source| ==> j < tbl.source[si].index
    requires AllPassed(env, zones, tbl, name, srcIP, oi, si)
    ensures Passed(env, zones[j], name, srcIP)
  {
    hide ZoneMatchers, SourceRank, NormalizedName, Lawful, MatchAny, Zone.IsCatchAll, Zone.RouteValue;
    if InSource(zones, j) {
      assert HasSourceRow(tbl.source, j);
      var b :| 0 <= b < |tbl.source| && tbl.source[b].index == j;
      assert b < si;
    } else if InOrdered(zones, catchAll, j) {
      assert HasOrderedRow(tbl.ordered, j);
      var a :| 0 <= a < |tbl.ordered| && tbl.ordered[a].index == j;
      assert a < oi;
    } else if zones[j].Live() {
      // A global rule below the first catch-all: the catch-all stands above j and was passed.
      assert InOrdered(zones, catchAll, catchAll);
      assert HasOrderedRow(tbl.ordered, catchAll);
      var a :| 0 <= a < |tbl.ordered| && tbl.ordered[a].index == catchAll;
      assert a < oi;
      assert Passed(env, zones[tbl.ordered[a].index], name, srcIP);
      CatchAllMatchesEveryName(env, zones[catchAll], name);
      EmptyNameMatchesNothing(env.engine, ZoneMatchers(env, zones[j]), name);
    }
  }

  lemma EmptyNameMatchesNothing(e: RegexEngine, ms: seq<DomainMatcher>, name: string)
    ensures NormalizedName(name) == "" ==> !MatchAny(e, ms, name)
  {
    hide NormalizedName;
  }

  /** The walk from the top gets to row k, where the merge stands. */
  lemma FoundAt(env: Env, zones: seq<Zone>, catchAll: int, tbl: RouteTable, name: string, srcIP: string,
                oi: nat, si: nat, k: nat)
    requires Lawful(env.engine) && BuiltFrom(env, zones, catchAll, tbl)
    requires oi <= |tbl.ordered| && si <= |tbl.source| && k <= |zones|
    requires oi < |tbl.ordered| ==> k <= tbl.ordered[oi].index
    requires si < |tbl.source| ==> k <= tbl.source[si].index
    requires AllPassed(env, zones, tbl, name, srcIP, oi, si)
    ensures Walk(env, zones, tbl.tunnelV6, name, srcIP, 0) == Walk(env, zones, tbl.tunnelV6, name, srcIP, k)
  {
    hide BuiltFrom;
    forall j | 0 <= j < k
      ensures Passed(env, zones[j], name, srcIP)
    {
      RowAboveIsPassed(env, zones, catchAll, tbl, name, srcIP, oi, si, j);
    }
    WalkSkipsPassed(env, zones, tbl.tunnelV6, name, srcIP, 0, k);
  }

  lemma OrderedPicked(env: Env, zones: seq<Zone>, catchAll: int, tbl: RouteTable, oi: nat, si: nat)
    requires BuiltFrom(env, zones, catchAll, tbl) && oi < |tbl.ordered| && si <= |tbl.source|
    requires Merged(tbl, oi, si) && (si < |tbl.source| ==> tbl.ordered[oi].index <= tbl.source[si].index)
    ensures Merged(tbl, oi + 1, si)
    ensures OrderedEntryOk(env, zones, tbl.ordered[oi]) && InOrdered(zones, catchAll, tbl.ordered[oi].index)
  {
    hide ZoneMatchers, SourceRank, Zone.RouteValue, Zone.Live, IsGlobalCatchAll, HasOrderedRow, HasSourceRow;
    if si < |tbl.source| {
      assert InSource(zones, tbl.source[si].index);
    }
  }

  lemma SourcePicked(env: Env, zones: seq<Zone>, catchAll: int, tbl: RouteTable, oi: nat, si: nat)
    requires BuiltFrom(env, zones, catchAll, tbl) && oi <= |tbl.ordered| && si < |tbl.source|
    requires Merged(tbl, oi, si) && (oi < |tbl.ordered| ==> tbl.source[si].index < tbl.ordered[oi].index)
    ensures Merged(tbl, oi, si + 1)
    ensures SourceEntryOk(env, zones, tbl.source[si]) && InSource(zones, tbl.source[si].index)
  {
    hide ZoneMatchers, SourceRank, Zone.RouteValue, Zone.Live, IsGlobalCatchAll, HasOrderedRow, HasSourceRow;
  }

  lemma MergeStarts(env: Env, zones: seq<Zone>, tbl: RouteTable, name: string, srcIP: string)
    ensures Merged(tbl, 0, 0) && AllPassed(env, zones, tbl, name, srcIP, 0, 0)
  {
  }

  /** The next row of the ordered list: it decides, or it is passed. */
  lemma OrderedStep(env: Env, zones: seq<Zone>, catchAll: int, tbl: RouteTable, name: string, srcIP: string, oi: nat, si: nat)
    requires Lawful(env.engine) && BuiltFrom(env, zones, catchAll, tbl) && oi < |tbl.ordered| && si <= |tbl.source|
    requires Merged(tbl, oi, si) && AllPassed(env, zones, tbl, name, srcIP, oi, si)
    requires si < |tbl.source| ==> tbl.ordered[oi].index <= tbl.source[si].index
    ensures Merged(tbl, oi + 1, si)
    ensures var zm := tbl.ordered[oi];
            if MatchAny(env.engine, zm.matchers, name)
            then Walk(env, zones, tbl.tunnelV6, name, srcIP, 0) ==
                 RouteDecision(zm.route, zm.index + 1, zm.route == "tunnel" && !tbl.tunnelV6, false, None)
            else AllPassed(env, zones, tbl, name, srcIP, oi + 1, si)
  {
    hide BuiltFrom, ZoneMatchers, SourceRank, Lawful, MatchAny, NothingToMatch, Zone.RouteValue, Merged;
    OrderedPicked(env, zones, catchAll, tbl, oi, si);
    FoundAt(env, zones, catchAll, tbl, name, srcIP, oi, si, tbl.ordered[oi].index);
  }

  /** The next row of the device list: it decides, or it is passed. */
  lemma SourceStep(env: Env, zones: seq<Zone>, catchAll: int, tbl: RouteTable, name: string, srcIP: string, oi: nat, si: nat)
    requires Lawful(env.engine) && BuiltFrom(env, zones, catchAll, tbl) && oi <= |tbl.ordered| && si < |tbl.source|
    requires Merged(tbl, oi, si) && AllPassed(env, zones, tbl, name, srcIP, oi, si)
    requires oi < |tbl.ordered| ==> tbl.source[si].index < tbl.ordered[oi].index
    ensures Merged(tbl, oi, si + 1)
    ensures var sb := tbl.source[si];
            if env.sourceMatches(srcIP, sb.sources) && (NothingToMatch(sb.matchers) || MatchAny(env.engine, sb.matchers, name))
            then Walk(env, zones, tbl.tunnelV6, name, srcIP, 0) ==
                 RouteDecision(sb.route, sb.index + 1, sb.route == "tunnel" && !tbl.tunnelV6, true, Some(sb.setRank))
            else AllPassed(env, zones, tbl, name, srcIP, oi, si + 1)
  {
    hide BuiltFrom, ZoneMatchers, SourceRank, Lawful, MatchAny, NothingToMatch, Zone.RouteValue, Merged;
    SourcePicked(env, zones, catchAll, tbl, oi, si);
    FoundAt(env, zones, catchAll, tbl, name, srcIP, oi, si, tbl.source[si].index);
  }

  /**
    The two-list merge over a built table answers what walking all the user's
    rules from the top answers, which is what the rules' own fields promise: the
    first live rule that takes the name, its route, row number, AAAA verdict and
    device set.
   */
  method RouteFor(env: Env, ghost zones: seq<Zone>, ghost catchAll: int, tbl: RouteTable, name: string, srcIP: string)
      returns (d: RouteDecision)
    requires Lawful(env.engine) && BuiltFrom(env, zones, catchAll, tbl)
    ensures d == Walk(env, zones, tbl.tunnelV6, name, srcIP, 0)
    ensures Answers(env, zones, tbl.tunnelV6, name, srcIP, d)
  {
    WalkAnswers(env, zones, tbl.tunnelV6, name, srcIP, 0);
    hide BuiltFrom, Answers, Lawful, Merged, AllPassed, Walk, MatchAny, NothingToMatch;
    MergeStarts(env, zones, tbl, name, srcIP);
    var oi, si := 0, 0;
    while oi < |tbl.ordered| || si < |tbl.source|
      invariant 0 <= oi <= |tbl.ordered| && 0 <= si <= |tbl.source|
      invariant Merged(tbl, oi, si)
      invariant AllPassed(env, zones, tbl, name, srcIP, oi, si)
      decreases |tbl.ordered| - oi + |tbl.source| - si
    {
      if si >= |tbl.source| || (oi < |tbl.ordered| && tbl.ordered[oi].index <= tbl.source[si].index) {
        OrderedStep(env, zones, catchAll, tbl, name, srcIP, oi, si);
        var zm := tbl.ordered[oi];
        oi := oi + 1;
        if MatchAny(env.engine, zm.matchers, name) {
          return RouteDecision(zm.route, zm.index + 1, zm.route == "tunnel" && !tbl.tunnelV6, false, None);
        }
        continue;
      }
      SourceStep(env, zones, catchAll, tbl, name, srcIP, oi, si);
      var sb := tbl.source[si];
      si := si + 1;
      if !env.sourceMatches(srcIP, sb.sources) {
        continue;
      }
      if !NothingToMatch(sb.matchers) && !MatchAny(env.engine, sb.matchers, name) {
        continue;
      }
      return RouteDecision(sb.route, sb.index + 1, sb.route == "tunnel" && !tbl.tunnelV6, true, Some(sb.setRank));
    }
    FoundAt(env, zones, catchAll, tbl, name, srcIP, oi, si, |zones|);
    EndOfWalk(env, zones, tbl.tunnelV6, name, srcIP);
    return NO_MATCH;
  }

  lemma EndOfWalk(env: Env, zones: seq<Zone>, tunnelV6: bool, name: string, srcIP: string)
    ensures Walk(env, zones, tunnelV6, name, srcIP, |zones|) == NO_MATCH
  {
  }
}
