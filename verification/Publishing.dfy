/**
  What the running service keeps of a saved state (SetRoutingState and Normalize):
  unset rule modes are filled in, old global modes retired, everything else is as saved.
 */
module Publishing {
  import opened Wrappers
  import opened Text
  import opened Lists
  import opened Zones
  import opened Fallback
  import opened StableSort
  import opened Rules
  import opened Replacement
  import opened ReplacementState

  predicate HasMode(z: Zone) {
    z.mode == "include" || z.mode == "exclude"
  }

  predicate AllHaveModes(zones: seq<Zone>) {
    forall i :: 0 <= i < |zones| ==> HasMode(zones[i])
  }

  function PublishedZone(z: Zone, mode: string): Zone {
    if HasMode(z) then z
    else z.(mode := if mode == "exclude" then "exclude" else "include")
  }

  function PublishedZones(zones: seq<Zone>, mode: string): seq<Zone> {
    if zones == [] then []
    else PublishedZones(zones[..|zones| - 1], mode) + [PublishedZone(zones[|zones| - 1], mode)]
  }

  function Published(r: Routing): Routing {
    Routing(if r.mode == "" then "off" else if r.mode == "include" || r.mode == "exclude" then "zones" else r.mode,
            r.active, PublishedZones(r.zones, r.mode))
  }

  method Normalize(r: Routing) returns (out: Routing)
    ensures out == Published(r)
  {
    var mode := if r.mode == "" then "off" else r.mode;
    var zones: seq<Zone> := [];
    for i := 0 to |r.zones|
      invariant zones == PublishedZones(r.zones[..i], r.mode)
    {
      assert r.zones[..i + 1][..i] == r.zones[..i];
      var z := r.zones[i];
      if z.mode != "include" && z.mode != "exclude" {
        z := z.(mode := if mode == "exclude" then "exclude" else "include");
      }
      zones := zones + [z];
    }
    assert r.zones[..|r.zones|] == r.zones;
    if mode == "include" || mode == "exclude" {
      mode := "zones";
    }
    out := Routing(mode, r.active, zones);
  }

  /** The applied snapshot holds the same rules as the connection, so their modes are filled in there as well. */
  function PublishedEntry(e: Entry): Entry {
    var applied := match e.applied
      case None => None
      case Some(a) => Some(a.(routing := a.routing.(zones := PublishedZones(a.routing.zones, e.config.routing.mode))));
    e.(config := e.config.(routing := Published(e.config.routing)), applied := applied)
  }

  function PublishedEntries(servers: seq<Entry>): seq<Entry> {
    if servers == [] then []
    else PublishedEntries(servers[..|servers| - 1]) + [PublishedEntry(servers[|servers| - 1])]
  }

  /** The live state after `saved` was published. */
  function PublishedState(saved: Persisted): Persisted {
    saved.(servers := PublishedEntries(saved.servers))
  }

  lemma {:induction false} PublishedEntriesMembers(servers: seq<Entry>)
    ensures |PublishedEntries(servers)| == |servers| && EntryIds(PublishedEntries(servers)) == EntryIds(servers)
    ensures forall i :: 0 <= i < |servers| ==> PublishedEntries(servers)[i] == PublishedEntry(servers[i])
  {
    hide Published;
    if servers != [] {
      assert servers == servers[..|servers| - 1] + [servers[|servers| - 1]];
      PublishedEntriesMembers(servers[..|servers| - 1]);
      EntryIdsSnoc(PublishedEntries(servers[..|servers| - 1]), PublishedEntry(servers[|servers| - 1]));
    }
  }

  // ---------- publishing changes no rule but its unset mode ----------

  predicate SameRule(a: Zone, b: Zone) {
    b.(mode := a.mode) == a && (HasMode(a) ==> b == a)
  }

  predicate SameRules(s: seq<Zone>, t: seq<Zone>) {
    |s| == |t| && forall i :: 0 <= i < |s| ==> SameRule(s[i], t[i])
  }

  lemma SameRulesSnoc(s: seq<Zone>, t: seq<Zone>, a: Zone, b: Zone)
    requires SameRules(s, t) && SameRule(a, b)
    ensures SameRules(s + [a], t + [b])
  {
    hide SameRule;
  }

  lemma SameRulesJoin(s: seq<Zone>, t: seq<Zone>, s': seq<Zone>, t': seq<Zone>)
    requires SameRules(s, t) && SameRules(s', t')
    ensures SameRules(s + s', t + t')
  {
    hide SameRule;
  }

  lemma SameRulesSplit(s: seq<Zone>, t: seq<Zone>)
    requires SameRules(s, t) && s != []
    ensures t != [] && SameRules(s[..|s| - 1], t[..|t| - 1]) && SameRule(s[|s| - 1], t[|t| - 1])
  {
    hide SameRule;
  }

  lemma {:induction false} PublishedZonesAreSame(zones: seq<Zone>, mode: string)
    ensures SameRules(zones, PublishedZones(zones, mode))
  {
    if zones != [] {
      hide SameRules;
      var front, z := zones[..|zones| - 1], zones[|zones| - 1];
      PublishedZonesAreSame(front, mode);
      SameRulesSnoc(front, PublishedZones(front, mode), z, PublishedZone(z, mode));
      assert zones == front + [z];
    }
  }

  lemma SameRuleLists(a: Zone, b: Zone, owner: string)
    requires SameRule(a, b) && Explicit(a)
    ensures SameRule(Listed(a, owner), Listed(b, owner))
  {
    hide TrimSpace, Candidates;
  }

  lemma {:induction false} SameRulesList(s: seq<Zone>, t: seq<Zone>, owner: string)
    requires SameRules(s, t) && forall z :: z in s ==> Explicit(z)
    ensures SameRules(ListedAll(s, owner), ListedAll(t, owner))
  {
    if s != [] {
      hide SameRules, SameRule, Listed, Explicit;
      SameRulesSplit(s, t);
      var front, last := s[..|s| - 1], t[..|t| - 1];
      assert s[|s| - 1] in s && forall z :: z in front ==> z in s;
      SameRulesList(front, last, owner);
      SameRuleLists(s[|s| - 1], t[|t| - 1], owner);
      SameRulesSnoc(ListedAll(front, owner), ListedAll(last, owner), Listed(s[|s| - 1], owner), Listed(t[|t| - 1], owner));
    } else {
      assert t == [];
    }
  }

  lemma {:induction false} SameRulesInsert(a: Zone, b: Zone, s: seq<Zone>, t: seq<Zone>)
    requires SameRule(a, b) && SameRules(s, t)
    ensures SameRules(Insert(a, s), Insert(b, t))
  {
    if s != [] {
      hide SameRules;
      SameRulesSplit(s, t);
      SameRulesInsert(a, b, s[..|s| - 1], t[..|t| - 1]);
      SameRulesSnoc(Insert(a, s[..|s| - 1]), Insert(b, t[..|t| - 1]), s[|s| - 1], t[|t| - 1]);
      SameRulesSnoc(s, t, a, b);
    }
  }

  lemma {:induction false} SameRulesSort(s: seq<Zone>, t: seq<Zone>)
    requires SameRules(s, t)
    ensures SameRules(Sort(s), Sort(t))
  {
    if s != [] {
      hide SameRules, SameRule, Insert;
      SameRulesSplit(s, t);
      SameRulesSort(s[..|s| - 1], t[..|t| - 1]);
      SameRulesInsert(s[|s| - 1], t[|t| - 1], Sort(s[..|s| - 1]), Sort(t[..|t| - 1]));
    } else {
      assert t == [];
    }
  }

  lemma {:induction false} SameRulesNumber(s: seq<Zone>, t: seq<Zone>)
    requires SameRules(s, t)
    ensures SameRules(Numbered(s), Numbered(t))
  {
    if s != [] {
      hide SameRules;
      SameRulesSplit(s, t);
      SameRulesNumber(s[..|s| - 1], t[..|t| - 1]);
      var a, b := s[|s| - 1], t[|t| - 1];
      assert |s| == |t| by {
        SameLength(s, t);
      }
      SameRulesSnoc(Numbered(s[..|s| - 1]), Numbered(t[..|t| - 1]),
                    if a.order <= 0 then a.(order := |s|) else a, if b.order <= 0 then b.(order := |s|) else b);
    } else {
      assert t == [];
    }
  }

  lemma SameLength(s: seq<Zone>, t: seq<Zone>)
    requires SameRules(s, t)
    ensures |s| == |t|
  {
  }

  lemma {:induction false} PublishedItemsAreSame(servers: seq<Entry>)
    requires forall i :: 0 <= i < |servers| ==> forall z :: z in servers[i].config.routing.zones ==> Explicit(z)
    ensures SameRules(ServerItems(servers), ServerItems(PublishedEntries(servers)))
  {
    if servers != [] {
      hide SameRules, Explicit, ListedAll, PublishedZones;
      var front, e := servers[..|servers| - 1], servers[|servers| - 1];
      PublishedItemsAreSame(front);
      var r := e.config.routing;
      PublishedZonesAreSame(r.zones, r.mode);
      SameRulesList(r.zones, PublishedZones(r.zones, r.mode), e.id);
      ServerItemsSnoc(PublishedEntries(front), PublishedEntry(e));
      SameRulesJoin(ServerItems(front), ServerItems(PublishedEntries(front)),
                    ListedAll(r.zones, e.id), ListedAll(PublishedZones(r.zones, r.mode), e.id));
    }
  }

  /** Publishing a state changes its listing in nothing but unset modes. */
  lemma PublishedStateListsTheSame(saved: Persisted)
    requires forall i :: 0 <= i < |saved.servers| ==> forall z :: z in saved.servers[i].config.routing.zones ==> Explicit(z)
    ensures SameRules(ListRules(saved.servers, saved.pending),
                      ListRules(PublishedState(saved).servers, PublishedState(saved).pending))
  {
    hide SameRules, SameRule, Explicit, ServerItems, PublishedEntries, Sort, Numbered, ListedAll;
    PublishedItemsAreSame(saved.servers);
    var waiting := ListedAll(Detached(saved.pending), "");
    SameRulesRefl(waiting);
    SameRulesJoin(ServerItems(saved.servers), ServerItems(PublishedEntries(saved.servers)), waiting, waiting);
    SameRulesSort(Items(saved.servers, saved.pending), Items(PublishedEntries(saved.servers), saved.pending));
    SameRulesNumber(Sort(Items(saved.servers, saved.pending)), Sort(Items(PublishedEntries(saved.servers), saved.pending)));
  }

  lemma SameRulesRefl(s: seq<Zone>)
    ensures SameRules(s, s)
  {
  }

  // ---------- when publishing changes nothing ----------

  /** Publishing leaves a list of rules alone exactly when each has a mode. */
  lemma {:induction false} PublishedZonesFixed(zones: seq<Zone>, mode: string)
    ensures PublishedZones(zones, mode) == zones <==> AllHaveModes(zones)
  {
    if zones != [] {
      var front, z := zones[..|zones| - 1], zones[|zones| - 1];
      PublishedZonesFixed(front, mode);
      PublishedZonesAreSame(front, mode);
      assert zones == front + [z];
      hide PublishedZones;
      SplitLast(zones, PublishedZones(front, mode), PublishedZone(z, mode));
    }
  }

  lemma SplitLast(zones: seq<Zone>, front: seq<Zone>, z: Zone)
    requires zones != [] && |front| == |zones| - 1
    ensures front + [z] == zones <==> front == zones[..|zones| - 1] && z == zones[|zones| - 1]
    ensures AllHaveModes(zones) <==> AllHaveModes(zones[..|zones| - 1]) && HasMode(zones[|zones| - 1])
  {
    if front + [z] == zones {
      assert (front + [z])[..|zones| - 1] == front;
    }
    assert forall i :: 0 <= i < |zones| - 1 ==> zones[..|zones| - 1][i] == zones[i];
  }

  predicate HasCurrentMode(e: Entry) {
    e.config.routing.mode !in ["", "include", "exclude"]
  }

  /** The connection has a current routing mode, and every rule it holds has a mode. */
  predicate Settled(e: Entry) {
    && HasCurrentMode(e)
    && AllHaveModes(e.config.routing.zones)
    && (e.applied.Some? ==> AllHaveModes(e.applied.value.routing.zones))
  }

  lemma PublishedEntryFixed(e: Entry)
    ensures PublishedEntry(e) == e <==> Settled(e)
  {
    hide PublishedZones, AllHaveModes;
    var r := e.config.routing;
    PublishedZonesFixed(r.zones, r.mode);
    if e.applied.Some? {
      PublishedZonesFixed(e.applied.value.routing.zones, r.mode);
    }
  }

  /** Publishing a state changes nothing exactly when all its connections are settled. */
  lemma PublishedStateFixed(saved: Persisted)
    ensures PublishedState(saved) == saved <==> forall i :: 0 <= i < |saved.servers| ==> Settled(saved.servers[i])
  {
    hide PublishedEntries, PublishedEntry, Settled;
    PublishedEntriesMembers(saved.servers);
    forall i | 0 <= i < |saved.servers|
      ensures PublishedEntry(saved.servers[i]) == saved.servers[i] <==> Settled(saved.servers[i])
    {
      PublishedEntryFixed(saved.servers[i]);
    }
    if PublishedState(saved) == saved {
      assert PublishedEntries(saved.servers) == saved.servers;
    }
  }
}
