/** Two states in which a replacement shows what it does not promise. */
module RuleBookCases {
  import opened Wrappers
  import opened Text
  import opened Lists
  import opened Zones
  import opened Fallback
  import opened StableSort
  import opened Rules
  import opened SaveRules
  import opened BackupGraph
  import opened Replacement
  import opened ReplacementState
  import opened Publishing
  import opened RuleBook

  function Rule(waiting: bool, id: string, mode: string): Zone {
    Zone(waiting, "rule", id, [], 1, "tunnel", mode, ["example.org"], None, [], [], true)
  }

  function Connection(id: string, rules: seq<Zone>): Entry {
    Entry(id, id, Config(Routing("zones", true, rules), [], false, ""), None)
  }

  /** Connections "a" and "b"; the rules are stored under "b". */
  function TwoConnections(rules: seq<Zone>, pending: seq<Zone>): Persisted {
    Persisted("a", [Connection("a", []), Connection("b", rules)], "zones", pending, map[], "")
  }

  lemma NamesAreTrimmedTexts()
    ensures TrimSpace("a") == "a" && TrimSpace("b") == "b"
  {
  }

  lemma NamesOfTwo(rules: seq<Zone>)
    ensures var servers := [Connection("a", []), Connection("b", rules)];
            && EntryIds(servers) == ["a", "b"] && WellNamed(servers)
            && Find(servers, "a") == Some(Connection("a", [])) && Find(servers, "b") == Some(Connection("b", rules))
            && Others(servers, "a") == [Connection("b", rules)]
  {
    hide TrimSpace;
    var a, b := Connection("a", []), Connection("b", rules);
    IdsOfTwo(a, b);
    NamesAreTrimmedTexts();
    assert [a, b][..1] == [a] && [a][..0] == [];
    assert Others([a], "a") == [];
    assert forall x :: x in ["a", "b"] ==> x == "a" || x == "b";
  }

  lemma NoIds()
    ensures EntryIds([]) == []
  {
  }

  lemma IdsOfTwo(a: Entry, b: Entry)
    ensures EntryIds([a, b]) == [a.id, b.id]
  {
    hide EntryIds;
    NoIds();
    EntryIdsSnoc([], a);
    EntryIdsSnoc([a], b);
    assert [] + [a] == [a] && [a] + [b] == [a, b];
  }

  lemma NoBackups()
    ensures ReplacementFallbacks("b", [], "a", "b") == []
  {
    assert RenamedAll([], "a", "b") == [];
    assert Ids([]) == [];
    assert Without([], TrimSpace("b")) == [];
  }

  lemma TwoConnectionsAreReplaceable(rules: seq<Zone>, pending: seq<Zone>)
    ensures var memory := TwoConnections(rules, pending);
            && EntryIds(memory.servers) == ["a", "b"]
            && Replaceable(memory, Connection("a", []), "b")
            && CanDelete(memory, "a", "b")
  {
    hide EntryIds, WellNamed, Find, Others, RetainedRefs, RetargetedAll, ListRules, Part, WaitingRules, GraphOf, Acyclic, ReplacedEntries;
    var memory := TwoConnections(rules, pending);
    NamesOfTwo(rules);
    assert memory.servers[0] in memory.servers;
    NoBackupsNoCycle(memory, rules);
  }

  lemma OneConnectionRemains(memory: Persisted, rules: seq<Zone>) returns (after: Entry)
    requires memory.servers == [Connection("a", []), Connection("b", rules)]
    ensures Target(memory, Connection("a", []), "b").servers == [after] && after.id == "b" && after.config.fallbacks == []
  {
    hide RetainedRefs, RetargetedAll, ListRules, Part, WaitingRules, ReplacementFallbacks, Others, TransferActive, WellNamed;
    var a, b := Connection("a", []), Connection("b", rules);
    NamesOfTwo(rules);
    NoBackups();
    var listed := ListRules(memory.servers, memory.pending);
    var zones, transfer := RetargetedAll(listed, "a", "b"), TransferActive(a, listed);
    assert b.config.fallbacks + a.config.fallbacks == [];
    after := ReplacedEntry(b, a, "b", zones, transfer);
    assert [b][..0] == [];
    assert ReplacedEntries([b], a, "b", zones, transfer) == [after];
  }

  lemma NoBackupsNoCycle(memory: Persisted, rules: seq<Zone>)
    requires memory.servers == [Connection("a", []), Connection("b", rules)]
    ensures Acyclic(GraphOf(Target(memory, Connection("a", []), "b").servers))
  {
    hide Target;
    var after := OneConnectionRemains(memory, rules);
    assert [after][..0] == [];
    var g := GraphOf([after]);
    assert g == GraphOf([])["b" := []];
    forall p
      ensures !IsCycle(g, p)
    {
      assert |p| >= 2 ==> !Edge(g, p[0], p[1]);
    }
  }

  lemma OneRuleListed(z: Zone)
    requires z.order > 0
    ensures Numbered(Sort([z])) == [z]
  {
    assert [z][..0] == [];
    assert Sort([z]) == [z];
  }

  /** One rule under "b" or waiting is listed as it is. */
  lemma ListingOfOne(z: Zone, servers: seq<Entry>, pending: seq<Zone>)
    requires z.order > 0 && Listed(z, "b") == z && Listed(z, "") == z
    requires if z.waiting then servers == TwoConnections([], [z]).servers && pending == [z]
             else servers == TwoConnections([z], []).servers && pending == []
    ensures ListRules(servers, pending) == [z]
  {
    hide Listed, Sort, Numbered;
    var a := Connection("a", []);
    assert [z][..0] == [] && [a][..0] == [] && servers[..1] == [a];
    assert ServerItems([a]) == [];
    assert ListedAll([z], "b") == [z] && ListedAll([z], "") == [z];
    assert z.waiting ==> Detached([z]) == [z];
    assert Items(servers, pending) == [z];
    OneRuleListed(z);
  }

  lemma RuleShows(z: Zone)
    requires z == Rule(false, "gone", "include") || z == Rule(true, "a", "")
    ensures Listed(z, "b") == z && Listed(z, "") == z
  {
    assert TrimSpace(z.tunnelID) == z.tunnelID;
    if !z.waiting {
      CandidatesArePrimaryThenBackups(z.tunnelID, []);
      assert Ids([]) == [];
    }
  }

  /** A rule stored with the name of a connection that is not there is listed before the replacement and lost by it. */
  lemma DanglingRuleIsLost()
    ensures var memory := TwoConnections([Rule(false, "gone", "include")], []);
            var after := PublishedState(Target(memory, Connection("a", []), "b"));
            && CanDelete(memory, "a", "b")
            && ListRules(memory.servers, memory.pending) == [Rule(false, "gone", "include")]
            && ListRules(after.servers, after.pending) == []
  {
    hide ListRules, Replaceable, CanDelete, PublishedState, Target, EntryIds, MovedAs, Listed;
    var z := Rule(false, "gone", "include");
    var memory := TwoConnections([z], []);
    TwoConnectionsAreReplaceable([z], []);
    RuleShows(z);
    ListingOfOne(z, memory.servers, []);
    PublishedTargetListsTheRest(memory, Connection("a", []), "b");
    NoSurvivor(z, memory.servers);
  }

  lemma NoSurvivor(z: Zone, servers: seq<Entry>)
    requires !z.waiting && z.tunnelID !in EntryIds(servers)
    ensures Survivors([z], servers) == []
  {
    assert [z][..0] == [];
  }

  /**
    A waiting rule without a mode that names the deleted connection is saved as it
    is; once it has moved, memory has a mode for it and the disk has not.
   */
  lemma UnsetModeSeparatesMemoryFromDisk(refs: map<string, Ref>, defaultID: string)
    ensures var z := Rule(true, "a", "");
            var memory := TwoConnections([], [z]);
            && SavedZone(z, 1, EntryIds(memory.servers), refs, defaultID) == Ok(z)
            && CanDelete(memory, "a", "b")
            && PublishedState(Target(memory, Connection("a", []), "b")) != Target(memory, Connection("a", []), "b")
  {
    hide ListRules, Replaceable, CanDelete, PublishedState, Target, EntryIds, Listed;
    var z := Rule(true, "a", "");
    var memory := TwoConnections([], [z]);
    TwoConnectionsAreReplaceable([], [z]);
    RuleShows(z);
    ListingOfOne(z, memory.servers, [z]);
    TargetIsSettled(memory, Connection("a", []), "b");
    assert GoesToConnection([z][0], memory.servers, "a");
  }
}
