/** Handing a deleted connection's rules and references to another one (awgReplacementState in delete_replacement.go). */
module Replacement {
  import opened Wrappers
  import opened Text
  import opened Lists
  import opened Zones
  import opened Fallback
  import opened StableSort
  import opened Rules
  import opened BackupGraph

  // ---------- renaming references ----------

  function Renamed(id: string, source: string, target: string): string {
    if TrimSpace(id) == source then target else TrimSpace(id)
  }

  function RenamedAll(ids: seq<string>, source: string, target: string): seq<string> {
    if ids == [] then []
    else RenamedAll(ids[..|ids| - 1], source, target) + [Renamed(ids[|ids| - 1], source, target)]
  }

  function ReplacementFallbacks(primary: string, fallbacks: seq<string>, source: string, target: string): seq<string> {
    Backups(primary, RenamedAll(fallbacks, source, target))
  }

  method AwgReplacementFallbacks(primary: string, fallbacks: seq<string>, source: string, target: string) returns (out: seq<string>)
    ensures out == ReplacementFallbacks(primary, fallbacks, source, target)
  {
    hide Backups, TrimSpace;
    var mapped: seq<string> := [];
    for i := 0 to |fallbacks|
      invariant mapped == RenamedAll(fallbacks[..i], source, target)
    {
      assert fallbacks[..i + 1][..i] == fallbacks[..i];
      var id := TrimSpace(fallbacks[i]);
      if id == source {
        id := target;
      }
      mapped := mapped + [id];
    }
    assert fallbacks[..|fallbacks|] == fallbacks;
    var r := NormalizeFallbackTunnelIDs(primary, mapped, id => true);
    out := r.value;
  }

  lemma {:induction false} RenamedMembers(ids: seq<string>, source: string, target: string)
    ensures |RenamedAll(ids, source, target)| == |ids|
    ensures forall i :: 0 <= i < |ids| ==> RenamedAll(ids, source, target)[i] == Renamed(ids[i], source, target)
  {
    hide TrimSpace;
    if ids != [] {
      RenamedMembers(ids[..|ids| - 1], source, target);
    }
  }

  /** The renamed backup list: what was there, with target for source, without the primary and without repetition. */
  lemma ReplacementFallbacksMembers(primary: string, fallbacks: seq<string>, source: string, target: string)
    requires source != target && target != "" && TrimSpace(target) == target
    ensures var r := ReplacementFallbacks(primary, fallbacks, source, target);
            && source !in r && NoDuplicates(r) && Clean(r) && TrimSpace(primary) !in r
            && forall x :: x in r <==>
                 x != "" && x != TrimSpace(primary) && exists i :: 0 <= i < |fallbacks| && Renamed(fallbacks[i], source, target) == x
  {
    var mapped := RenamedAll(fallbacks, source, target);
    BackupsMembers(primary, mapped);
    RenamedMembers(fallbacks, source, target);
    forall i | 0 <= i < |fallbacks|
      ensures TrimSpace(mapped[i]) == Renamed(fallbacks[i], source, target)
      ensures TrimSpace(mapped[i]) != source
    {
      TrimSpaceTrims(fallbacks[i]);
    }
  }

  // ---------- rules ----------

  /** One rule of the listing after the replacement; `rank` is its place in the listing. */
  function Retargeted(z: Zone, rank: nat, source: string, target: string): Zone {
    var moved := if z.tunnelID == source then z.(order := rank, tunnelID := target, waiting := false) else z.(order := rank);
    moved.(fallbacks := ReplacementFallbacks(moved.tunnelID, z.fallbacks, source, target))
  }

  function RetargetedAll(rules: seq<Zone>, source: string, target: string): seq<Zone> {
    if rules == [] then []
    else RetargetedAll(rules[..|rules| - 1], source, target) + [Retargeted(rules[|rules| - 1], |rules|, source, target)]
  }

  lemma {:induction false} RetargetedMembers(rules: seq<Zone>, source: string, target: string)
    ensures |RetargetedAll(rules, source, target)| == |rules|
    ensures forall i :: 0 <= i < |rules| ==> RetargetedAll(rules, source, target)[i] == Retargeted(rules[i], i + 1, source, target)
  {
    hide Retargeted;
    if rules != [] {
      RetargetedMembers(rules[..|rules| - 1], source, target);
    }
  }

  lemma RetargetedAreRanked(rules: seq<Zone>, source: string, target: string)
    ensures Ranked(RetargetedAll(rules, source, target))
  {
    hide ReplacementFallbacks;
    RetargetedMembers(rules, source, target);
  }

  // ---------- connections ----------

  function Find(servers: seq<Entry>, id: string): Option<Entry> {
    if servers == [] then None
    else if servers[|servers| - 1].id == id then Some(servers[|servers| - 1])
    else Find(servers[..|servers| - 1], id)
  }

  function Others(servers: seq<Entry>, id: string): seq<Entry> {
    if servers == [] then []
    else
      var e := servers[|servers| - 1];
      Others(servers[..|servers| - 1], id) + (if e.id == id then [] else [e])
  }

  /** Some enabled rule of an active source moves, or the source carries all traffic. */
  function TransferActive(source: Entry, rules: seq<Zone>): bool {
    source.config.routing.active &&
    (source.config.routing.mode == "full" || exists i :: 0 <= i < |rules| && rules[i].tunnelID == source.id && rules[i].enabled)
  }

  function ReplacedConfig(e: Entry, source: Entry, target: string, zones: seq<Zone>, transfer: bool): Config {
    var gains := e.id == target && transfer && e.config.routing.mode != "off";
    var backups := if e.id == target then e.config.fallbacks + source.config.fallbacks else e.config.fallbacks;
    e.config.(
      routing := e.config.routing.(zones := Part(zones, e.id), active := gains || e.config.routing.active),
      standby := !gains && e.config.standby,
      fallbacks := ReplacementFallbacks(e.id, backups, source.id, target))
  }

  /** The applied snapshot keeps its wire settings and takes over the local policy. */
  function ReplacedEntry(e: Entry, source: Entry, target: string, zones: seq<Zone>, transfer: bool): Entry {
    var config := ReplacedConfig(e, source, target, zones, transfer);
    var applied := match e.applied
      case None => None
      case Some(a) => Some(a.(fallbacks := config.fallbacks, standby := config.standby, routing := config.routing));
    e.(config := config, applied := applied)
  }

  function ReplacedEntries(servers: seq<Entry>, source: Entry, target: string, zones: seq<Zone>, transfer: bool): seq<Entry> {
    if servers == [] then []
    else
      ReplacedEntries(servers[..|servers| - 1], source, target, zones, transfer)
      + [ReplacedEntry(servers[|servers| - 1], source, target, zones, transfer)]
  }

  function Candidate(before: Persisted, rules: seq<Zone>, source: Entry, target: string): Persisted {
    var zones := RetargetedAll(rules, source.id, target);
    var servers := ReplacedEntries(Others(before.servers, source.id), source, target, zones, TransferActive(source, rules));
    before.(activeID := if before.activeID == source.id then target else before.activeID,
            servers := servers, pending := WaitingRules(zones),
            refs := RetainedRefs(before.refs, WaitingRules(zones), servers))
  }

  /** The backup lists of the connections. */
  function GraphOf(servers: seq<Entry>): Graph {
    if servers == [] then map[]
    else GraphOf(servers[..|servers| - 1])[servers[|servers| - 1].id := servers[|servers| - 1].config.fallbacks]
  }

  // ---------- membership facts ----------

  lemma {:induction false} OthersMembers(servers: seq<Entry>, id: string)
    ensures forall e :: e in Others(servers, id) <==> e in servers && e.id != id
  {
    if servers != [] {
      OthersMembers(servers[..|servers| - 1], id);
      assert servers == servers[..|servers| - 1] + [servers[|servers| - 1]];
    }
  }

  lemma EntryIdsSnoc(servers: seq<Entry>, e: Entry)
    ensures EntryIds(servers + [e]) == EntryIds(servers) + [e.id]
  {
    assert (servers + [e])[..|servers + [e]| - 1] == servers;
  }

  lemma {:induction false} EntryIdsMembers(servers: seq<Entry>)
    ensures |EntryIds(servers)| == |servers|
    ensures forall i :: 0 <= i < |servers| ==> EntryIds(servers)[i] == servers[i].id
  {
    if servers != [] {
      EntryIdsMembers(servers[..|servers| - 1]);
    }
  }

  lemma OneMoreName(names: seq<string>, x: string)
    ensures NoDuplicates(names + [x]) <==> NoDuplicates(names) && x !in names
  {
    if NoDuplicates(names + [x]) {
      assert forall i :: 0 <= i < |names| ==> (names + [x])[i] == names[i];
      assert (names + [x])[|names|] == x;
    }
  }

  lemma {:induction false} OthersIds(servers: seq<Entry>, id: string)
    requires NoDuplicates(EntryIds(servers))
    ensures NoDuplicates(EntryIds(Others(servers, id)))
    ensures forall x :: x in EntryIds(Others(servers, id)) <==> x in EntryIds(servers) && x != id
  {
    if servers != [] {
      var front, e := servers[..|servers| - 1], servers[|servers| - 1];
      assert EntryIds(servers) == EntryIds(front) + [e.id];
      OneMoreName(EntryIds(front), e.id);
      OthersIds(front, id);
      if e.id == id {
        assert Others(servers, id) == Others(front, id);
      } else {
        assert Others(servers, id) == Others(front, id) + [e];
        EntryIdsSnoc(Others(front, id), e);
        OneMoreName(EntryIds(Others(front, id)), e.id);
      }
    }
  }

  lemma {:induction false} ReplacedEntriesMembers(servers: seq<Entry>, source: Entry, target: string, zones: seq<Zone>, transfer: bool)
    ensures var r := ReplacedEntries(servers, source, target, zones, transfer);
            && |r| == |servers| && EntryIds(r) == EntryIds(servers)
            && forall i :: 0 <= i < |servers| ==> r[i] == ReplacedEntry(servers[i], source, target, zones, transfer)
  {
    hide ReplacedEntry, EntryIds;
    EntryIdsMembers([]);
    if servers != [] {
      assert servers == servers[..|servers| - 1] + [servers[|servers| - 1]];
      EntryIdsSnoc(servers[..|servers| - 1], servers[|servers| - 1]);
      var last := servers[|servers| - 1];
      ReplacedEntriesMembers(servers[..|servers| - 1], source, target, zones, transfer);
      EntryIdsSnoc(ReplacedEntries(servers[..|servers| - 1], source, target, zones, transfer),
                   ReplacedEntry(last, source, target, zones, transfer));
      ReplacedEntryId(last, source, target, zones, transfer);
    }
  }

  lemma ReplacedEntryId(e: Entry, source: Entry, target: string, zones: seq<Zone>, transfer: bool)
    ensures ReplacedEntry(e, source, target, zones, transfer).id == e.id
    ensures ReplacedEntry(e, source, target, zones, transfer).config.routing.zones == Part(zones, e.id)
  {
  }

  // ---------- the rules keep their order ----------

  /** The source is one of several well-named connections, the target another. */
  predicate Replaceable(before: Persisted, source: Entry, target: string) {
    && WellNamed(before.servers)
    && source in before.servers
    && target in EntryIds(before.servers) && target != source.id
  }

  lemma NamesAreClean(before: Persisted, source: Entry, target: string)
    requires Replaceable(before, source, target)
    ensures source.id != target && source.id in EntryIds(before.servers)
    ensures forall id :: id in EntryIds(before.servers) ==> id != "" && TrimSpace(id) == id
    ensures target in EntryIds(before.servers)
  {
    EntryIdsMembers(before.servers);
    var i :| 0 <= i < |before.servers| && before.servers[i] == source;
    assert EntryIds(before.servers)[i] == source.id;
  }

  lemma RemainingAreWellNamed(before: Persisted, rules: seq<Zone>, source: Entry, target: string)
    requires Replaceable(before, source, target)
    ensures var after := Candidate(before, rules, source, target);
            && WellNamed(after.servers)
            && forall x :: x in EntryIds(after.servers) <==> x in EntryIds(before.servers) && x != source.id
  {
    hide TrimSpace, RetargetedAll, WaitingRules, RetainedRefs, TransferActive;
    OthersIds(before.servers, source.id);
    var zones := RetargetedAll(rules, source.id, target);
    ReplacedEntriesMembers(Others(before.servers, source.id), source, target, zones, TransferActive(source, rules));
  }

  /** What the listing shows after the replacement: every rule that names a remaining connection or waits, in the old order. */
  lemma ReplacedRulesListBack(before: Persisted, rules: seq<Zone>, source: Entry, target: string)
    requires Replaceable(before, source, target)
    ensures var after := Candidate(before, rules, source, target);
            ListRules(after.servers, after.pending) ==
            ListedAll(Kept(RetargetedAll(rules, source.id, target), EntryIds(after.servers)), "")
  {
    hide TrimSpace, RetargetedAll, WaitingRules, RetainedRefs, TransferActive, ReplacedEntry, Part, WellNamed, ListRules, ListedAll, Kept;
    var zones := RetargetedAll(rules, source.id, target);
    var others := Others(before.servers, source.id);
    var transfer := TransferActive(source, rules);
    var after := Candidate(before, rules, source, target);
    RemainingAreWellNamed(before, rules, source, target);
    ReplacedEntriesMembers(others, source, target, zones, transfer);
    forall i | 0 <= i < |after.servers|
      ensures after.servers[i].config.routing.zones == Part(zones, after.servers[i].id)
    {
      ReplacedEntryId(others[i], source, target, zones, transfer);
    }
    RetargetedAreRanked(rules, source.id, target);
    SplitListsBack(after.servers, after.pending, zones);
  }

  predicate NamesConnection(z: Zone, servers: seq<Entry>) {
    z.waiting || z.tunnelID in EntryIds(servers)
  }

  /** The rule after the replacement, as the listing shows it. */
  predicate ReplacedAs(z: Zone, shown: Zone, rank: nat, source: string, target: string) {
    && shown.order == rank
    && shown.name == z.name && shown.enabled == z.enabled && shown.domains == z.domains && shown.ips == z.ips
    && shown.sourceIPs == z.sourceIPs && shown.includeSubdomains == z.includeSubdomains && shown.mode == z.mode
    && shown.RouteValue() == z.RouteValue()
    && shown.tunnelID == TrimSpace(if z.tunnelID == source then target else z.tunnelID)
    && shown.waiting == (z.waiting && z.tunnelID != source)
    && shown.fallbacks == (if shown.waiting || z.RouteValue() == "tunnel"
                           then ReplacementFallbacks(shown.tunnelID, z.fallbacks, source, target)
                           else [])
  }

  lemma RetargetedShows(z: Zone, rank: nat, source: string, target: string)
    requires source != target && target != "" && TrimSpace(target) == target
    requires z.waiting || TrimSpace(z.tunnelID) != ""
    requires TrimSpace(z.tunnelID) == z.tunnelID
    ensures ReplacedAs(z, Listed(Retargeted(z, rank, source, target), ""), rank, source, target)
  {
    hide TrimSpace, ReplacementFallbacks, Listed, Clean, NoDuplicates;
    var r := Retargeted(z, rank, source, target);
    ReplacementFallbacksMembers(r.tunnelID, z.fallbacks, source, target);
    CanonicalRuleShows(r);
  }

  /** A rule that names one of the connections or waits still does after the source is gone. */
  lemma RetargetedStaysNamed(z: Zone, rank: nat, source: string, target: string, ids: seq<string>, remaining: seq<string>)
    requires source in ids && target in ids && target != source
    requires forall x :: x in remaining <==> x in ids && x != source
    ensures var r := Retargeted(z, rank, source, target);
            r.waiting || r.tunnelID in remaining <==> z.waiting || z.tunnelID in ids
  {
    hide ReplacementFallbacks;
  }

  /** Listing a rule whose backup list is canonical only spells out its route. */
  lemma CanonicalRuleShows(z: Zone)
    requires TrimSpace(z.tunnelID) == z.tunnelID && (z.waiting || z.tunnelID != "")
    requires Clean(z.fallbacks) && NoDuplicates(z.fallbacks) && TrimSpace(z.tunnelID) !in z.fallbacks
    ensures Listed(z, "") == z.(route := z.RouteValue(),
                                fallbacks := if z.waiting || z.RouteValue() == "tunnel" then z.fallbacks else [])
  {
    hide TrimSpace, Candidates, Backups;
    if !z.waiting {
      CandidatesArePrimaryThenBackups(z.tunnelID, z.fallbacks);
      BackupsAreCanonical(z.tunnelID, z.fallbacks);
    }
  }

  lemma RetargetedAllStayNamed(rules: seq<Zone>, source: string, target: string, ids: seq<string>, remaining: seq<string>)
    requires source in ids && target in ids && target != source
    requires forall x :: x in remaining <==> x in ids && x != source
    ensures var zones := RetargetedAll(rules, source, target);
            && |zones| == |rules|
            && forall i :: 0 <= i < |rules| ==>
                 (zones[i].waiting || zones[i].tunnelID in remaining <==> rules[i].waiting || rules[i].tunnelID in ids)
  {
    hide Retargeted;
    RetargetedMembers(rules, source, target);
    forall i | 0 <= i < |rules|
      ensures var r := Retargeted(rules[i], i + 1, source, target);
              r.waiting || r.tunnelID in remaining <==> rules[i].waiting || rules[i].tunnelID in ids
    {
      RetargetedStaysNamed(rules[i], i + 1, source, target, ids, remaining);
    }
  }

  // ---------- which rules survive ----------

  /** The positions of the rules that name a connection or wait, in order. */
  function Survivors(rules: seq<Zone>, servers: seq<Entry>): (r: seq<nat>)
    ensures |r| <= |rules| && forall k :: 0 <= k < |r| ==> r[k] < |rules|
  {
    if rules == [] then []
    else
      var n := |rules| - 1;
      Survivors(rules[..n], servers) + (if NamesConnection(rules[n], servers) then [n] else [])
  }

  /** They are those positions and no others, in rising order. */
  lemma {:induction false} SurvivorsAreTheNamed(rules: seq<Zone>, servers: seq<Entry>)
    ensures var r := Survivors(rules, servers);
            && (forall k, l :: 0 <= k < l < |r| ==> r[k] < r[l])
            && (forall i :: 0 <= i < |rules| ==> (i in r <==> NamesConnection(rules[i], servers)))
  {
    hide NamesConnection;
    if rules != [] {
      var n := |rules| - 1;
      SurvivorsAreTheNamed(rules[..n], servers);
      assert forall i :: 0 <= i < n ==> rules[..n][i] == rules[i];
    }
  }

  /** All rules survive exactly when every rule names a connection or waits. */
  lemma {:induction false} AllSurvive(rules: seq<Zone>, servers: seq<Entry>)
    ensures var r := Survivors(rules, servers);
            && (|r| == |rules| <==> forall i :: 0 <= i < |rules| ==> NamesConnection(rules[i], servers))
            && (|r| == |rules| ==> forall i :: 0 <= i < |rules| ==> r[i] == i)
  {
    hide NamesConnection;
    if rules != [] {
      AllSurvive(rules[..|rules| - 1], servers);
    }
  }

  lemma {:induction false} KeptAreTheSurvivors(zones: seq<Zone>, ids: seq<string>, rules: seq<Zone>, servers: seq<Entry>)
    requires |zones| == |rules|
    requires forall i :: 0 <= i < |rules| ==> (zones[i].waiting || zones[i].tunnelID in ids <==> NamesConnection(rules[i], servers))
    ensures |Kept(zones, ids)| == |Survivors(rules, servers)|
    ensures forall k :: 0 <= k < |Survivors(rules, servers)| ==> Kept(zones, ids)[k] == zones[Survivors(rules, servers)[k]]
  {
    hide NamesConnection;
    if rules != [] {
      var n := |rules| - 1;
      KeptAreTheSurvivors(zones[..n], ids, rules[..n], servers);
    }
  }

  /** The listing is, in order, these rules, each as `ReplacedAs` says. */
  predicate ShowsSurvivors(rules: seq<Zone>, servers: seq<Entry>, shown: seq<Zone>, source: string, target: string) {
    var rest := Survivors(rules, servers);
    && |shown| == |rest|
    && forall k :: 0 <= k < |rest| ==>
         (TrimSpace(rules[rest[k]].tunnelID) == rules[rest[k]].tunnelID ==>
            ReplacedAs(rules[rest[k]], shown[k], rest[k] + 1, source, target))
  }

  lemma RetargetedRuleShows(rules: seq<Zone>, i: nat, source: string, target: string)
    requires source != target && target != "" && TrimSpace(target) == target
    requires i < |rules| && (rules[i].waiting || rules[i].tunnelID != "") && TrimSpace(rules[i].tunnelID) == rules[i].tunnelID
    ensures |RetargetedAll(rules, source, target)| == |rules|
    ensures ReplacedAs(rules[i], Listed(RetargetedAll(rules, source, target)[i], ""), i + 1, source, target)
  {
    hide Retargeted, TrimSpace, ReplacedAs, Listed;
    RetargetedMembers(rules, source, target);
    RetargetedShows(rules[i], i + 1, source, target);
  }

  /**
    After the replacement the listing shows exactly the rules that name a connection
    or wait, in the old order, with target for source in primaries and backups.
   */
  lemma ReplacementLosesOnlyDanglingRules(before: Persisted, rules: seq<Zone>, source: Entry, target: string)
    requires Replaceable(before, source, target)
    ensures var after := Candidate(before, rules, source, target);
            ShowsSurvivors(rules, before.servers, ListRules(after.servers, after.pending), source.id, target)
  {
    hide TrimSpace, Listed, ListRules, ReplacedAs, Replaceable, Candidate, WellNamed, RetargetedAll, EntryIds, Kept, ListedAll, Survivors;
    var zones := RetargetedAll(rules, source.id, target);
    var remaining := EntryIds(Candidate(before, rules, source, target).servers);
    var rest := Survivors(rules, before.servers);
    ReplacedRulesListBack(before, rules, source, target);
    RemainingAreWellNamed(before, rules, source, target);
    NamesAreClean(before, source, target);
    RetargetedAllStayNamed(rules, source.id, target, EntryIds(before.servers), remaining);
    KeptAreTheSurvivors(zones, remaining, rules, before.servers);
    ListedKeepsRanks(Kept(zones, remaining), "");
    SurvivorsAreTheNamed(rules, before.servers);
    forall k | 0 <= k < |rest| && TrimSpace(rules[rest[k]].tunnelID) == rules[rest[k]].tunnelID
      ensures ReplacedAs(rules[rest[k]], Listed(zones[rest[k]], ""), rest[k] + 1, source.id, target)
    {
      assert rest[k] in rest;
      RetargetedRuleShows(rules, rest[k], source.id, target);
    }
  }

  /** When every rule names a connection or waits, every rule is listed. */
  lemma ReplacementKeepsEveryRule(before: Persisted, rules: seq<Zone>, source: Entry, target: string)
    requires Replaceable(before, source, target)
    requires forall i :: 0 <= i < |rules| ==> NamesConnection(rules[i], before.servers) && TrimSpace(rules[i].tunnelID) == rules[i].tunnelID
    ensures var after := Candidate(before, rules, source, target);
            var shown := ListRules(after.servers, after.pending);
            && |shown| == |rules|
            && forall i :: 0 <= i < |rules| ==> ReplacedAs(rules[i], shown[i], i + 1, source.id, target)
  {
    hide TrimSpace, ReplacedAs, ListRules, Replaceable, Candidate, NamesConnection, Survivors;
    ReplacementLosesOnlyDanglingRules(before, rules, source, target);
    AllSurvive(rules, before.servers);
  }
}
