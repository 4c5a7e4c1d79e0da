/** Saving a rule list (awgSaveRoutingRulesWithRefs in awgroute.go). */
module SaveRules {
  import opened Wrappers
  import opened Text
  import opened Lists
  import opened Zones
  import opened Fallback
  import opened StableSort
  import opened Rules

  datatype SaveError = BadReference | NoConnections | UnknownTunnel(id: string) | UnknownBackup(id: string) | WriteError

  // ---------- one rule ----------

  function FirstMissing(ids: seq<string>, known: string -> bool): Option<string> {
    if ids == [] then None
    else if !known(ids[0]) then Some(ids[0])
    else FirstMissing(ids[1..], known)
  }

  lemma {:induction false} FirstMissingIsFirstUnknown(ids: seq<string>, known: string -> bool)
    ensures FirstMissing(ids, known).None? <==> forall x :: x in ids ==> known(x)
    ensures forall id :: FirstUnknown(ids, known, id) ==> FirstMissing(ids, known) == Some(id)
  {
    if ids != [] {
      FirstMissingIsFirstUnknown(ids[1..], known);
      forall id | FirstUnknown(ids, known, id) && known(ids[0])
        ensures FirstUnknown(ids[1..], known, id)
      {
        var k :| 0 <= k < |ids| && ids[k] == id && !known(id) && forall j :: 0 <= j < k ==> known(ids[j]);
        assert ids[1..][k - 1] == id;
      }
    }
  }

  function Exists(ids: seq<string>, refs: map<string, Ref>): string -> bool {
    id => id in ids || id in refs
  }

  function OwnerOf(z: Zone, defaultID: string): string {
    if TrimSpace(z.tunnelID) == "" then defaultID else TrimSpace(z.tunnelID)
  }

  function SavedMode(z: Zone): string {
    if z.mode == "include" || z.mode == "exclude" then z.mode
    else if z.RouteValue() == "direct" then "exclude"
    else "include"
  }

  /** A rule as it is stored with the given rank, or why it is refused. */
  function SavedZone(z: Zone, rank: nat, ids: seq<string>, refs: map<string, Ref>, defaultID: string): Result<Zone, SaveError> {
    if z.waiting then Ok(z.(tunnelID := TrimSpace(z.tunnelID), order := rank))
    else if TrimSpace(z.tunnelID) == "" && ids == [] then Err(NoConnections)
    else
      var id := OwnerOf(z, defaultID);
      var backups := if z.RouteValue() == "tunnel" then Backups(id, z.fallbacks) else [];
      var missing := FirstMissing(backups, Exists(ids, refs));
      if id !in ids then Err(UnknownTunnel(id))
      else if missing.Some? then Err(UnknownBackup(missing.value))
      else Ok(z.(tunnelID := id, route := z.RouteValue(), fallbacks := backups, mode := SavedMode(z), order := rank))
  }

  method SaveZone(z: Zone, rank: nat, ids: seq<string>, refs: map<string, Ref>, defaultID: string)
      returns (r: Result<Zone, SaveError>)
    ensures r == SavedZone(z, rank, ids, refs, defaultID)
  {
    hide Backups, TrimSpace, FirstMissing, FirstUnknown;
    var saved := z.(tunnelID := TrimSpace(z.tunnelID));
    if saved.waiting {
      return Ok(saved.(order := rank));
    }
    if saved.tunnelID == "" {
      if |ids| == 0 {
        return Err(NoConnections);
      }
      saved := saved.(tunnelID := defaultID);
    }
    if saved.tunnelID !in ids {
      return Err(UnknownTunnel(saved.tunnelID));
    }
    saved := saved.(route := z.RouteValue(), mode := SavedMode(z), order := rank);
    if saved.route == "tunnel" {
      var backups := NormalizeFallbackTunnelIDs(saved.tunnelID, saved.fallbacks, Exists(ids, refs));
      FirstMissingIsFirstUnknown(Backups(saved.tunnelID, saved.fallbacks), Exists(ids, refs));
      if backups.Err? {
        return Err(UnknownBackup(backups.error));
      }
      return Ok(saved.(fallbacks := backups.value));
    }
    FirstMissingIsFirstUnknown([], Exists(ids, refs));
    return Ok(saved.(fallbacks := []));
  }

  // ---------- the whole list ----------

  /** All rules as stored, ranked by position, or the first refusal. */
  function SavedZones(zones: seq<Zone>, ids: seq<string>, refs: map<string, Ref>, defaultID: string): Result<seq<Zone>, SaveError> {
    if zones == [] then Ok([])
    else
      match SavedZones(zones[..|zones| - 1], ids, refs, defaultID)
      case Err(e) => Err(e)
      case Ok(front) =>
        match SavedZone(zones[|zones| - 1], |zones|, ids, refs, defaultID)
        case Err(e) => Err(e)
        case Ok(z) => Ok(front + [z])
  }

  lemma {:induction false} FirstRefusalStands(zones: seq<Zone>, i: nat, ids: seq<string>, refs: map<string, Ref>, defaultID: string)
    requires i <= |zones| && SavedZones(zones[..i], ids, refs, defaultID).Err?
    ensures SavedZones(zones, ids, refs, defaultID) == SavedZones(zones[..i], ids, refs, defaultID)
    decreases |zones|
  {
    hide SavedZone;
    if i == |zones| {
      assert zones[..i] == zones;
    } else {
      var front := zones[..|zones| - 1];
      assert front[..i] == zones[..i];
      FirstRefusalStands(front, i, ids, refs, defaultID);
    }
  }

  /** Connections a rule list uses, as primaries or backups. */
  function Referenced(zones: seq<Zone>): set<string> {
    if zones == [] then {}
    else
      var z := zones[|zones| - 1];
      Referenced(zones[..|zones| - 1]) +
      (if z.waiting then {} else {z.tunnelID} + (if z.route == "tunnel" then set x | x in z.fallbacks else {}))
  }

  datatype Partition = Partition(part: map<string, seq<Zone>>, pending: seq<Zone>, referenced: set<string>)

  /** The partition holds the stored rules, connection by connection. */
  ghost predicate IsPartition(p: Partition, zones: seq<Zone>) {
    && Parted(p.part, p.pending, zones)
    && p.referenced == Referenced(zones)
  }

  function AddToPartition(p: Partition, z: Zone): Partition {
    if z.waiting then p.(pending := p.pending + [z])
    else Partition(p.part[z.tunnelID := PartOf(p.part, z.tunnelID) + [z]], p.pending,
                   p.referenced + {z.tunnelID} + (if z.route == "tunnel" then set x | x in z.fallbacks else {}))
  }

  lemma AddKeepsPartition(p: Partition, zones: seq<Zone>, z: Zone)
    requires IsPartition(p, zones)
    ensures IsPartition(AddToPartition(p, z), zones + [z])
  {
    hide Parted;
    assert (zones + [z])[..|zones + [z]| - 1] == zones;
    PartOneMore(p.part, p.pending, zones, z);
  }

  lemma EmptyPartition()
    ensures IsPartition(Partition(map[], [], {}), [])
  {
  }

  method PartitionRules(zones: seq<Zone>, ids: seq<string>, refs: map<string, Ref>, defaultID: string)
      returns (r: Result<Partition, SaveError>)
    ensures match SavedZones(zones, ids, refs, defaultID)
            case Err(e) => r == Err(e)
            case Ok(all) => r.Ok? && IsPartition(r.value, all)
  {
    hide SavedZone, IsPartition;
    var p := Partition(map[], [], {});
    ghost var saved: seq<Zone> := [];
    EmptyPartition();
    for i := 0 to |zones|
      invariant SavedZones(zones[..i], ids, refs, defaultID) == Ok(saved)
      invariant IsPartition(p, saved)
    {
      assert zones[..i + 1][..i] == zones[..i];
      var z := SaveZone(zones[i], i + 1, ids, refs, defaultID);
      if z.Err? {
        FirstRefusalStands(zones, i + 1, ids, refs, defaultID);
        return Err(z.error);
      }
      AddKeepsPartition(p, saved, z.value);
      p := AddToPartition(p, z.value);
      saved := saved + [z.value];
    }
    assert zones[..|zones|] == zones;
    return Ok(p);
  }

  // ---------- the new state ----------

  function ListMode(mode: string): string {
    if mode in ["", "include", "exclude"] then "zones" else mode
  }

  function SavedEntry(e: Entry, mode: string, zones: seq<Zone>): Entry {
    var part := Part(zones, e.id);
    e.(config := e.config.(routing := Routing(mode, mode != "off" && (part != [] || e.id in Referenced(zones)), part)))
  }

  function SavedEntries(servers: seq<Entry>, mode: string, zones: seq<Zone>): seq<Entry> {
    if servers == [] then []
    else SavedEntries(servers[..|servers| - 1], mode, zones) + [SavedEntry(servers[|servers| - 1], mode, zones)]
  }

  /** The state after the stored rules replaced the old ones. */
  function SavedState(before: Persisted, mode: string, zones: seq<Zone>, refs: map<string, Ref>): Persisted {
    var servers := SavedEntries(before.servers, ListMode(mode), zones);
    before.(servers := servers, mode := ListMode(mode), pending := WaitingRules(zones),
            refs := RetainedRefs(refs, WaitingRules(zones), servers))
  }

  lemma {:induction false} SavedEntriesSplit(servers: seq<Entry>, mode: string, zones: seq<Zone>)
    ensures EntryIds(SavedEntries(servers, mode, zones)) == EntryIds(servers)
    ensures |SavedEntries(servers, mode, zones)| == |servers|
    ensures forall i :: 0 <= i < |servers| ==> SavedEntries(servers, mode, zones)[i] == SavedEntry(servers[i], mode, zones)
  {
    hide SavedEntry;
    if servers != [] {
      SavedEntriesSplit(servers[..|servers| - 1], mode, zones);
      SavedEntryId(servers[|servers| - 1], mode, zones);
    }
  }

  lemma SavedEntryId(e: Entry, mode: string, zones: seq<Zone>)
    ensures SavedEntry(e, mode, zones).id == e.id
    ensures SavedEntry(e, mode, zones).config.routing.zones == Part(zones, e.id)
  {
  }

  // ---------- a saved list lists back ----------

  /** The rule asked for, as the listing shows it at position `rank`. */
  predicate ShownAs(asked: Zone, shown: Zone, rank: nat, defaultID: string) {
    && shown.order == rank
    && shown.name == asked.name && shown.enabled == asked.enabled && shown.waiting == asked.waiting
    && shown.domains == asked.domains && shown.ips == asked.ips && shown.sourceIPs == asked.sourceIPs
    && shown.includeSubdomains == asked.includeSubdomains
    && shown.route == asked.RouteValue()
    && shown.mode == (if asked.waiting || asked.mode == "include" || asked.mode == "exclude" then asked.mode
                      else if asked.RouteValue() == "direct" then "exclude" else "include")
    && shown.tunnelID == (if asked.waiting || TrimSpace(asked.tunnelID) != "" then TrimSpace(asked.tunnelID) else defaultID)
    && shown.fallbacks == (if asked.waiting then asked.fallbacks
                           else if asked.RouteValue() == "tunnel" then Backups(shown.tunnelID, asked.fallbacks)
                           else [])
  }

  /** Listing a stored rule changes nothing but spells out its route. */
  lemma StoredRuleShows(z: Zone, rank: nat, ids: seq<string>, refs: map<string, Ref>, defaultID: string)
    requires Clean(ids) && SavedZone(z, rank, ids, refs, defaultID).Ok?
    ensures var saved := SavedZone(z, rank, ids, refs, defaultID).value;
            && saved.order == rank && saved.waiting == z.waiting
            && (saved.waiting || saved.tunnelID in ids)
            && ShownAs(z, Listed(saved, ""), rank, defaultID)
  {
    hide TrimSpace, Backups, Candidates, FirstMissing;
    var saved := SavedZone(z, rank, ids, refs, defaultID).value;
    TrimSpaceTrims(z.tunnelID);
    if !z.waiting {
      CandidatesArePrimaryThenBackups(saved.tunnelID, saved.fallbacks);
      if z.RouteValue() == "tunnel" {
        BackupsIdempotent(saved.tunnelID, z.fallbacks);
      }
    }
  }

  lemma {:induction false} SavedZonesAreRanked(zones: seq<Zone>, ids: seq<string>, refs: map<string, Ref>, defaultID: string)
    requires Clean(ids) && SavedZones(zones, ids, refs, defaultID).Ok?
    ensures var saved := SavedZones(zones, ids, refs, defaultID).value;
            && |saved| == |zones|
            && (forall i :: 0 <= i < |zones| ==> saved[i].order == i + 1 && (saved[i].waiting || saved[i].tunnelID in ids))
            && (forall i :: 0 <= i < |zones| ==> ShownAs(zones[i], Listed(saved[i], ""), i + 1, defaultID))
  {
    hide SavedZone, ShownAs, Listed, TrimSpace;
    if zones != [] {
      SavedZonesAreRanked(zones[..|zones| - 1], ids, refs, defaultID);
      StoredRuleShows(zones[|zones| - 1], |zones|, ids, refs, defaultID);
    }
  }

  /** Saving a rule list and listing it back shows every rule, in the same order, ranked 1 to n. */
  lemma SavedRulesListBack(before: Persisted, mode: string, zones: seq<Zone>, refs: map<string, Ref>, defaultID: string)
    requires WellNamed(before.servers)
    requires SavedZones(zones, EntryIds(before.servers), refs, defaultID).Ok?
    ensures var saved := SavedZones(zones, EntryIds(before.servers), refs, defaultID).value;
            var after := SavedState(before, mode, saved, refs);
            var shown := ListRules(after.servers, after.pending);
            && |shown| == |zones|
            && forall i :: 0 <= i < |zones| ==> ShownAs(zones[i], shown[i], i + 1, defaultID)
  {
    hide ShownAs, Listed, SavedZones, SavedEntry, TrimSpace, RetainedRefs;
    var ids := EntryIds(before.servers);
    var saved := SavedZones(zones, ids, refs, defaultID).value;
    var after := SavedState(before, mode, saved, refs);
    SavedZonesAreRanked(zones, ids, refs, defaultID);
    SavedEntriesSplit(before.servers, ListMode(mode), saved);
    forall i | 0 <= i < |after.servers|
      ensures after.servers[i].config.routing.zones == Part(saved, after.servers[i].id)
    {
      SavedEntryId(before.servers[i], ListMode(mode), saved);
    }
    SplitListsBack(after.servers, after.pending, saved);
    AllAreKept(saved, ids);
    ListedKeepsRanks(saved, "");
  }

  // ---------- what the connections hold afterwards ----------

  /** The asked rule names the connection, as its own or, when it goes through a tunnel, as a backup. */
  predicate Uses(asked: Zone, id: string, defaultID: string) {
    var owner := if TrimSpace(asked.tunnelID) != "" then TrimSpace(asked.tunnelID) else defaultID;
    && !asked.waiting
    && (owner == id
        || (asked.RouteValue() == "tunnel" && id != "" && exists j :: 0 <= j < |asked.fallbacks| && TrimSpace(asked.fallbacks[j]) == id))
  }

  /** One connection after the save: switched on exactly when routing is not off and some rule uses it, also as a mere backup. */
  predicate SavedConnection(e: Entry, mode: string, asked: seq<Zone>, defaultID: string, after: Entry) {
    var r := after.config.routing;
    && after == e.(config := e.config.(routing := r))
    && (mode == "" || mode == "include" || mode == "exclude" ==> r.mode == "zones")
    && (mode != "" && mode != "include" && mode != "exclude" ==> r.mode == mode)
    && (r.active <==> r.mode != "off" && exists i :: 0 <= i < |asked| && Uses(asked[i], e.id, defaultID))
    && (forall z :: z in r.zones ==> !z.waiting && z.tunnelID == e.id)
  }

  lemma {:induction false} ReferencedMembers(zones: seq<Zone>, id: string)
    ensures id in Referenced(zones) <==>
            exists i :: 0 <= i < |zones| && !zones[i].waiting
                     && (zones[i].tunnelID == id || (zones[i].route == "tunnel" && id in zones[i].fallbacks))
  {
    if zones != [] {
      var front, z := zones[..|zones| - 1], zones[|zones| - 1];
      ReferencedMembers(front, id);
      assert forall i :: 0 <= i < |front| ==> front[i] == zones[i];
    }
  }

  lemma CleanIsTrimmed(ids: seq<string>, id: string)
    requires Clean(ids) && id in ids
    ensures TrimSpace(id) == id
  {
  }

  /** What a stored rule uses is what was asked. */
  lemma StoredRuleUses(z: Zone, rank: nat, ids: seq<string>, refs: map<string, Ref>, defaultID: string, id: string)
    requires Clean(ids) && SavedZone(z, rank, ids, refs, defaultID).Ok?
    ensures var saved := SavedZone(z, rank, ids, refs, defaultID).value;
            (!saved.waiting && (saved.tunnelID == id || (saved.route == "tunnel" && id in saved.fallbacks))) <==> Uses(z, id, defaultID)
  {
    hide TrimSpace, Backups, FirstMissing, Zone.RouteValue, Clean, NoDuplicates;
    var saved := SavedZone(z, rank, ids, refs, defaultID).value;
    if !z.waiting {
      CleanIsTrimmed(ids, saved.tunnelID);
      BackupsMembers(saved.tunnelID, z.fallbacks);
    }
  }

  lemma {:induction false} StoredRulesUse(zones: seq<Zone>, ids: seq<string>, refs: map<string, Ref>, defaultID: string, id: string)
    requires Clean(ids) && SavedZones(zones, ids, refs, defaultID).Ok?
    ensures var saved := SavedZones(zones, ids, refs, defaultID).value;
            && |saved| == |zones|
            && forall i :: 0 <= i < |zones| ==>
                 (!saved[i].waiting && (saved[i].tunnelID == id || (saved[i].route == "tunnel" && id in saved[i].fallbacks))
                  <==> Uses(zones[i], id, defaultID))
  {
    hide SavedZone, Uses;
    if zones != [] {
      StoredRulesUse(zones[..|zones| - 1], ids, refs, defaultID, id);
      StoredRuleUses(zones[|zones| - 1], |zones|, ids, refs, defaultID, id);
    }
  }

  lemma EntryIsSaved(e: Entry, mode: string, asked: seq<Zone>, ids: seq<string>, refs: map<string, Ref>, defaultID: string)
    requires Clean(ids) && SavedZones(asked, ids, refs, defaultID).Ok?
    ensures SavedConnection(e, mode, asked, defaultID, SavedEntry(e, ListMode(mode), SavedZones(asked, ids, refs, defaultID).value))
  {
    hide SavedZones, Uses, Part, Referenced;
    var saved := SavedZones(asked, ids, refs, defaultID).value;
    StoredRulesUse(asked, ids, refs, defaultID, e.id);
    ReferencedMembers(saved, e.id);
    PartBelongs(saved, e.id);
    if Part(saved, e.id) != [] {
      assert Part(saved, e.id)[0] in saved;
    }
  }

  /** The whole state after a save, connection by connection. */
  ghost predicate SavedConnections(before: Persisted, mode: string, asked: seq<Zone>, defaultID: string, after: Persisted) {
    && |after.servers| == |before.servers|
    && (forall k :: 0 <= k < |before.servers| ==> SavedConnection(before.servers[k], mode, asked, defaultID, after.servers[k]))
    && after.activeID == before.activeID && after.rest == before.rest
    && (mode == "" || mode == "include" || mode == "exclude" ==> after.mode == "zones")
    && (mode != "" && mode != "include" && mode != "exclude" ==> after.mode == mode)
    && (forall z :: z in after.pending ==> z.waiting)
  }

  lemma StateIsSaved(before: Persisted, mode: string, asked: seq<Zone>, refs: map<string, Ref>, defaultID: string)
    requires WellNamed(before.servers) && SavedZones(asked, EntryIds(before.servers), refs, defaultID).Ok?
    ensures var saved := SavedZones(asked, EntryIds(before.servers), refs, defaultID).value;
            SavedConnections(before, mode, asked, defaultID, SavedState(before, mode, saved, refs))
  {
    hide SavedZones, SavedConnection, SavedEntry, EntryIds, RetainedRefs, WaitingRules;
    var ids := EntryIds(before.servers);
    var saved := SavedZones(asked, ids, refs, defaultID).value;
    SavedEntriesSplit(before.servers, ListMode(mode), saved);
    PartBelongs(saved, "");
    forall k | 0 <= k < |before.servers|
      ensures SavedConnection(before.servers[k], mode, asked, defaultID, SavedEntry(before.servers[k], ListMode(mode), saved))
    {
      EntryIsSaved(before.servers[k], mode, asked, ids, refs, defaultID);
    }
  }

  // ---------- which rule is refused, and why ----------

  /** The rule is refused for this reason, read off what was asked. */
  ghost predicate Refuses(z: Zone, ids: seq<string>, refs: map<string, Ref>, defaultID: string, e: SaveError) {
    var owner := if TrimSpace(z.tunnelID) != "" then TrimSpace(z.tunnelID) else defaultID;
    && !z.waiting
    && match e
       case NoConnections => TrimSpace(z.tunnelID) == "" && ids == []
       case UnknownTunnel(id) => !(TrimSpace(z.tunnelID) == "" && ids == []) && id == owner && id !in ids
       case UnknownBackup(id) =>
         && owner in ids && z.RouteValue() == "tunnel"
         && id != "" && id != owner && id !in ids && id !in refs
         && (exists k :: FirstReads(z.fallbacks, id, k)
                && forall m :: 0 <= m < k ==>
                     var x := TrimSpace(z.fallbacks[m]); x == "" || x == owner || x in ids || x in refs)
       case _ => false
  }

  /** In the order given, everything before the first missing backup is there. */
  lemma MissingBackupComesFirst(owner: string, fallbacks: seq<string>, ids: seq<string>, refs: map<string, Ref>, id: string) returns (k: nat)
    requires TrimSpace(owner) == owner && FirstMissing(Backups(owner, fallbacks), Exists(ids, refs)) == Some(id)
    ensures id != "" && id != owner && id !in ids && id !in refs && FirstReads(fallbacks, id, k)
    ensures forall m :: 0 <= m < k ==> var x := TrimSpace(fallbacks[m]); x == "" || x == owner || x in ids || x in refs
  {
    hide TrimSpace, Backups, Clean, NoDuplicates;
    var all := Backups(owner, fallbacks);
    BackupsMembers(owner, fallbacks);
    var b := MissingAt(all, Exists(ids, refs), id);
    assert all[b] in all;
    k := FirstReading(fallbacks, id);
    forall m | 0 <= m < k
      ensures var x := TrimSpace(fallbacks[m]); x == "" || x == owner || x in ids || x in refs
    {
      var x := TrimSpace(fallbacks[m]);
      if x != "" && x != owner {
        assert x in all;
        var a :| 0 <= a < |all| && all[a] == x;
        if b < a {
          var first := FirstReading(fallbacks[..m + 1], x);
          assert FirstReads(fallbacks, x, first);
          BackupsKeepOrder(owner, fallbacks, b, a, k, first);
        }
      }
    }
  }

  lemma {:induction false} MissingAt(ids: seq<string>, known: string -> bool, id: string) returns (b: nat)
    requires FirstMissing(ids, known) == Some(id)
    ensures b < |ids| && ids[b] == id && !known(id) && forall a :: 0 <= a < b ==> known(ids[a])
  {
    if known(ids[0]) {
      var rest := MissingAt(ids[1..], known, id);
      b := rest + 1;
      assert forall a :: 0 < a < b ==> ids[a] == ids[1..][a - 1];
    } else {
      b := 0;
    }
  }

  lemma {:induction false} FirstReading(raw: seq<string>, x: string) returns (k: nat)
    requires exists i :: 0 <= i < |raw| && TrimSpace(raw[i]) == x
    ensures FirstReads(raw, x, k)
  {
    hide TrimSpace;
    var front := raw[..|raw| - 1];
    if i :| 0 <= i < |front| && TrimSpace(front[i]) == x {
      k := FirstReading(front, x);
    } else {
      k := |raw| - 1;
      assert forall m :: 0 <= m < k ==> raw[m] == front[m];
    }
  }

  /** A rule that is not stored is refused for the reason reported; a rule that is stored has no reason against it. */
  lemma RefusalIsReal(z: Zone, rank: nat, ids: seq<string>, refs: map<string, Ref>, defaultID: string)
    requires Clean(ids)
    ensures var r := SavedZone(z, rank, ids, refs, defaultID);
            && (r.Err? ==> Refuses(z, ids, refs, defaultID, r.error))
            && (r.Ok? ==> forall e :: !Refuses(z, ids, refs, defaultID, e))
  {
    hide TrimSpace, Backups, FirstMissing, Zone.RouteValue, Clean;
    var r := SavedZone(z, rank, ids, refs, defaultID);
    FirstMissingIsFirstUnknown([], Exists(ids, refs));
    if r.Err? && r.error.UnknownBackup? {
      CleanIsTrimmed(ids, OwnerOf(z, defaultID));
      var k := MissingBackupComesFirst(OwnerOf(z, defaultID), z.fallbacks, ids, refs, r.error.id);
    }
    forall e | r.Ok? && Refuses(z, ids, refs, defaultID, e)
      ensures false
    {
      StoredHasItsBackups(z, rank, ids, refs, defaultID, e);
    }
  }

  lemma StoredHasItsBackups(z: Zone, rank: nat, ids: seq<string>, refs: map<string, Ref>, defaultID: string, e: SaveError)
    requires Clean(ids) && SavedZone(z, rank, ids, refs, defaultID).Ok?
    ensures !Refuses(z, ids, refs, defaultID, e)
  {
    hide TrimSpace, Backups, FirstMissing, Zone.RouteValue, Clean, NoDuplicates;
    if !z.waiting && e.UnknownBackup? && OwnerOf(z, defaultID) in ids && z.RouteValue() == "tunnel" {
      CleanIsTrimmed(ids, OwnerOf(z, defaultID));
      BackupsMembers(OwnerOf(z, defaultID), z.fallbacks);
      FirstMissingIsFirstUnknown(Backups(OwnerOf(z, defaultID), z.fallbacks), Exists(ids, refs));
      assert Exists(ids, refs)(e.id) <==> e.id in ids || e.id in refs;
    }
  }

  /** Rule i is the first that is refused. */
  ghost predicate FirstRefused(zones: seq<Zone>, ids: seq<string>, refs: map<string, Ref>, defaultID: string, i: nat, e: SaveError) {
    && i < |zones| && Refuses(zones[i], ids, refs, defaultID, e)
    && forall j, d :: 0 <= j < i ==> !Refuses(zones[j], ids, refs, defaultID, d)
  }

  /** The list is refused for the first of its rules that is, or stored when none is. */
  lemma {:induction false} FirstRefusalIsReported(zones: seq<Zone>, ids: seq<string>, refs: map<string, Ref>, defaultID: string)
    requires Clean(ids)
    ensures var r := SavedZones(zones, ids, refs, defaultID);
            && (r.Err? ==> exists i :: FirstRefused(zones, ids, refs, defaultID, i, r.error))
            && (r.Ok? ==> forall i, e :: 0 <= i < |zones| ==> !Refuses(zones[i], ids, refs, defaultID, e))
  {
    hide SavedZone, Refuses, Clean;
    if zones != [] {
      var n := |zones| - 1;
      FirstRefusalIsReported(zones[..n], ids, refs, defaultID);
      RefusalIsReal(zones[n], |zones|, ids, refs, defaultID);
      assert forall j :: 0 <= j < n ==> zones[..n][j] == zones[j];
      if SavedZones(zones[..n], ids, refs, defaultID).Err? {
        var i :| FirstRefused(zones[..n], ids, refs, defaultID, i, SavedZones(zones[..n], ids, refs, defaultID).error);
        assert FirstRefused(zones, ids, refs, defaultID, i, SavedZones(zones, ids, refs, defaultID).error);
      } else if SavedZone(zones[n], |zones|, ids, refs, defaultID).Err? {
        assert FirstRefused(zones, ids, refs, defaultID, n, SavedZones(zones, ids, refs, defaultID).error);
      }
    }
  }
}
