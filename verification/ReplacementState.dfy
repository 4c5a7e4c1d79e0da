/** The replaced state is computed in loops, and no trace of the deleted connection is left in it. */
module ReplacementState {
  import opened Wrappers
  import opened Text
  import opened Lists
  import opened Zones
  import opened Fallback
  import opened StableSort
  import opened Rules
  import opened BackupGraph
  import opened Replacement

  datatype ReplaceError = NotFound | BackupCycle

  // ---------- the loops ----------

  method RetargetRules(rules: seq<Zone>, source: Entry, target: string)
      returns (part: map<string, seq<Zone>>, pending: seq<Zone>, transfer: bool)
    ensures Parted(part, pending, RetargetedAll(rules, source.id, target))
    ensures transfer == TransferActive(source, rules)
  {
    hide ReplacementFallbacks, TrimSpace, Part, WaitingRules;
    NothingParted();
    part, pending := map[], [];
    transfer := source.config.routing.active && source.config.routing.mode == "full";
    for i := 0 to |rules|
      invariant Parted(part, pending, RetargetedAll(rules[..i], source.id, target))
      invariant transfer == TransferActive(source, rules[..i])
    {
      assert rules[..i + 1][..i] == rules[..i];
      var z := rules[i].(order := i + 1);
      if z.tunnelID == source.id {
        z := z.(tunnelID := target, waiting := false);
        if z.enabled && source.config.routing.active {
          transfer := true;
        }
      }
      TransferOneMore(source, rules, i);
      var backups := AwgReplacementFallbacks(z.tunnelID, z.fallbacks, source.id, target);
      z := z.(fallbacks := backups);
      assert z == Retargeted(rules[i], i + 1, source.id, target);
      hide Parted, Retargeted;
      PartOneMore(part, pending, RetargetedAll(rules[..i], source.id, target), z);
      if z.waiting {
        pending := pending + [z];
      } else {
        part := part[z.tunnelID := PartOf(part, z.tunnelID) + [z]];
      }
    }
    assert rules[..|rules|] == rules;
  }

  lemma TransferOneMore(source: Entry, rules: seq<Zone>, i: nat)
    requires i < |rules|
    ensures TransferActive(source, rules[..i + 1]) <==>
            TransferActive(source, rules[..i])
            || (source.config.routing.active && rules[i].tunnelID == source.id && rules[i].enabled)
  {
    assert forall k :: 0 <= k < i ==> rules[..i + 1][k] == rules[..i][k];
    assert rules[..i + 1][i] == rules[i];
  }

  method SplitServers(servers: seq<Entry>, sourceID: string, targetID: string)
      returns (source: Option<Entry>, others: seq<Entry>, targetFound: bool)
    ensures source == Find(servers, sourceID) && others == Others(servers, sourceID)
    ensures targetFound <==> targetID in EntryIds(others)
  {
    source, others, targetFound := None, [], false;
    for i := 0 to |servers|
      invariant source == Find(servers[..i], sourceID) && others == Others(servers[..i], sourceID)
      invariant targetFound <==> targetID in EntryIds(others)
    {
      assert servers[..i + 1][..i] == servers[..i];
      var e := servers[i];
      if e.id == sourceID {
        source := Some(e);
      } else {
        EntryIdsSnoc(others, e);
        targetFound := targetFound || e.id == targetID;
        others := others + [e];
      }
    }
    assert servers[..|servers|] == servers;
  }

  method ReplaceEntries(others: seq<Entry>, source: Entry, target: string, part: map<string, seq<Zone>>,
                        ghost zones: seq<Zone>, ghost pending: seq<Zone>, transfer: bool) returns (out: seq<Entry>)
    requires Parted(part, pending, zones)
    ensures out == ReplacedEntries(others, source, target, zones, transfer)
  {
    hide ReplacementFallbacks, Part, WaitingRules;
    out := [];
    for i := 0 to |others|
      invariant out == ReplacedEntries(others[..i], source, target, zones, transfer)
    {
      assert others[..i + 1][..i] == others[..i];
      var e := others[i];
      var routing := e.config.routing.(zones := PartOf(part, e.id));
      var backups := e.config.fallbacks;
      var standby := e.config.standby;
      if e.id == target {
        backups := backups + source.config.fallbacks;
        if transfer && routing.mode != "off" {
          routing := routing.(active := true);
          standby := false;
        }
      }
      backups := AwgReplacementFallbacks(e.id, backups, source.id, target);
      var config := e.config.(routing := routing, standby := standby, fallbacks := backups);
      var applied := match e.applied
        case None => None
        case Some(a) => Some(a.(fallbacks := backups, standby := standby, routing := routing));
      out := out + [e.(config := config, applied := applied)];
    }
    assert others[..|others|] == others;
  }

  method BuildGraph(servers: seq<Entry>) returns (g: Graph)
    ensures g == GraphOf(servers)
  {
    g := map[];
    for i := 0 to |servers|
      invariant g == GraphOf(servers[..i])
    {
      assert servers[..i + 1][..i] == servers[..i];
      g := g[servers[i].id := servers[i].config.fallbacks];
    }
    assert servers[..|servers|] == servers;
  }

  /** The replacement is refused exactly when a connection is missing or the backups would form a cycle. */
  ghost predicate Accepts(before: Persisted, rules: seq<Zone>, sourceID: string, targetID: string) {
    var source := Find(before.servers, sourceID);
    && source.Some? && sourceID != ""
    && targetID in EntryIds(Others(before.servers, sourceID))
    && Acyclic(GraphOf(Candidate(before, rules, source.value, targetID).servers))
  }

  method AwgReplacementState(before: Persisted, rules: seq<Zone>, sourceID: string, targetID: string)
      returns (r: Result<(Persisted, bool), ReplaceError>)
    ensures r.Ok? <==> Accepts(before, rules, sourceID, targetID)
    ensures r.Ok? ==>
              var source := Find(before.servers, sourceID).value;
              r.value == (Candidate(before, rules, source, targetID), TransferActive(source, rules))
    ensures r == Err(NotFound) <==>
            Find(before.servers, sourceID).None? || sourceID == "" || targetID !in EntryIds(Others(before.servers, sourceID))
  {
    hide RetainedRefs, TransferActive, ReplacedEntries, RetargetedAll, WaitingRules, Parted, Others, EntryIds, GraphOf, Acyclic;
    var found, others, targetFound := SplitServers(before.servers, sourceID, targetID);
    if found.None? || sourceID == "" || !targetFound {
      return Err(NotFound);
    }
    var source := found.value;
    FoundHasId(before.servers, sourceID);
    hide Find;
    var part, pending, transfer := RetargetRules(rules, source, targetID);
    var servers := ReplaceEntries(others, source, targetID, part, RetargetedAll(rules, source.id, targetID), pending, transfer);
    PendingIs(part, pending, RetargetedAll(rules, source.id, targetID));
    var candidate := before.(
      activeID := if before.activeID == sourceID then targetID else before.activeID,
      servers := servers, pending := pending, refs := RetainedRefs(before.refs, pending, servers));
    assert candidate == Candidate(before, rules, source, targetID);
    var g := BuildGraph(servers);
    var ok := ValidateReplacementGraph(g);
    if !ok {
      return Err(BackupCycle);
    }
    return Ok((candidate, transfer));
  }

  lemma {:induction false} FoundHasId(servers: seq<Entry>, id: string)
    requires Find(servers, id).Some?
    ensures Find(servers, id).value.id == id && Find(servers, id).value in servers
  {
    if servers[|servers| - 1].id != id {
      FoundHasId(servers[..|servers| - 1], id);
    }
  }

  // ---------- what the listing hands over ----------

  predicate Explicit(z: Zone) {
    z.route == "tunnel" || z.route == "direct"
  }

  /** A rule with a trimmed connection ID and a spelled-out route. */
  predicate Plain(z: Zone) {
    TrimSpace(z.tunnelID) == z.tunnelID && Explicit(z)
  }

  lemma ListedIsPlain(z: Zone, owner: string)
    requires TrimSpace(owner) == owner
    ensures Plain(Listed(z, owner))
  {
    hide TrimSpace, Candidates;
    TrimSpaceTrims(z.tunnelID);
  }

  lemma ListedAllArePlain(zones: seq<Zone>, owner: string)
    requires TrimSpace(owner) == owner
    ensures forall z :: z in ListedAll(zones, owner) ==> Plain(z)
  {
    hide Plain, ListedAll, Listed, TrimSpace;
    ListedKeepsRanks(zones, owner);
    forall i | 0 <= i < |zones|
      ensures Plain(Listed(zones[i], owner))
    {
      ListedIsPlain(zones[i], owner);
    }
  }

  lemma {:induction false} ServerItemsArePlain(servers: seq<Entry>)
    requires Clean(EntryIds(servers))
    ensures forall z :: z in ServerItems(servers) ==> Plain(z)
  {
    hide Plain, ListedAll;
    if servers != [] {
      var front, last := servers[..|servers| - 1], servers[|servers| - 1];
      assert EntryIds(servers) == EntryIds(front) + [last.id];
      assert last.id in EntryIds(servers);
      assert Clean(EntryIds(front)) by {
        hide TrimSpace;
        assert forall x :: x in EntryIds(front) ==> x in EntryIds(servers);
      }
      ServerItemsArePlain(front);
      ListedAllArePlain(last.config.routing.zones, last.id);
    }
  }

  lemma {:induction false} NumberedStayPlain(s: seq<Zone>)
    requires forall z :: z in s ==> Plain(z)
    ensures |Numbered(s)| == |s| && forall i :: 0 <= i < |s| ==> Plain(Numbered(s)[i])
  {
    hide TrimSpace;
    if s != [] {
      var front := s[..|s| - 1];
      assert forall z :: z in front ==> z in s;
      assert s[|s| - 1] in s;
      NumberedStayPlain(front);
    }
  }

  /** Every rule of the listing has a trimmed connection ID and a spelled-out route. */
  lemma ListedRulesArePlain(servers: seq<Entry>, pending: seq<Zone>)
    requires WellNamed(servers)
    ensures forall i :: 0 <= i < |ListRules(servers, pending)| ==> Plain(ListRules(servers, pending)[i])
  {
    hide Plain, Numbered, Sort, ListedAll, ServerItems;
    var items := Items(servers, pending);
    ServerItemsArePlain(servers);
    ListedAllArePlain(Detached(pending), "");
    SortIsStable(items, 0);
    forall z | z in Sort(items)
      ensures Plain(z)
    {
      assert z in multiset(Sort(items));
      assert z in items;
    }
    NumberedStayPlain(Sort(items));
  }

  // ---------- no trace ----------

  predicate RuleMentions(z: Zone, id: string) {
    z.tunnelID == id || id in z.fallbacks
  }

  predicate ConfigMentions(c: Config, id: string) {
    id in c.fallbacks || exists i :: 0 <= i < |c.routing.zones| && RuleMentions(c.routing.zones[i], id)
  }

  predicate EntryMentions(e: Entry, id: string) {
    || e.id == id || ConfigMentions(e.config, id)
    || (e.applied.Some? && ConfigMentions(e.applied.value, id))
  }

  /** The ID occurs somewhere in the state. */
  predicate Mentions(s: Persisted, id: string) {
    || s.activeID == id || id in s.refs
    || (exists i :: 0 <= i < |s.servers| && EntryMentions(s.servers[i], id))
    || (exists i :: 0 <= i < |s.pending| && RuleMentions(s.pending[i], id))
  }

  lemma RetargetedForgets(z: Zone, rank: nat, source: string, target: string)
    requires source != target && target != "" && TrimSpace(target) == target
    ensures !RuleMentions(Retargeted(z, rank, source, target), source)
    ensures Plain(z) ==> Plain(Retargeted(z, rank, source, target))
    ensures Clean(Retargeted(z, rank, source, target).fallbacks)
  {
    hide ReplacementFallbacks, TrimSpace, Clean, NoDuplicates;
    var r := Retargeted(z, rank, source, target);
    ReplacementFallbacksMembers(r.tunnelID, z.fallbacks, source, target);
  }

  /** A rule that has forgotten the source, with trimmed names. */
  predicate Forgot(z: Zone, source: string) {
    !RuleMentions(z, source) && Plain(z) && Clean(z.fallbacks)
  }

  lemma RetargetedAllForget(rules: seq<Zone>, source: string, target: string)
    requires source != target && target != "" && TrimSpace(target) == target
    requires forall i :: 0 <= i < |rules| ==> Plain(rules[i])
    ensures forall z :: z in RetargetedAll(rules, source, target) ==> Forgot(z, source)
  {
    hide Retargeted, Plain, RuleMentions, Clean;
    RetargetedMembers(rules, source, target);
    forall i | 0 <= i < |rules|
      ensures Forgot(Retargeted(rules[i], i + 1, source, target), source)
    {
      RetargetedForgets(rules[i], i + 1, source, target);
    }
  }

  lemma {:induction false} PartsForget(zones: seq<Zone>, id: string, source: string)
    requires forall z :: z in zones ==> Forgot(z, source)
    ensures forall z :: z in Part(zones, id) ==> Forgot(z, source)
    ensures forall z :: z in WaitingRules(zones) ==> Forgot(z, source)
  {
    hide Forgot;
    if zones != [] {
      assert zones == zones[..|zones| - 1] + [zones[|zones| - 1]];
      PartsForget(zones[..|zones| - 1], id, source);
    }
  }

  lemma ReplacedEntryForgets(e: Entry, source: Entry, target: string, zones: seq<Zone>, transfer: bool)
    requires source.id != target && target != "" && TrimSpace(target) == target && e.id != source.id
    requires forall z :: z in zones ==> Forgot(z, source.id)
    ensures var r := ReplacedEntry(e, source, target, zones, transfer);
            !EntryMentions(r, source.id) && forall z :: z in r.config.routing.zones ==> Forgot(z, source.id)
  {
    hide ReplacementFallbacks, TrimSpace, Clean, NoDuplicates, Part, Plain, RuleMentions;
    PartsForget(zones, e.id, source.id);
    var backups := if e.id == target then e.config.fallbacks + source.config.fallbacks else e.config.fallbacks;
    ReplacementFallbacksMembers(e.id, backups, source.id, target);
    var part := Part(zones, e.id);
    assert forall i :: 0 <= i < |part| ==> part[i] in part;
    assert forall i :: 0 <= i < |part| ==> !RuleMentions(part[i], source.id);
  }

  lemma ForgottenIsNotTrimmed(z: Zone, source: string)
    requires Forgot(z, source)
    ensures TrimSpace(z.tunnelID) != source && source !in TrimmedSet(z.fallbacks)
  {
    hide TrimSpace;
    forall i | 0 <= i < |z.fallbacks|
      ensures TrimSpace(z.fallbacks[i]) != source
    {
      assert z.fallbacks[i] in z.fallbacks;
    }
  }

  lemma NotMentionedBy(zones: seq<Zone>, source: string)
    requires forall z :: z in zones ==> Forgot(z, source)
    ensures source !in MentionedBy(zones)
    ensures forall i :: 0 <= i < |zones| ==> TrimSpace(zones[i].tunnelID) != source
  {
    hide TrimSpace, TrimmedSet, Forgot;
    forall i | 0 <= i < |zones|
      ensures source !in TrimmedSet(zones[i].fallbacks) && TrimSpace(zones[i].tunnelID) != source
    {
      ForgottenIsNotTrimmed(zones[i], source);
    }
  }

  lemma NotRetained(refs: map<string, Ref>, pending: seq<Zone>, servers: seq<Entry>, source: string)
    requires forall z :: z in pending ==> Forgot(z, source)
    requires forall i :: 0 <= i < |servers| ==> forall z :: z in servers[i].config.routing.zones ==> Forgot(z, source)
    ensures source !in RetainedRefs(refs, pending, servers)
  {
    hide Forgot, TrimSpace, MentionedBy, EntryIds;
    NotMentionedBy(pending, source);
    forall i | 0 <= i < |servers|
      ensures source !in MentionedBy(servers[i].config.routing.zones)
    {
      NotMentionedBy(servers[i].config.routing.zones, source);
    }
  }

  lemma RemainingEntriesForget(before: Persisted, rules: seq<Zone>, source: Entry, target: string)
    requires Replaceable(before, source, target)
    requires forall i :: 0 <= i < |rules| ==> Plain(rules[i])
    ensures var after := Candidate(before, rules, source, target);
            && (forall i :: 0 <= i < |after.servers| ==> !EntryMentions(after.servers[i], source.id))
            && (forall i :: 0 <= i < |after.servers| ==>
                  forall z :: z in after.servers[i].config.routing.zones ==> Forgot(z, source.id))
            && (forall z :: z in after.pending ==> Forgot(z, source.id))
  {
    hide TrimSpace, Plain, RetargetedAll, WaitingRules, RetainedRefs, TransferActive, ReplacedEntry, ReplacedEntries, Replaceable, Others,
         Forgot, EntryMentions;
    var zones := RetargetedAll(rules, source.id, target);
    var transfer := TransferActive(source, rules);
    var others := Others(before.servers, source.id);
    var after := Candidate(before, rules, source, target);
    NamesAreClean(before, source, target);
    RetargetedAllForget(rules, source.id, target);
    PartsForget(zones, "", source.id);
    OthersMembers(before.servers, source.id);
    ReplacedEntriesMembers(others, source, target, zones, transfer);
    forall i | 0 <= i < |after.servers|
      ensures !EntryMentions(after.servers[i], source.id)
      ensures forall z :: z in after.servers[i].config.routing.zones ==> Forgot(z, source.id)
    {
      assert others[i] in others;
      ReplacedEntryForgets(others[i], source, target, zones, transfer);
    }
  }

  /** The deleted ID survives in no connection, rule, backup list, applied snapshot, reference or selection. */
  lemma NoTraceOfTheSource(before: Persisted, rules: seq<Zone>, source: Entry, target: string)
    requires Replaceable(before, source, target)
    requires forall i :: 0 <= i < |rules| ==> Plain(rules[i])
    ensures !Mentions(Candidate(before, rules, source, target), source.id)
  {
    hide TrimSpace, Plain, RetargetedAll, WaitingRules, RetainedRefs, TransferActive, ReplacedEntries, Replaceable, Others,
         Forgot, EntryMentions;
    var after := Candidate(before, rules, source, target);
    NamesAreClean(before, source, target);
    RemainingEntriesForget(before, rules, source, target);
    NotRetained(before.refs, after.pending, after.servers, source.id);
    forall i | 0 <= i < |after.pending|
      ensures !RuleMentions(after.pending[i], source.id)
    {
      assert Forgot(after.pending[i], source.id);
      ForgottenRule(after.pending[i], source.id);
    }
  }

  lemma ForgottenRule(z: Zone, source: string)
    requires Forgot(z, source)
    ensures !RuleMentions(z, source)
  {
  }
}
