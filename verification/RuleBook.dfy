/**
  The rules in memory and on disk: saving a rule list (awgSaveRoutingRulesWithRefs
  in awgroute.go) and deleting a connection with a replacement
  (awgDeleteServerWithReplacementWithOps in delete_replacement.go).
 */
module RuleBook {
  import opened Wrappers
  import opened Text
  import opened Lists
  import opened Zones
  import opened Fallback
  import opened StableSort
  import opened Rules
  import opened SaveRules
  import opened BackupGraph
  import opened Replacement
  import opened ReplacementState
  import opened Publishing
  import opened Handovers

  /** A write may fail before the new file is in place, or after it (while its permissions are set). */
  datatype SaveOutcome = Written | Refused | WrittenButFailed

  datatype DeleteResult =
    | Invalid
    | NotDone
    | Uncertain
    | Committed
    | Deleted

  /** The disk after writing `state`. */
  function DiskAfter(disk: Persisted, state: Persisted, outcome: SaveOutcome): Persisted {
    if outcome.Refused? then disk else state
  }

  /** The state as a saver sees it: references are kept only while a rule needs them. */
  function Snapshot(memory: Persisted): Persisted {
    memory.(refs := RetainedRefs(memory.refs, memory.pending, memory.servers))
  }

  /** The state a replacement leads to. */
  function Target(memory: Persisted, source: Entry, target: string): Persisted {
    Candidate(Snapshot(memory), ListRules(memory.servers, memory.pending), source, target)
  }

  ghost predicate CanDelete(memory: Persisted, id: string, replacement: string) {
    && id != "" && replacement != "" && id != replacement
    && Find(memory.servers, id).Some?
    && Find(memory.servers, replacement).Some?
    && Acyclic(GraphOf(Target(memory, Find(memory.servers, id).value, replacement).servers))
  }

  /** The references a save works with: those stored, those of live connections, and the imported ones. */
  function KnownRefs(memory: Persisted, describe: string -> Ref, extra: map<string, Ref>): map<string, Ref> {
    map id | id in memory.refs.Keys + extra.Keys + (set x | x in EntryIds(memory.servers)) ::
      if id in EntryIds(memory.servers) then describe(id)
      else if id in extra then extra[id]
      else memory.refs[id]
  }

  predicate GoodRefs(extra: map<string, Ref>) {
    forall id :: id in extra ==> TrimSpace(id) != "" && extra[id].ref == id
  }

  lemma {:induction false} FindMembers(servers: seq<Entry>, id: string)
    ensures Find(servers, id).Some? <==> id in EntryIds(servers)
    ensures Find(servers, id).Some? ==> Find(servers, id).value in servers && Find(servers, id).value.id == id
  {
    if servers != [] {
      FindMembers(servers[..|servers| - 1], id);
    }
  }

  lemma {:induction false} FindIsUnique(servers: seq<Entry>, e: Entry)
    requires NoDuplicates(EntryIds(servers)) && e in servers
    ensures Find(servers, e.id) == Some(e)
  {
    var front, last := servers[..|servers| - 1], servers[|servers| - 1];
    assert EntryIds(servers) == EntryIds(front) + [last.id];
    OneMoreName(EntryIds(front), last.id);
    if e != last {
      assert e in front;
      FindIsUnique(front, e);
      FindMembers(front, e.id);
    }
  }

  lemma {:induction false} OthersKeepIds(servers: seq<Entry>, id: string)
    ensures forall x :: x in EntryIds(Others(servers, id)) <==> x in EntryIds(servers) && x != id
  {
    if servers != [] {
      var front, e := servers[..|servers| - 1], servers[|servers| - 1];
      OthersKeepIds(front, id);
      EntryIdsSnoc(Others(front, id), e);
      assert Others(servers, id) == if e.id == id then Others(front, id) else Others(front, id) + [e];
    }
  }

  /** One live connection takes over its saved policy; name, keys and peers stay its own. */
  method PublishOne(live: Entry, saved: Entry, ghost source: Entry, ghost target: string, ghost zones: seq<Zone>, ghost transfer: bool)
      returns (out: Entry)
    requires saved == ReplacedEntry(live, source, target, zones, transfer)
    ensures out == PublishedEntry(saved)
  {
    hide Part, ReplacementFallbacks;
    var routing := Normalize(saved.config.routing);
    hide PublishedZones;
    var config := live.config.(routing := routing, fallbacks := saved.config.fallbacks, standby := saved.config.standby);
    out := live.(config := config);
    if saved.applied.Some? {
      var applied := saved.applied.value;
      // The snapshot was built around the list of rules that has just been normalised in place.
      out := out.(applied := Some(applied.(routing := saved.config.routing.(zones := routing.zones))));
    }
  }

  method DescribeLive(refs: map<string, Ref>, ids: seq<string>, describe: string -> Ref) returns (out: map<string, Ref>)
    ensures out.Keys == refs.Keys + set x | x in ids
    ensures forall x :: x in out ==> out[x] == if x in ids then describe(x) else refs[x]
  {
    out := refs;
    for i := 0 to |ids|
      invariant out.Keys == refs.Keys + set x | x in ids[..i]
      invariant forall x :: x in out ==> out[x] == if x in ids[..i] then describe(x) else refs[x]
    {
      assert ids[..i + 1] == ids[..i] + [ids[i]];
      out := out[ids[i] := describe(ids[i])];
    }
    assert ids[..|ids|] == ids;
  }

  /** Imported references join those of connections that are not live; a malformed one refuses the import. */
  method AddImported(refs: map<string, Ref>, ids: seq<string>, extra: map<string, Ref>) returns (out: Option<map<string, Ref>>)
    requires forall x :: x in ids ==> x in refs
    ensures out.Some? <==> GoodRefs(extra)
    ensures out.Some? ==> out.value.Keys == refs.Keys + extra.Keys
    ensures out.Some? ==> forall x :: x in out.value ==> out.value[x] == if x in extra && x !in ids then extra[x] else refs[x]
  {
    hide TrimSpace;
    var known := refs;
    var todo := extra.Keys;
    while todo != {}
      invariant todo <= extra.Keys
      invariant forall x :: x in extra && x !in todo ==> TrimSpace(x) != "" && extra[x].ref == x
      invariant known.Keys == refs.Keys + (extra.Keys - todo)
      invariant forall x :: x in known ==> known[x] == if x in extra && x !in todo && x !in ids then extra[x] else refs[x]
    {
      var id :| id in todo;
      todo := todo - {id};
      if TrimSpace(id) == "" || extra[id].ref != id {
        return None;
      }
      if id !in ids {
        known := known[id := extra[id]];
      }
    }
    return Some(known);
  }

  class RuleStore {
    var memory: Persisted
    var disk: Persisted

    predicate Valid()
      reads this
    {
      WellNamed(memory.servers) && memory.activeID in EntryIds(memory.servers)
    }

    constructor (state: Persisted)
      requires WellNamed(state.servers) && state.activeID in EntryIds(state.servers)
      ensures Valid() && memory == state && disk == state
    {
      memory, disk := state, state;
    }

    method Persist(state: Persisted, outcome: SaveOutcome) returns (ok: bool)
      modifies this`disk
      ensures ok <==> outcome.Written?
      ensures disk == DiskAfter(old(disk), state, outcome)
    {
      if outcome.Refused? {
        return false;
      }
      disk := state;
      return outcome.Written?;
    }

    // ---------- saving a rule list ----------

    method CollectRefs(describe: string -> Ref, extra: map<string, Ref>) returns (refs: Option<map<string, Ref>>)
      ensures refs.Some? <==> GoodRefs(extra)
      ensures refs.Some? ==> refs.value == KnownRefs(memory, describe, extra)
    {
      hide TrimSpace;
      var ids := EntryIds(memory.servers);
      hide EntryIds;
      var live := DescribeLive(memory.refs, ids, describe);
      refs := AddImported(live, ids, extra);
      if refs.Some? {
        assert refs.value.Keys == KnownRefs(memory, describe, extra).Keys;
        assert refs.value == KnownRefs(memory, describe, extra);
      }
    }

    method SaveRoutingRules(mode: string, zones: seq<Zone>, extra: map<string, Ref>, describe: string -> Ref,
                            defaultID: string, outcome: SaveOutcome) returns (err: Option<SaveError>)
      requires Valid()
      modifies this
      ensures Valid()
      // The first thing wrong is reported.
      ensures var saved := SavedZones(zones, EntryIds(old(memory).servers), KnownRefs(old(memory), describe, extra), defaultID);
              err == if !GoodRefs(extra) then Some(BadReference)
                     else if saved.Err? then Some(saved.error)
                     else if !outcome.Written? then Some(WriteError)
                     else None
      // A refusal names the first rule that cannot be stored, with its reason.
      ensures err.Some? && err != Some(BadReference) && err != Some(WriteError) ==>
                exists i :: FirstRefused(zones, EntryIds(old(memory).servers), KnownRefs(old(memory), describe, extra), defaultID, i, err.value)
      // Whatever went wrong, memory is as before; only a write can change the disk.
      ensures err.Some? ==> memory == old(memory)
      ensures err.Some? && err != Some(WriteError) ==> disk == old(disk)
      ensures err.None? || err == Some(WriteError) ==>
                var refs := KnownRefs(old(memory), describe, extra);
                var saved := SavedZones(zones, EntryIds(old(memory).servers), refs, defaultID);
                saved.Ok? && disk == DiskAfter(old(disk), SavedState(old(memory), mode, saved.value, refs), outcome)
      // A saved list is in memory and on disk, and lists back in order.
      ensures err.None? ==> memory == disk
      ensures err.None? ==>
                var shown := ListRules(memory.servers, memory.pending);
                && |shown| == |zones|
                && forall i :: 0 <= i < |zones| ==> ShownAs(zones[i], shown[i], i + 1, defaultID)
      // Connections are switched on by the rules that use them; references are kept while a rule needs them.
      ensures err.None? ==>
                && SavedConnections(old(memory), mode, zones, defaultID, memory)
                && RefsRetained(KnownRefs(old(memory), describe, extra), memory.pending, memory.servers, memory.refs)
    {
      hide TrimSpace, SavedZones, SavedZone, KnownRefs, GoodRefs, IsPartition, RetainedRefs, RefsRetained, SavedConnections, FirstRefused, ShownAs, ListRules;
      hide Part, WaitingRules, WellNamed;
      var refs := CollectRefs(describe, extra);
      if refs.None? {
        return Some(BadReference);
      }
      var ids := EntryIds(memory.servers);
      var partition := PartitionRules(zones, ids, refs.value, defaultID);
      if partition.Err? {
        NamesAreTrimmed(memory.servers);
        FirstRefusalIsReported(zones, ids, refs.value, defaultID);
        WriteErrorIsNotARefusal(zones, ids, refs.value, defaultID);
        return Some(partition.error);
      }
      ghost var saved := SavedZones(zones, ids, refs.value, defaultID).value;
      var candidate := StateOf(mode, partition.value, refs.value, saved);
      var ok := Persist(candidate, outcome);
      if !ok {
        return Some(WriteError);
      }
      SavedRulesListBack(memory, mode, zones, refs.value, defaultID);
      SavedEntriesSplit(memory.servers, ListMode(mode), saved);
      SavedIsWellNamed(memory.servers, SavedEntries(memory.servers, ListMode(mode), saved));
      StateIsSaved(memory, mode, zones, refs.value, defaultID);
      RefsAreRetained(refs.value, candidate.pending, candidate.servers);
      memory := candidate;
      return None;
    }

    /** The candidate state, entry by entry from the partition. */
    method StateOf(mode: string, p: Partition, refs: map<string, Ref>, ghost saved: seq<Zone>) returns (candidate: Persisted)
      requires IsPartition(p, saved)
      ensures candidate == SavedState(memory, mode, saved, refs)
    {
      hide Part, WaitingRules, Referenced, RetainedRefs;
      var listMode := ListMode(mode);
      var servers: seq<Entry> := [];
      for i := 0 to |memory.servers|
        invariant servers == SavedEntries(memory.servers[..i], listMode, saved)
      {
        assert memory.servers[..i + 1][..i] == memory.servers[..i];
        var e := memory.servers[i];
        var part := PartOf(p.part, e.id);
        var active := listMode != "off" && (|part| > 0 || e.id in p.referenced);
        servers := servers + [e.(config := e.config.(routing := Routing(listMode, active, part)))];
      }
      assert memory.servers[..|memory.servers|] == memory.servers;
      candidate := memory.(servers := servers, mode := listMode, pending := p.pending,
                           refs := RetainedRefs(refs, p.pending, servers));
    }

    // ---------- deleting with a replacement ----------

    /** `loaded`: the file could be read back; `runtime`: the routes were applied and the old tunnel stopped. */
    method DeleteWithReplacement(rawID: string, rawReplacement: string, cancelled: bool,
                                 first: SaveOutcome, second: SaveOutcome, loaded: bool, runtime: bool) returns (r: DeleteResult)
      requires Valid()
      modifies this
      ensures Valid()
      ensures r.Invalid? <==> cancelled || !CanDelete(old(memory), TrimSpace(rawID), TrimSpace(rawReplacement))
      // All or nothing: a refused deletion touches nothing,
      ensures r.Invalid? ==> memory == old(memory) && disk == old(disk)
      // one not done leaves the old state in memory and on disk,
      ensures r.NotDone? ==> memory == old(memory) && disk == Snapshot(old(memory))
      // one that cannot be confirmed leaves memory alone,
      ensures r.Uncertain? ==>
                && memory == old(memory) && !first.Written? && !second.Written?
                && (!loaded || disk != Snapshot(old(memory)))
      // and one that was done has the new state in memory and on disk.
      ensures r.Committed? || r.Deleted? ==>
                && CanDelete(old(memory), TrimSpace(rawID), TrimSpace(rawReplacement))
                && disk == Target(old(memory), Find(old(memory).servers, TrimSpace(rawID)).value, TrimSpace(rawReplacement))
                && memory == PublishedState(disk)
                && (memory == disk <==> LeavesNothingUnset(old(memory), TrimSpace(rawID)))
      ensures r.Deleted? <==> !r.Invalid? && first.Written? && runtime
      ensures !r.Invalid? && first.Written? ==> r.Committed? || r.Deleted?
      ensures !r.Invalid? && !first.Written? && second.Written? ==> r.NotDone?
      // When both writes fail, the file itself decides.
      ensures !r.Invalid? && !first.Written? && !second.Written? ==>
                var planned := Target(old(memory), Find(old(memory).servers, TrimSpace(rawID)).value, TrimSpace(rawReplacement));
                && disk == DiskAfter(DiskAfter(old(disk), planned, first), Snapshot(old(memory)), second)
                && r == if !loaded then Uncertain
                        else if disk == Snapshot(old(memory)) then NotDone
                        else if disk == planned then Committed
                        else Uncertain
      // The deleted connection is gone, and exactly the rules that named a connection or waited are still listed, in order.
      ensures r.Committed? || r.Deleted? ==> !Mentions(memory, TrimSpace(rawID))
      // What each connection takes over, keeps and refers to, on disk; memory has modes filled in.
      ensures r.Committed? || r.Deleted? ==>
                && Handover(Snapshot(old(memory)), ListRules(old(memory).servers, old(memory).pending),
                            Find(old(memory).servers, TrimSpace(rawID)).value, TrimSpace(rawReplacement), disk)
                && LiveState(disk, memory)
      ensures r.Committed? || r.Deleted? ==>
                RulesMoved(ListRules(old(memory).servers, old(memory).pending), old(memory).servers,
                              ListRules(memory.servers, memory.pending), TrimSpace(rawID), TrimSpace(rawReplacement))
    {
      hide TrimSpace, ListRules, WellNamed, RetainedRefs, Acyclic, GraphOf, TransferActive, Mentions, RulesMoved, LeavesNothingUnset;
      hide Handover, LiveState;
      hide EntryIds, Others, Find, Candidate, PublishedEntries;
      var id, replacement := TrimSpace(rawID), TrimSpace(rawReplacement);
      if cancelled || id == "" || replacement == "" || id == replacement {
        return Invalid;
      }
      FindMembers(memory.servers, id);
      FindMembers(memory.servers, replacement);
      OthersKeepIds(memory.servers, id);
      var before := Snapshot(memory);
      var rules := AwgRoutingRules(memory.servers, memory.pending);
      var planned := AwgReplacementState(before, rules, id, replacement);
      if planned.Err? {
        return Invalid;
      }
      var candidate := planned.value.0;
      ghost var source := Find(memory.servers, id).value;
      assert CanDelete(memory, id, replacement) && candidate == Target(memory, source, replacement);
      hide CanDelete, Target, Snapshot;
      var warned := false;
      var ok := Persist(candidate, first);
      if !ok {
        var restored := Persist(before, second);
        if restored {
          return NotDone;
        }
        if !loaded {
          return Uncertain;
        }
        if disk == before {
          return NotDone;
        }
        if disk != candidate {
          return Uncertain;
        }
        warned := true;
      }
      DeletionIsComplete(memory, source, replacement);
      TargetIsSettled(memory, source, replacement);
      TargetIsHandedOver(memory, source, replacement);
      PublishedStateIsLive(candidate);
      Publish(candidate, source, replacement);
      if warned || !runtime {
        return Committed;
      }
      return Deleted;
    }

    /** Hands the saved state to the live connections, one by one. */
    method Publish(candidate: Persisted, ghost source: Entry, ghost target: string)
      requires Valid()
      requires source in memory.servers && candidate == Target(memory, source, target)
      modifies this`memory
      ensures memory == PublishedState(candidate)
    {
      hide PublishedEntry, ListRules, RetainedRefs, TransferActive, RetargetedAll, ReplacedEntry, ReplacedEntries;
      hide EntryIds, Find, Others, WaitingRules;
      ghost var rules := ListRules(memory.servers, memory.pending);
      ghost var others := Others(memory.servers, source.id);
      ghost var zones, transfer := RetargetedAll(rules, source.id, target), TransferActive(source, rules);
      ReplacedEntriesMembers(others, source, target, zones, transfer);
      OthersMembers(memory.servers, source.id);
      var servers: seq<Entry> := [];
      for i := 0 to |candidate.servers|
        invariant servers == PublishedEntries(candidate.servers[..i]) && memory == old(memory)
      {
        assert candidate.servers[..i + 1][..i] == candidate.servers[..i];
        var e := candidate.servers[i];
        assert others[i] in others;
        FindIsUnique(memory.servers, others[i]);
        assert e.id == others[i].id by {
          ReplacedEntryId(others[i], source, target, zones, transfer);
        }
        var live := PublishOne(Find(memory.servers, e.id).value, e, source, target, zones, transfer);
        servers := servers + [live];
      }
      assert candidate.servers[..|candidate.servers|] == candidate.servers;
      memory := memory.(activeID := candidate.activeID, servers := servers, pending := candidate.pending, refs := candidate.refs);
    }
  }

  lemma {:induction false} WriteErrorIsNotARefusal(zones: seq<Zone>, ids: seq<string>, refs: map<string, Ref>, defaultID: string)
    ensures SavedZones(zones, ids, refs, defaultID) != Err(WriteError)
  {
    hide TrimSpace, Backups, FirstMissing;
    if zones != [] {
      WriteErrorIsNotARefusal(zones[..|zones| - 1], ids, refs, defaultID);
    }
  }

  lemma NamesAreTrimmed(servers: seq<Entry>)
    requires WellNamed(servers)
    ensures Clean(EntryIds(servers))
  {
  }

  lemma SavedIsWellNamed(before: seq<Entry>, after: seq<Entry>)
    requires WellNamed(before) && EntryIds(after) == EntryIds(before)
    ensures WellNamed(after)
  {
  }

  /** The rule is shown as `ReplacedAs` says, with a mode filled in if it had none. */
  predicate MovedAs(z: Zone, shown: Zone, rank: nat, source: string, target: string) {
    ReplacedAs(z, shown.(mode := z.mode), rank, source, target) && (HasMode(z) ==> shown.mode == z.mode)
  }

  /** The listing shows, in order, exactly the rules that named a connection or waited. */
  predicate RulesMoved(rules: seq<Zone>, servers: seq<Entry>, shown: seq<Zone>, source: string, target: string) {
    var rest := Survivors(rules, servers);
    && |shown| == |rest|
    && forall k :: 0 <= k < |rest| ==> MovedAs(rules[rest[k]], shown[k], rest[k] + 1, source, target)
  }

  lemma PublishedZonesMentionTheSame(zones: seq<Zone>, mode: string, id: string)
    requires forall i :: 0 <= i < |zones| ==> !RuleMentions(zones[i], id)
    ensures var out := PublishedZones(zones, mode); forall i :: 0 <= i < |out| ==> !RuleMentions(out[i], id)
  {
    hide PublishedZones;
    PublishedZonesAreSame(zones, mode);
    var out := PublishedZones(zones, mode);
    assert forall i :: 0 <= i < |out| ==> SameRule(zones[i], out[i]);
  }

  lemma PublishedConfigMentionsTheSame(c: Config, r: Routing, mode: string, id: string)
    requires !ConfigMentions(c, id) && r.zones == PublishedZones(c.routing.zones, mode)
    ensures !ConfigMentions(c.(routing := r), id)
  {
    hide PublishedZones, RuleMentions;
    PublishedZonesMentionTheSame(c.routing.zones, mode, id);
  }

  lemma PublishedEntryMentionsTheSame(e: Entry, id: string)
    requires !EntryMentions(e, id)
    ensures !EntryMentions(PublishedEntry(e), id)
  {
    hide PublishedZones, ConfigMentions;
    var r := e.config.routing;
    PublishedConfigMentionsTheSame(e.config, Published(r), r.mode, id);
    if e.applied.Some? {
      var a := e.applied.value.routing;
      PublishedConfigMentionsTheSame(e.applied.value, a.(zones := PublishedZones(a.zones, r.mode)), r.mode, id);
    }
  }

  lemma PublishedStateMentionsTheSame(saved: Persisted, id: string)
    requires !Mentions(saved, id)
    ensures !Mentions(PublishedState(saved), id)
  {
    hide EntryMentions, RuleMentions, PublishedEntries, PublishedEntry;
    PublishedEntriesMembers(saved.servers);
    forall i | 0 <= i < |saved.servers|
      ensures !EntryMentions(PublishedEntry(saved.servers[i]), id)
    {
      PublishedEntryMentionsTheSame(saved.servers[i], id);
    }
  }

  lemma SameRuleMoved(z: Zone, saved: Zone, live: Zone, rank: nat, source: string, target: string)
    requires SameRule(saved, live) && ReplacedAs(z, saved, rank, source, target)
    ensures MovedAs(z, live, rank, source, target)
  {
    hide TrimSpace, ReplacementFallbacks;
  }

  lemma SameRulesMoved(rules: seq<Zone>, servers: seq<Entry>, saved: seq<Zone>, live: seq<Zone>, source: string, target: string)
    requires SameRules(saved, live) && ShowsSurvivors(rules, servers, saved, source, target)
    requires forall i :: 0 <= i < |rules| ==> Plain(rules[i])
    ensures RulesMoved(rules, servers, live, source, target)
  {
    hide ReplacedAs, SameRule, MovedAs, Survivors, TrimSpace;
    var rest := Survivors(rules, servers);
    forall k | 0 <= k < |rest|
      ensures MovedAs(rules[rest[k]], live[k], rest[k] + 1, source, target)
    {
      assert Plain(rules[rest[k]]);
      SameRuleMoved(rules[rest[k]], saved[k], live[k], rest[k] + 1, source, target);
    }
  }

  /** Dropping references nobody needs keeps the connections and thus what may replace what. */
  lemma SnapshotIsReplaceable(memory: Persisted, source: Entry, target: string)
    requires Replaceable(memory, source, target)
    ensures Replaceable(Snapshot(memory), source, target)
  {
    hide WellNamed, EntryIds, RetainedRefs;
  }

  lemma PublishedTargetListsTheRest(memory: Persisted, source: Entry, target: string)
    requires Replaceable(memory, source, target)
    ensures var after := PublishedState(Target(memory, source, target));
            RulesMoved(ListRules(memory.servers, memory.pending), memory.servers, ListRules(after.servers, after.pending),
                          source.id, target)
  {
    hide Candidate, ListRules, PublishedState, RetainedRefs, ShowsSurvivors, RulesMoved, SameRule, Replaceable, TrimSpace, WellNamed;
    var rules := ListRules(memory.servers, memory.pending);
    var before := Snapshot(memory);
    var candidate := Candidate(before, rules, source, target);
    var after := PublishedState(candidate);
    SnapshotIsReplaceable(memory, source, target);
    assert forall i :: 0 <= i < |rules| ==> Plain(rules[i]) by {
      ConnectionsAreWellNamed(memory, source, target);
      hide Plain;
      ListedRulesArePlain(memory.servers, memory.pending);
    }
    assert SameRules(ListRules(candidate.servers, candidate.pending), ListRules(after.servers, after.pending)) by {
      hide Plain, SameRules, EntryMentions;
      RemainingEntriesForget(before, rules, source, target);
      ForgottenIsExplicit(candidate.servers, source.id);
      PublishedStateListsTheSame(candidate);
    }
    hide Plain, SameRules;
    ReplacementLosesOnlyDanglingRules(before, rules, source, target);
    SameRulesMoved(rules, memory.servers, ListRules(candidate.servers, candidate.pending), ListRules(after.servers, after.pending),
                   source.id, target);
  }

  lemma ConnectionsAreWellNamed(memory: Persisted, source: Entry, target: string)
    requires Replaceable(memory, source, target)
    ensures WellNamed(memory.servers)
  {
  }

  lemma ForgottenIsExplicit(servers: seq<Entry>, source: string)
    requires forall i :: 0 <= i < |servers| ==> forall z :: z in servers[i].config.routing.zones ==> Forgot(z, source)
    ensures forall i :: 0 <= i < |servers| ==> forall z :: z in servers[i].config.routing.zones ==> Explicit(z)
  {
    hide RuleMentions, Clean, TrimSpace;
  }

  /** The published target state: well named, without a trace of the source, listing the rules that named a connection or waited. */
  lemma DeletionIsComplete(memory: Persisted, source: Entry, target: string)
    requires Replaceable(memory, source, target) && memory.activeID in EntryIds(memory.servers)
    ensures var after := PublishedState(Target(memory, source, target));
            && WellNamed(after.servers) && after.activeID in EntryIds(after.servers)
            && !Mentions(after, source.id)
            && RulesMoved(ListRules(memory.servers, memory.pending), memory.servers, ListRules(after.servers, after.pending),
                             source.id, target)
  {
    hide Candidate, ListRules, RetainedRefs, Replaceable, WellNamed, Mentions, RulesMoved, Plain, PublishedEntries, EntryIds;
    var rules := ListRules(memory.servers, memory.pending);
    var candidate := Target(memory, source, target);
    SnapshotIsReplaceable(memory, source, target);
    ConnectionsAreWellNamed(memory, source, target);
    ListedRulesArePlain(memory.servers, memory.pending);
    NoTraceOfTheSource(Snapshot(memory), rules, source, target);
    PublishedStateMentionsTheSame(candidate, source.id);
    RemainingAreWellNamed(Snapshot(memory), rules, source, target);
    PublishedEntriesMembers(candidate.servers);
    SavedIsWellNamed(candidate.servers, PublishedEntries(candidate.servers));
    ActiveRemains(Snapshot(memory), rules, source, target);
    NamesAreClean(memory, source, target);
    PublishedTargetListsTheRest(memory, source, target);
  }

  lemma ActiveRemains(before: Persisted, rules: seq<Zone>, source: Entry, target: string)
    ensures Candidate(before, rules, source, target).activeID == if before.activeID == source.id then target else before.activeID
  {
  }

  /** What a saver sees is the memory, with only the references that rules still need. */
  lemma SnapshotIsMemory(memory: Persisted)
    ensures Snapshot(memory).(refs := memory.refs) == memory
    ensures RefsRetained(memory.refs, memory.pending, memory.servers, Snapshot(memory).refs)
  {
    hide RetainedRefs, RefsRetained;
    RefsAreRetained(memory.refs, memory.pending, memory.servers);
  }

  lemma TargetIsHandedOver(memory: Persisted, source: Entry, target: string)
    requires Replaceable(memory, source, target)
    ensures Handover(Snapshot(memory), ListRules(memory.servers, memory.pending), source, target, Target(memory, source, target))
  {
    hide Handover, Candidate, ListRules, Replaceable, Snapshot;
    SnapshotIsReplaceable(memory, source, target);
    CandidateHandsOver(Snapshot(memory), ListRules(memory.servers, memory.pending), source, target);
  }

  // ---------- when memory and disk agree ----------

  /** The rule is held by a connection after the replacement. */
  predicate GoesToConnection(z: Zone, servers: seq<Entry>, source: string) {
    z.tunnelID == source || (!z.waiting && z.tunnelID in EntryIds(servers))
  }

  /** The remaining connections have a current routing mode, and every listed rule that goes to one has a mode. */
  predicate LeavesNothingUnset(memory: Persisted, source: string) {
    var rules := ListRules(memory.servers, memory.pending);
    && (forall e :: e in memory.servers && e.id != source ==> HasCurrentMode(e))
    && (forall i :: 0 <= i < |rules| ==> (GoesToConnection(rules[i], memory.servers, source) ==> HasMode(rules[i])))
  }

  /** The rules a connection of this name would hold have modes. */
  predicate PartHasModes(zones: seq<Zone>, id: string) {
    AllHaveModes(Part(zones, id))
  }

  lemma {:induction false} PartModes(zones: seq<Zone>, id: string)
    ensures PartHasModes(zones, id) <==>
            forall i :: 0 <= i < |zones| ==> (!zones[i].waiting && zones[i].tunnelID == id ==> HasMode(zones[i]))
  {
    if zones != [] {
      var n := |zones| - 1;
      PartModes(zones[..n], id);
      assert forall i :: 0 <= i < n ==> zones[..n][i] == zones[i];
      hide HasMode;
      var front := Part(zones[..n], id);
      assert forall i :: 0 <= i < |front| ==> (front + [zones[n]])[i] == front[i];
      assert (front + [zones[n]])[|front|] == zones[n];
    }
  }

  lemma ReplacedEntrySettled(e: Entry, source: Entry, target: string, zones: seq<Zone>, transfer: bool)
    ensures Settled(ReplacedEntry(e, source, target, zones, transfer)) <==> HasCurrentMode(e) && PartHasModes(zones, e.id)
  {
    hide Part, AllHaveModes, ReplacementFallbacks;
  }

  lemma RetargetedGoes(z: Zone, rank: nat, servers: seq<Entry>, source: string, target: string)
    requires source in EntryIds(servers) && target in EntryIds(servers) && target != source
    ensures var r := Retargeted(z, rank, source, target);
            && (!r.waiting && r.tunnelID in EntryIds(servers) && r.tunnelID != source <==> GoesToConnection(z, servers, source))
            && r.mode == z.mode
  {
    hide ReplacementFallbacks, EntryIds;
  }

  lemma ReplacedEntriesSettled(others: seq<Entry>, source: Entry, target: string, zones: seq<Zone>, transfer: bool)
    ensures var r := ReplacedEntries(others, source, target, zones, transfer);
            (forall k :: 0 <= k < |r| ==> Settled(r[k])) <==>
            (forall e :: e in others ==> HasCurrentMode(e) && PartHasModes(zones, e.id))
  {
    hide Settled, HasCurrentMode, PartHasModes, ReplacedEntry, ReplacedEntries, EntryIds;
    var r := ReplacedEntries(others, source, target, zones, transfer);
    ReplacedEntriesMembers(others, source, target, zones, transfer);
    forall k | 0 <= k < |others|
      ensures Settled(r[k]) <==> HasCurrentMode(others[k]) && PartHasModes(zones, others[k].id)
    {
      ReplacedEntrySettled(others[k], source, target, zones, transfer);
    }
    if forall k :: 0 <= k < |r| ==> Settled(r[k]) {
      forall e | e in others
        ensures HasCurrentMode(e) && PartHasModes(zones, e.id)
      {
        var k :| 0 <= k < |others| && others[k] == e;
        assert Settled(r[k]);
      }
    } else {
      var k :| 0 <= k < |r| && !Settled(r[k]);
      assert others[k] in others;
    }
  }

  /** The remaining connections' rules have modes exactly when the rules that go to a connection have. */
  lemma PartsHaveModes(memory: Persisted, source: Entry, target: string, rules: seq<Zone>)
    requires Replaceable(memory, source, target)
    ensures var zones := RetargetedAll(rules, source.id, target);
            (forall e :: e in memory.servers && e.id != source.id ==> PartHasModes(zones, e.id)) <==>
            (forall i :: 0 <= i < |rules| ==> (GoesToConnection(rules[i], memory.servers, source.id) ==> HasMode(rules[i])))
  {
    hide EntryIds, RetargetedAll, PartHasModes, Replaceable, GoesToConnection, Retargeted;
    var zones := RetargetedAll(rules, source.id, target);
    NamesAreClean(memory, source, target);
    RetargetedMembers(rules, source.id, target);
    EntryIdsMembers(memory.servers);
    forall i | 0 <= i < |rules|
      ensures HasMode(zones[i]) <==> HasMode(rules[i])
      ensures !zones[i].waiting && zones[i].tunnelID in EntryIds(memory.servers) && zones[i].tunnelID != source.id <==>
              GoesToConnection(rules[i], memory.servers, source.id)
    {
      RetargetedGoes(rules[i], i + 1, memory.servers, source.id, target);
    }
    hide HasMode;
    forall e | e in memory.servers && e.id != source.id
      ensures PartHasModes(zones, e.id) <==>
              forall i :: 0 <= i < |zones| ==> (!zones[i].waiting && zones[i].tunnelID == e.id ==> HasMode(zones[i]))
      ensures e.id in EntryIds(memory.servers)
    {
      PartModes(zones, e.id);
      var k :| 0 <= k < |memory.servers| && memory.servers[k] == e;
      assert EntryIds(memory.servers)[k] == e.id;
    }
    if forall e :: e in memory.servers && e.id != source.id ==> PartHasModes(zones, e.id) {
      forall i | 0 <= i < |rules| && GoesToConnection(rules[i], memory.servers, source.id)
        ensures HasMode(rules[i])
      {
        var k :| 0 <= k < |memory.servers| && EntryIds(memory.servers)[k] == zones[i].tunnelID;
        assert PartHasModes(zones, memory.servers[k].id);
      }
    }
  }

  /** What was saved is what is published exactly when nothing is left unset. */
  lemma TargetIsSettled(memory: Persisted, source: Entry, target: string)
    requires Replaceable(memory, source, target)
    ensures PublishedState(Target(memory, source, target)) == Target(memory, source, target) <==> LeavesNothingUnset(memory, source.id)
  {
    hide PublishedState, ListRules, Settled, Others, RetargetedAll, PartHasModes, HasMode, HasCurrentMode, Replaceable,
         GoesToConnection, ReplacedEntries, RetainedRefs, WaitingRules, TransferActive;
    var rules, others := ListRules(memory.servers, memory.pending), Others(memory.servers, source.id);
    var zones, transfer := RetargetedAll(rules, source.id, target), TransferActive(source, rules);
    var saved := Target(memory, source, target);
    assert saved.servers == ReplacedEntries(others, source, target, zones, transfer);
    hide Target;
    PublishedStateFixed(saved);
    ReplacedEntriesSettled(others, source, target, zones, transfer);
    OthersMembers(memory.servers, source.id);
    assert (forall k :: 0 <= k < |saved.servers| ==> Settled(saved.servers[k])) <==>
           (forall e :: e in memory.servers && e.id != source.id ==> HasCurrentMode(e) && PartHasModes(zones, e.id));
    PartsHaveModes(memory, source, target, rules);
  }
}
