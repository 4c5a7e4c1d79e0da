/**
  What a replacement hands over, connection by connection, in terms of the fields
  before and after (awgReplacementState in delete_replacement.go, Normalize in
  config.go, awgRetainedConnectionRefs in pending_rules.go).
 */
module Handovers {
  import opened Wrappers
  import opened Text
  import opened Lists
  import opened Zones
  import opened Fallback
  import opened StableSort
  import opened Rules
  import opened Replacement
  import opened ReplacementState
  import opened Publishing

  // ---------- backups ----------

  /** What backup y is called after the replacement. */
  predicate Becomes(y: string, source: string, target: string, x: string) {
    x == if TrimSpace(y) == source then target else TrimSpace(y)
  }

  /** The k-th backup is the first that becomes x. */
  predicate FirstBecomes(given: seq<string>, source: string, target: string, x: string, k: nat) {
    && k < |given| && Becomes(given[k], source, target, x)
    && forall m :: 0 <= m < k ==> !Becomes(given[m], source, target, x)
  }

  /** The renamed backups, each once, without the connection itself, in the order in which they were given. */
  ghost predicate RenamedBackups(given: seq<string>, self: string, source: string, target: string, out: seq<string>) {
    && NoDuplicates(out)
    && (forall x :: x in out <==> x != "" && x != self && exists k :: 0 <= k < |given| && Becomes(given[k], source, target, x))
    && (forall i: nat, j: nat, ki: nat, kj: nat ::
          i < j < |out| && FirstBecomes(given, source, target, out[i], ki) && FirstBecomes(given, source, target, out[j], kj)
          ==> ki < kj)
  }

  lemma RenamedReads(given: seq<string>, source: string, target: string, x: string, k: nat)
    requires TrimSpace(target) == target && FirstBecomes(given, source, target, x, k)
    ensures FirstReads(RenamedAll(given, source, target), x, k)
  {
    hide TrimSpace;
    RenamedMembers(given, source, target);
    forall i | 0 <= i < |given|
      ensures TrimSpace(Renamed(given[i], source, target)) == Renamed(given[i], source, target)
    {
      TrimSpaceTrims(given[i]);
    }
  }

  lemma BackupsAreRenamed(given: seq<string>, self: string, source: string, target: string)
    requires source != target && target != "" && TrimSpace(target) == target && TrimSpace(self) == self
    ensures RenamedBackups(given, self, source, target, ReplacementFallbacks(self, given, source, target))
  {
    hide TrimSpace, FirstBecomes, FirstReads, Backups, Clean, NoDuplicates;
    var out := ReplacementFallbacks(self, given, source, target);
    ReplacementFallbacksMembers(self, given, source, target);
    forall i: nat, j: nat, ki: nat, kj: nat |
      i < j < |out| && FirstBecomes(given, source, target, out[i], ki) && FirstBecomes(given, source, target, out[j], kj)
      ensures ki < kj
    {
      RenamedReads(given, source, target, out[i], ki);
      RenamedReads(given, source, target, out[j], kj);
      BackupsKeepOrder(self, RenamedAll(given, source, target), i, j, ki, kj);
    }
    hide RenamedAll;
    forall x
      ensures x in out <==> x != "" && x != self && exists k :: 0 <= k < |given| && Becomes(given[k], source, target, x)
    {
      assert forall k :: 0 <= k < |given| ==> (Becomes(given[k], source, target, x) <==> Renamed(given[k], source, target) == x);
    }
  }

  // ---------- one connection ----------

  /** The deleted connection carried traffic: all of it, or that of an enabled rule. */
  predicate Carries(source: Entry, rules: seq<Zone>) {
    && source.config.routing.active
    && (source.config.routing.mode == "full" || exists i :: 0 <= i < |rules| && rules[i].tunnelID == source.id && rules[i].enabled)
  }

  /**
    The connection after the replacement. The target is switched on and taken out
    of standby if the source carried traffic and routing is not off; every other
    connection, and the target otherwise, keeps both flags. The target's backups
    are its own followed by the source's. The applied snapshot agrees on routing,
    standby and backups and keeps everything else.
   */
  ghost predicate HandedOver(e: Entry, source: Entry, rules: seq<Zone>, target: string, after: Entry) {
    var takesOver := e.id == target && Carries(source, rules) && e.config.routing.mode != "off";
    && after.id == e.id && after.name == e.name && after.config.rest == e.config.rest
    && after.config.routing.mode == e.config.routing.mode
    && (takesOver ==> after.config.routing.active && !after.config.standby)
    && (!takesOver ==> after.config.routing.active == e.config.routing.active && after.config.standby == e.config.standby)
    && RenamedBackups(if e.id == target then e.config.fallbacks + source.config.fallbacks else e.config.fallbacks,
                      e.id, source.id, target, after.config.fallbacks)
    && (forall z :: z in after.config.routing.zones ==> !z.waiting && z.tunnelID == e.id)
    && (after.applied.Some? <==> e.applied.Some?)
    && (after.applied.Some? ==>
          && after.applied.value.routing == after.config.routing
          && after.applied.value.standby == after.config.standby
          && after.applied.value.fallbacks == after.config.fallbacks
          && after.applied.value.rest == e.applied.value.rest)
  }

  lemma EntryIsHandedOver(e: Entry, source: Entry, rules: seq<Zone>, target: string)
    requires source.id != target && target != "" && TrimSpace(target) == target && TrimSpace(e.id) == e.id
    ensures HandedOver(e, source, rules, target,
                       ReplacedEntry(e, source, target, RetargetedAll(rules, source.id, target), TransferActive(source, rules)))
  {
    hide TrimSpace, RenamedBackups, ReplacementFallbacks, Part, RetargetedAll;
    PartBelongs(RetargetedAll(rules, source.id, target), e.id);
    BackupsAreRenamed(if e.id == target then e.config.fallbacks + source.config.fallbacks else e.config.fallbacks,
                      e.id, source.id, target);
  }

  // ---------- references ----------

  predicate ZoneBacksUp(z: Zone, id: string) {
    exists j :: 0 <= j < |z.fallbacks| && TrimSpace(z.fallbacks[j]) == id
  }

  /** A waiting rule names the connection, or any rule has it as a backup. */
  predicate IsNamed(pending: seq<Zone>, servers: seq<Entry>, id: string) {
    || (exists i :: 0 <= i < |pending| && (TrimSpace(pending[i].tunnelID) == id || ZoneBacksUp(pending[i], id)))
    || (exists i, k {:trigger servers[i].config.routing.zones[k]} :: 0 <= i < |servers| && 0 <= k < |servers[i].config.routing.zones|
          && ZoneBacksUp(servers[i].config.routing.zones[k], id))
  }

  /** Of connections that are not there, exactly those that rules still name have a reference, the known one or a bare label. */
  ghost predicate RefsRetained(refs: map<string, Ref>, pending: seq<Zone>, servers: seq<Entry>, kept: map<string, Ref>) {
    && (forall id :: id in kept <==> id != "" && id !in EntryIds(servers) && IsNamed(pending, servers, id))
    && (forall id :: id in kept ==> kept[id].ref == id && kept[id].details == if id in refs then refs[id].details else id)
  }

  lemma MentionedMeansNamed(pending: seq<Zone>, servers: seq<Entry>, id: string)
    ensures id in Mentioned(pending, servers) <==> IsNamed(pending, servers, id)
  {
    hide TrimSpace;
    assert forall z: Zone :: id in TrimmedSet(z.fallbacks) <==> ZoneBacksUp(z, id);
    hide TrimmedSet, ZoneBacksUp;
    assert forall zones: seq<Zone> :: id in MentionedBy(zones) <==> exists i :: 0 <= i < |zones| && id in TrimmedSet(zones[i].fallbacks);
    hide MentionedBy;
    if IsNamed(pending, servers, id) && !(exists i :: 0 <= i < |pending| && (TrimSpace(pending[i].tunnelID) == id || ZoneBacksUp(pending[i], id))) {
      var i, k :| 0 <= i < |servers| && 0 <= k < |servers[i].config.routing.zones| && ZoneBacksUp(servers[i].config.routing.zones[k], id);
      assert id in MentionedBy(servers[i].config.routing.zones);
    }
  }

  lemma RefsAreRetained(refs: map<string, Ref>, pending: seq<Zone>, servers: seq<Entry>)
    ensures RefsRetained(refs, pending, servers, RetainedRefs(refs, pending, servers))
  {
    hide Mentioned, IsNamed;
    forall id
      ensures id in Mentioned(pending, servers) <==> IsNamed(pending, servers, id)
    {
      MentionedMeansNamed(pending, servers, id);
    }
  }

  // ---------- the whole state ----------

  function Remaining(ids: seq<string>, id: string): seq<string> {
    if ids == [] then [] else (if ids[0] == id then [] else [ids[0]]) + Remaining(ids[1..], id)
  }

  /** Every remaining connection is handed over, in the old order; what was selected follows the rules. */
  ghost predicate Handover(before: Persisted, rules: seq<Zone>, source: Entry, target: string, after: Persisted) {
    && EntryIds(after.servers) == Remaining(EntryIds(before.servers), source.id)
    && (forall e, k :: e in before.servers && 0 <= k < |after.servers| && after.servers[k].id == e.id ==>
          HandedOver(e, source, rules, target, after.servers[k]))
    && after.activeID == (if before.activeID == source.id then target else before.activeID)
    && after.mode == before.mode && after.rest == before.rest
    && (forall z :: z in after.pending ==> z.waiting)
    && RefsRetained(before.refs, after.pending, after.servers, after.refs)
  }

  lemma {:induction false} RemainingSnoc(ids: seq<string>, x: string, id: string)
    ensures Remaining(ids + [x], id) == Remaining(ids, id) + (if x == id then [] else [x])
  {
    if ids != [] {
      assert (ids + [x])[1..] == ids[1..] + [x];
      RemainingSnoc(ids[1..], x, id);
    }
  }

  lemma {:induction false} OthersRemain(servers: seq<Entry>, id: string)
    ensures EntryIds(Others(servers, id)) == Remaining(EntryIds(servers), id)
  {
    if servers != [] {
      var front, e := servers[..|servers| - 1], servers[|servers| - 1];
      OthersRemain(front, id);
      assert EntryIds(servers) == EntryIds(front) + [e.id];
      RemainingSnoc(EntryIds(front), e.id, id);
      hide Remaining;
      if e.id == id {
        assert Others(servers, id) == Others(front, id);
      } else {
        assert Others(servers, id) == Others(front, id) + [e];
        EntryIdsSnoc(Others(front, id), e);
      }
    }
  }

  lemma {:induction false} SameIdSameEntry(servers: seq<Entry>, a: Entry, b: Entry)
    requires NoDuplicates(EntryIds(servers)) && a in servers && b in servers && a.id == b.id
    ensures a == b
  {
    EntryIdsMembers(servers);
    var i :| 0 <= i < |servers| && servers[i] == a;
    var j :| 0 <= j < |servers| && servers[j] == b;
    assert EntryIds(servers)[i] == EntryIds(servers)[j];
  }

  /** The computed state hands everything over. */
  lemma CandidateHandsOver(before: Persisted, rules: seq<Zone>, source: Entry, target: string)
    requires Replaceable(before, source, target)
    ensures Handover(before, rules, source, target, Candidate(before, rules, source, target))
  {
    hide TrimSpace, RetainedRefs, RefsRetained, ReplacedEntry, HandedOver, RetargetedAll, TransferActive, WaitingRules, Others, EntryIds,
         ReplacedEntries, Remaining;
    var zones, transfer := RetargetedAll(rules, source.id, target), TransferActive(source, rules);
    var others, after := Others(before.servers, source.id), Candidate(before, rules, source, target);
    NamesAreClean(before, source, target);
    OthersRemain(before.servers, source.id);
    ReplacedEntriesMembers(others, source, target, zones, transfer);
    EntryIdsMembers(before.servers);
    EntryIdsMembers(others);
    OthersMembers(before.servers, source.id);
    PartBelongs(zones, "");
    RefsAreRetained(before.refs, after.pending, after.servers);
    forall e, k | e in before.servers && 0 <= k < |after.servers| && after.servers[k].id == e.id
      ensures HandedOver(e, source, rules, target, after.servers[k])
    {
      ReplacedEntryId(others[k], source, target, zones, transfer);
      assert others[k] in others;
      SameIdSameEntry(before.servers, e, others[k]);
      var i :| 0 <= i < |before.servers| && before.servers[i] == e;
      assert EntryIds(before.servers)[i] == e.id;
      EntryIsHandedOver(e, source, rules, target);
    }
  }

  // ---------- what the live connections hold ----------

  /** The rule with its mode filled in: `exclude` under the old global mode exclude, otherwise `include`. */
  predicate ModeFilled(z: Zone, globalMode: string, live: Zone) {
    && live.(mode := z.mode) == z
    && (z.mode == "include" || z.mode == "exclude" ==> live.mode == z.mode)
    && (z.mode != "include" && z.mode != "exclude" ==> live.mode == if globalMode == "exclude" then "exclude" else "include")
  }

  predicate ModesFilled(zones: seq<Zone>, globalMode: string, live: seq<Zone>) {
    |live| == |zones| && forall i :: 0 <= i < |zones| ==> ModeFilled(zones[i], globalMode, live[i])
  }

  /** The live connection: as saved, with rule modes filled in and an unset or old routing mode replaced by `off` or `zones`. */
  predicate LiveAs(saved: Entry, live: Entry) {
    var mode := saved.config.routing.mode;
    && live.id == saved.id && live.name == saved.name
    && live.config.fallbacks == saved.config.fallbacks && live.config.standby == saved.config.standby && live.config.rest == saved.config.rest
    && live.config.routing.active == saved.config.routing.active
    && (mode == "" ==> live.config.routing.mode == "off")
    && (mode == "include" || mode == "exclude" ==> live.config.routing.mode == "zones")
    && (mode != "" && mode != "include" && mode != "exclude" ==> live.config.routing.mode == mode)
    && ModesFilled(saved.config.routing.zones, mode, live.config.routing.zones)
    && (live.applied.Some? <==> saved.applied.Some?)
    && (saved.applied.Some? ==>
          && live.applied.value.(routing := saved.applied.value.routing) == saved.applied.value
          && live.applied.value.routing.(zones := saved.applied.value.routing.zones) == saved.applied.value.routing
          && ModesFilled(saved.applied.value.routing.zones, mode, live.applied.value.routing.zones))
  }

  predicate LiveState(saved: Persisted, live: Persisted) {
    && live.(servers := saved.servers) == saved
    && |live.servers| == |saved.servers|
    && forall k :: 0 <= k < |saved.servers| ==> LiveAs(saved.servers[k], live.servers[k])
  }

  lemma {:induction false} PublishedModesAreFilled(zones: seq<Zone>, mode: string)
    ensures ModesFilled(zones, mode, PublishedZones(zones, mode))
  {
    if zones != [] {
      PublishedModesAreFilled(zones[..|zones| - 1], mode);
    }
  }

  lemma PublishedEntryIsLive(e: Entry)
    ensures LiveAs(e, PublishedEntry(e))
  {
    hide ModesFilled, PublishedZones;
    PublishedModesAreFilled(e.config.routing.zones, e.config.routing.mode);
    if e.applied.Some? {
      PublishedModesAreFilled(e.applied.value.routing.zones, e.config.routing.mode);
    }
  }

  lemma PublishedStateIsLive(saved: Persisted)
    ensures LiveState(saved, PublishedState(saved))
  {
    hide LiveAs, PublishedEntry, PublishedEntries;
    PublishedEntriesMembers(saved.servers);
    forall k | 0 <= k < |saved.servers|
      ensures LiveAs(saved.servers[k], PublishedEntry(saved.servers[k]))
    {
      PublishedEntryIsLive(saved.servers[k]);
    }
  }
}
