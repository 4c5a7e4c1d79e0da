/**
  Rules split per connection and listed back (awgroute.go, pending_rules.go).
  Of a connection's configuration only what routing touches is spelled out; the
  rest (keys, peers, endpoint) is carried along as `rest`.
 */
module Rules {
  import opened Wrappers
  import opened Text
  import opened Lists
  import opened Zones
  import opened Fallback
  import opened StableSort

  datatype Routing = Routing(mode: string, active: bool, zones: seq<Zone>)

  datatype Config = Config(routing: Routing, fallbacks: seq<string>, standby: bool, rest: string)

  datatype Entry = Entry(id: string, name: string, config: Config, applied: Option<Config>)

  datatype Ref = Ref(ref: string, details: string)

  datatype Persisted = Persisted(
    activeID: string, servers: seq<Entry>, mode: string, pending: seq<Zone>, refs: map<string, Ref>, rest: string)

  function EntryIds(servers: seq<Entry>): seq<string> {
    if servers == [] then [] else EntryIds(servers[..|servers| - 1]) + [servers[|servers| - 1].id]
  }

  /** Connections have distinct, trimmed, non-empty IDs. */
  predicate WellNamed(servers: seq<Entry>) {
    NoDuplicates(EntryIds(servers)) && Clean(EntryIds(servers))
  }

  // ---------- listing ----------

  /** One rule as the listing shows it; `owner` is the connection it is stored under. */
  function Listed(z: Zone, owner: string): Zone {
    var named := TrimSpace(z.tunnelID);
    var id := if named == "" && !z.waiting then owner else named;
    var backups :=
      if z.waiting then z.fallbacks
      else if z.RouteValue() == "tunnel" then
        var c := Candidates(id, z.fallbacks); if |c| > 1 then c[1..] else []
      else [];
    z.(tunnelID := id, fallbacks := backups, route := z.RouteValue())
  }

  function ListedAll(zones: seq<Zone>, owner: string): seq<Zone> {
    if zones == [] then []
    else ListedAll(zones[..|zones| - 1], owner) + [Listed(zones[|zones| - 1], owner)]
  }

  /** The rules of all connections, in connection order. */
  function ServerItems(servers: seq<Entry>): seq<Zone> {
    if servers == [] then []
    else
      var last := servers[|servers| - 1];
      ServerItems(servers[..|servers| - 1]) + ListedAll(last.config.routing.zones, last.id)
  }

  function Detached(zones: seq<Zone>): seq<Zone> {
    if zones == [] then [] else Detached(zones[..|zones| - 1]) + [zones[|zones| - 1].(waiting := true)]
  }

  function Items(servers: seq<Entry>, pending: seq<Zone>): seq<Zone> {
    ServerItems(servers) + ListedAll(Detached(pending), "")
  }

  /** Rules without a rank are shown with their position. */
  function Numbered(s: seq<Zone>): seq<Zone> {
    if s == [] then []
    else
      var z := s[|s| - 1];
      Numbered(s[..|s| - 1]) + [if z.order <= 0 then z.(order := |s|) else z]
  }

  function ListRules(servers: seq<Entry>, pending: seq<Zone>): seq<Zone> {
    Numbered(Sort(Items(servers, pending)))
  }

  method AppendRules(items: seq<Zone>, zones: seq<Zone>, owner: string) returns (out: seq<Zone>)
    ensures out == items + ListedAll(zones, owner)
  {
    hide Listed;
    out := items;
    for j := 0 to |zones|
      invariant out == items + ListedAll(zones[..j], owner)
    {
      assert zones[..j + 1] == zones[..j] + [zones[j]];
      ListedAllSnoc(zones[..j], zones[j], owner);
      out := out + [Listed(zones[j], owner)];
    }
    assert zones[..|zones|] == zones;
  }

  method Detach(pending: seq<Zone>) returns (out: seq<Zone>)
    ensures out == Detached(pending)
  {
    out := [];
    for j := 0 to |pending|
      invariant out == Detached(pending[..j])
    {
      assert pending[..j + 1] == pending[..j] + [pending[j]];
      DetachedSnoc(pending[..j], pending[j]);
      out := out + [pending[j].(waiting := true)];
    }
    assert pending[..|pending|] == pending;
  }

  method Number(sorted: seq<Zone>) returns (out: seq<Zone>)
    ensures out == Numbered(sorted)
  {
    out := [];
    for i := 0 to |sorted|
      invariant out == Numbered(sorted[..i])
    {
      assert sorted[..i + 1][..i] == sorted[..i];
      var z := sorted[i];
      if z.order <= 0 {
        z := z.(order := i + 1);
      }
      out := out + [z];
    }
    assert sorted[..|sorted|] == sorted;
  }

  lemma ServerItemsSnoc(servers: seq<Entry>, last: Entry)
    ensures ServerItems(servers + [last]) == ServerItems(servers) + ListedAll(last.config.routing.zones, last.id)
  {
    assert (servers + [last])[..|servers + [last]| - 1] == servers;
  }

  method AwgRoutingRules(servers: seq<Entry>, pending: seq<Zone>) returns (out: seq<Zone>)
    ensures out == ListRules(servers, pending)
    ensures IsListing(servers, pending, out)
  {
    hide ListedAll, Sort, Numbered, Detached, IsListing;
    ListRulesIsListing(servers, pending);
    var items: seq<Zone> := [];
    for i := 0 to |servers|
      invariant items == ServerItems(servers[..i])
    {
      assert servers[..i + 1] == servers[..i] + [servers[i]];
      ServerItemsSnoc(servers[..i], servers[i]);
      items := AppendRules(items, servers[i].config.routing.zones, servers[i].id);
    }
    assert servers[..|servers|] == servers;
    var detached := Detach(pending);
    items := AppendRules(items, detached, "");
    out := Number(Sort(items));
  }

  // ---------- what a listing is ----------

  /** A stored rule and the connection it is stored under; a waiting rule is stored under none. */
  datatype Stored = Stored(rule: Zone, waits: bool, owner: string)

  function StoredUnder(zones: seq<Zone>, waits: bool, owner: string): seq<Stored> {
    seq(|zones|, i requires 0 <= i < |zones| => Stored(zones[i], waits, owner))
  }

  /** All stored rules: those of the connections in their order, then those kept aside. */
  function AllStored(servers: seq<Entry>, pending: seq<Zone>): seq<Stored> {
    if servers == [] then StoredUnder(pending, true, "")
    else StoredUnder(servers[0].config.routing.zones, false, servers[0].id) + AllStored(servers[1..], pending)
  }

  /**
    How a stored rule is listed: under its trimmed connection, or the one it is
    stored under when it names none; with its route spelled out; its backups
    trimmed, each once and without the connection itself if it goes through a
    tunnel, none if it does not; everything else as it is.
   */
  ghost predicate ListedAs(s: Stored, shown: Zone) {
    var z, waits := s.rule, s.waits || s.rule.waiting;
    && shown.name == z.name && shown.order == z.order && shown.mode == z.mode && shown.domains == z.domains
    && shown.includeSubdomains == z.includeSubdomains && shown.ips == z.ips && shown.sourceIPs == z.sourceIPs
    && shown.enabled == z.enabled && shown.waiting == waits
    && shown.tunnelID == (if TrimSpace(z.tunnelID) == "" && !waits then s.owner else TrimSpace(z.tunnelID))
    && (z.route == "tunnel" || z.route == "direct" ==> shown.route == z.route)
    && (z.route != "tunnel" && z.route != "direct" ==> shown.route == if z.mode == "exclude" then "direct" else "tunnel")
    && (waits ==> shown.fallbacks == z.fallbacks)
    && (!waits && shown.route == "direct" ==> shown.fallbacks == [])
    && (!waits && shown.route == "tunnel" ==>
          && NoDuplicates(shown.fallbacks)
          && (TrimSpace(shown.tunnelID) != "" ==>
                && (forall x :: x in shown.fallbacks <==>
                      x != "" && x != TrimSpace(shown.tunnelID) && exists j :: 0 <= j < |z.fallbacks| && TrimSpace(z.fallbacks[j]) == x)
                && (forall i: nat, j: nat, ki: nat, kj: nat ::
                      i < j < |shown.fallbacks| && FirstReads(z.fallbacks, shown.fallbacks[i], ki) && FirstReads(z.fallbacks, shown.fallbacks[j], kj)
                      ==> ki < kj)))
  }

  lemma ListedIsAsStored(s: Stored)
    ensures ListedAs(s, Listed(if s.waits then s.rule.(waiting := true) else s.rule, if s.waits then "" else s.owner))
  {
    hide TrimSpace, Candidates, Backups, Clean, NoDuplicates, FirstReads;
    var z := if s.waits then s.rule.(waiting := true) else s.rule;
    var shown := Listed(z, if s.waits then "" else s.owner);
    if !z.waiting {
      CandidatesArePrimaryThenBackups(shown.tunnelID, z.fallbacks);
      BackupsMembers(shown.tunnelID, z.fallbacks);
      CandidatesHaveNoDuplicates(shown.tunnelID, z.fallbacks);
      if shown.route == "tunnel" && TrimSpace(shown.tunnelID) != "" {
        forall i: nat, j: nat, ki: nat, kj: nat |
          i < j < |shown.fallbacks| && FirstReads(z.fallbacks, shown.fallbacks[i], ki) && FirstReads(z.fallbacks, shown.fallbacks[j], kj)
          ensures ki < kj
        {
          BackupsKeepOrder(shown.tunnelID, z.fallbacks, i, j, ki, kj);
        }
      }
    }
  }

  lemma CandidatesHaveNoDuplicates(primary: string, fallbacks: seq<string>)
    ensures var c := Candidates(primary, fallbacks); |c| > 1 ==> NoDuplicates(c[1..])
    ensures NoDuplicates<string>([])
  {
    DedupHasNoDuplicates(Ids([primary] + fallbacks));
  }

  /** The unsorted items are the stored rules, each as it is listed. */
  ghost predicate ItemsAre(stored: seq<Stored>, items: seq<Zone>) {
    |items| == |stored| && forall i :: 0 <= i < |stored| ==> ListedAs(stored[i], items[i])
  }

  lemma ItemsJoin(a: seq<Stored>, x: seq<Zone>, b: seq<Stored>, y: seq<Zone>)
    requires ItemsAre(a, x) && ItemsAre(b, y)
    ensures ItemsAre(a + b, x + y)
  {
    hide ListedAs;
  }

  lemma {:induction false} ZonesAreItems(zones: seq<Zone>, waits: bool, owner: string)
    ensures ItemsAre(StoredUnder(zones, waits, owner), ListedAll(if waits then Detached(zones) else zones, if waits then "" else owner))
  {
    hide ListedAs, Listed;
    if zones != [] {
      var front, z := zones[..|zones| - 1], zones[|zones| - 1];
      ZonesAreItems(front, waits, owner);
      assert zones == front + [z];
      assert StoredUnder(zones, waits, owner) == StoredUnder(front, waits, owner) + [Stored(z, waits, owner)];
      ListedIsAsStored(Stored(z, waits, owner));
      var shown := if waits then z.(waiting := true) else z;
      DetachedSnoc(front, z);
      ListedAllSnoc(if waits then Detached(front) else front, shown, if waits then "" else owner);
      ItemsJoin(StoredUnder(front, waits, owner), ListedAll(if waits then Detached(front) else front, if waits then "" else owner),
                [Stored(z, waits, owner)], [Listed(shown, if waits then "" else owner)]);
    }
  }

  lemma AllStoredCons(first: Entry, rest: seq<Entry>, pending: seq<Zone>)
    ensures AllStored([first] + rest, pending) ==
            StoredUnder(first.config.routing.zones, false, first.id) + AllStored(rest, pending)
  {
    hide StoredUnder;
    assert ([first] + rest)[1..] == rest;
  }

  lemma NothingStored(pending: seq<Zone>)
    ensures AllStored([], pending) == StoredUnder(pending, true, "")
    ensures StoredUnder([], true, "") == []
  {
  }

  lemma {:induction false} AllStoredSnoc(servers: seq<Entry>, last: Entry)
    ensures AllStored(servers + [last], []) == AllStored(servers, []) + StoredUnder(last.config.routing.zones, false, last.id)
  {
    hide StoredUnder, AllStored;
    NothingStored([]);
    if servers == [] {
      assert servers + [last] == [last] + [];
      AllStoredCons(last, [], []);
    } else {
      assert servers == [servers[0]] + servers[1..];
      assert servers + [last] == [servers[0]] + (servers[1..] + [last]);
      AllStoredCons(servers[0], servers[1..] + [last], []);
      AllStoredCons(servers[0], servers[1..], []);
      AllStoredSnoc(servers[1..], last);
    }
  }

  lemma {:induction false} PendingComesLast(servers: seq<Entry>, pending: seq<Zone>)
    ensures AllStored(servers, pending) == AllStored(servers, []) + StoredUnder(pending, true, "")
  {
    hide StoredUnder, AllStored;
    NothingStored(pending);
    NothingStored([]);
    if servers != [] {
      assert servers == [servers[0]] + servers[1..];
      AllStoredCons(servers[0], servers[1..], pending);
      AllStoredCons(servers[0], servers[1..], []);
      PendingComesLast(servers[1..], pending);
    }
  }

  lemma {:induction false} ServerItemsAreItems(servers: seq<Entry>)
    ensures ItemsAre(AllStored(servers, []), ServerItems(servers))
  {
    NothingStored([]);
    if servers != [] {
      hide ItemsAre, ListedAll, StoredUnder, AllStored;
      var front, last := servers[..|servers| - 1], servers[|servers| - 1];
      ServerItemsAreItems(front);
      ZonesAreItems(last.config.routing.zones, false, last.id);
      AllStoredSnoc(front, last);
      assert servers == front + [last];
      ItemsJoin(AllStored(front, []), ServerItems(front), StoredUnder(last.config.routing.zones, false, last.id),
                ListedAll(last.config.routing.zones, last.id));
    }
  }

  lemma ItemsAreAllStored(servers: seq<Entry>, pending: seq<Zone>)
    ensures ItemsAre(AllStored(servers, pending), Items(servers, pending))
  {
    hide ItemsAre, ListedAll, StoredUnder, AllStored, ServerItems, Detached;
    ServerItemsAreItems(servers);
    ZonesAreItems(pending, true, "");
    PendingComesLast(servers, pending);
    ItemsJoin(AllStored(servers, []), ServerItems(servers), StoredUnder(pending, true, ""), ListedAll(Detached(pending), ""));
  }

  /** Ranked rules come first, by rising rank. */
  predicate InRankOrder(s: seq<Zone>) {
    forall i, j :: 0 <= i < j < |s| ==> (s[i].order <= 0 ==> s[j].order <= 0) && (s[j].order > 0 ==> s[i].order <= s[j].order)
  }

  /** `s` has the items in rank order, those of one rank in the order in which they stood; k is 0 for rules without a rank. */
  ghost predicate IsSorted(items: seq<Zone>, s: seq<Zone>) {
    multiset(s) == multiset(items) && InRankOrder(s) && forall k: nat :: WithRank(s, k) == WithRank(items, k)
  }

  /** The listing: every stored rule as it is listed, in stable rank order; a rule without a rank shows its position. */
  ghost predicate IsListing(servers: seq<Entry>, pending: seq<Zone>, out: seq<Zone>) {
    exists items, s :: ItemsAre(AllStored(servers, pending), items) && IsSorted(items, s) && Ranks(s, out)
  }

  predicate Ranks(s: seq<Zone>, out: seq<Zone>) {
    |out| == |s| && forall i :: 0 <= i < |s| ==> out[i] == s[i].(order := if s[i].order <= 0 then i + 1 else s[i].order)
  }

  lemma {:induction false} NumberedRanks(s: seq<Zone>)
    ensures Ranks(s, Numbered(s))
  {
    if s != [] {
      NumberedRanks(s[..|s| - 1]);
    }
  }

  lemma SortedIsInRankOrder(items: seq<Zone>)
    ensures IsSorted(items, Sort(items))
  {
    hide Sort, WithRank;
    forall k: nat
      ensures WithRank(Sort(items), k) == WithRank(items, k)
    {
      SortIsStable(items, k);
    }
    SortIsStable(items, 0);
  }

  lemma ListRulesIsListing(servers: seq<Entry>, pending: seq<Zone>)
    ensures IsListing(servers, pending, ListRules(servers, pending))
  {
    hide ItemsAre, IsSorted, Ranks, Items, AllStored, Sort, Numbered;
    var items := Items(servers, pending);
    ItemsAreAllStored(servers, pending);
    SortedIsInRankOrder(items);
    NumberedRanks(Sort(items));
  }

  // ---------- splitting ----------

  /** The rules that belong to one connection, in order. */
  function Part(zones: seq<Zone>, id: string): seq<Zone> {
    if zones == [] then []
    else
      var z := zones[|zones| - 1];
      Part(zones[..|zones| - 1], id) + (if !z.waiting && z.tunnelID == id then [z] else [])
  }

  /** The rules that wait for a connection, in order. */
  function WaitingRules(zones: seq<Zone>): seq<Zone> {
    if zones == [] then []
    else
      var z := zones[|zones| - 1];
      WaitingRules(zones[..|zones| - 1]) + (if z.waiting then [z] else [])
  }

  /** A connection gets its own rules and no others. */
  lemma {:induction false} PartBelongs(zones: seq<Zone>, id: string)
    ensures forall z :: z in Part(zones, id) ==> z in zones && !z.waiting && z.tunnelID == id
    ensures forall z :: z in WaitingRules(zones) ==> z in zones && z.waiting
  {
    if zones != [] {
      PartBelongs(zones[..|zones| - 1], id);
    }
  }

  /** The rules a split over these connections does not lose. */
  function Kept(zones: seq<Zone>, ids: seq<string>): seq<Zone> {
    if zones == [] then []
    else
      var z := zones[|zones| - 1];
      Kept(zones[..|zones| - 1], ids) + (if z.waiting || z.tunnelID in ids then [z] else [])
  }

  /** The state holds exactly the split of `zones`. */
  predicate IsSplit(servers: seq<Entry>, pending: seq<Zone>, zones: seq<Zone>) {
    && (forall i :: 0 <= i < |servers| ==> servers[i].config.routing.zones == Part(zones, servers[i].id))
    && pending == WaitingRules(zones)
  }

  // ---------- a split lists back in rank order ----------

  /** The items of a split, computed from the connection IDs alone. */
  function PartItems(ids: seq<string>, zones: seq<Zone>): seq<Zone> {
    if ids == [] then []
    else PartItems(ids[..|ids| - 1], zones) + ListedAll(Part(zones, ids[|ids| - 1]), "")
  }

  lemma ListedAllSnoc(zones: seq<Zone>, z: Zone, owner: string)
    ensures ListedAll(zones + [z], owner) == ListedAll(zones, owner) + [Listed(z, owner)]
  {
    assert (zones + [z])[..|zones + [z]| - 1] == zones;
  }

  lemma PartSnoc(zones: seq<Zone>, z: Zone, id: string)
    ensures Part(zones + [z], id) == if !z.waiting && z.tunnelID == id then Part(zones, id) + [z] else Part(zones, id)
  {
    assert (zones + [z])[..|zones + [z]| - 1] == zones;
  }

  lemma WaitingSnoc(zones: seq<Zone>, z: Zone)
    ensures WaitingRules(zones + [z]) == if z.waiting then WaitingRules(zones) + [z] else WaitingRules(zones)
  {
    assert (zones + [z])[..|zones + [z]| - 1] == zones;
  }

  lemma KeptSnoc(zones: seq<Zone>, z: Zone, ids: seq<string>)
    ensures Kept(zones + [z], ids) == if z.waiting || z.tunnelID in ids then Kept(zones, ids) + [z] else Kept(zones, ids)
  {
    assert (zones + [z])[..|zones + [z]| - 1] == zones;
  }

  lemma DetachedSnoc(zones: seq<Zone>, z: Zone)
    ensures Detached(zones + [z]) == Detached(zones) + [z.(waiting := true)]
  {
    assert (zones + [z])[..|zones + [z]| - 1] == zones;
  }

  lemma PartItemsSnoc(ids: seq<string>, id: string, zones: seq<Zone>)
    ensures PartItems(ids + [id], zones) == PartItems(ids, zones) + ListedAll(Part(zones, id), "")
  {
    assert (ids + [id])[..|ids + [id]| - 1] == ids;
  }

  lemma OwnerDoesNotMatter(z: Zone, owner: string)
    requires z.waiting || TrimSpace(z.tunnelID) != ""
    ensures Listed(z, owner) == Listed(z, "")
  {
    hide TrimSpace;
  }

  lemma {:induction false} OwnerIsNamed(zones: seq<Zone>, id: string)
    requires TrimSpace(id) != ""
    ensures ListedAll(Part(zones, id), id) == ListedAll(Part(zones, id), "")
  {
    hide TrimSpace, Listed;
    if zones != [] {
      var front, z := zones[..|zones| - 1], zones[|zones| - 1];
      assert zones == front + [z];
      OwnerIsNamed(front, id);
      PartSnoc(front, z, id);
      if !z.waiting && z.tunnelID == id {
        ListedAllSnoc(Part(front, id), z, id);
        ListedAllSnoc(Part(front, id), z, "");
        OwnerDoesNotMatter(z, id);
      }
    }
  }

  lemma {:induction false} ServerItemsAreParts(servers: seq<Entry>, zones: seq<Zone>)
    requires Clean(EntryIds(servers))
    requires forall i :: 0 <= i < |servers| ==> servers[i].config.routing.zones == Part(zones, servers[i].id)
    ensures ServerItems(servers) == PartItems(EntryIds(servers), zones)
  {
    if servers != [] {
      hide Listed;
      var front, last := servers[..|servers| - 1], servers[|servers| - 1];
      assert EntryIds(servers) == EntryIds(front) + [last.id];
      assert last.id in EntryIds(servers);
      assert Clean(EntryIds(front)) by {
        hide TrimSpace;
        assert forall x :: x in EntryIds(front) ==> x in EntryIds(servers);
      }
      ServerItemsAreParts(front, zones);
      OwnerIsNamed(zones, last.id);
      PartItemsSnoc(EntryIds(front), last.id, zones);
    }
  }

  lemma {:induction false} DetachedWaiting(zones: seq<Zone>)
    ensures Detached(WaitingRules(zones)) == WaitingRules(zones)
  {
    if zones != [] {
      var front, z := zones[..|zones| - 1], zones[|zones| - 1];
      assert zones == front + [z];
      DetachedWaiting(front);
      WaitingSnoc(front, z);
      DetachedSnoc(WaitingRules(front), z);
      assert z.waiting ==> z.(waiting := true) == z;
    }
  }

  /** One more rule adds itself to exactly one connection's items, if that connection exists. */
  lemma {:induction false} PartItemsOneMore(ids: seq<string>, zones: seq<Zone>, z: Zone)
    requires NoDuplicates(ids)
    ensures multiset(PartItems(ids, zones + [z])) ==
            if !z.waiting && z.tunnelID in ids then multiset(PartItems(ids, zones)) + multiset{Listed(z, "")}
            else multiset(PartItems(ids, zones))
  {
    hide Listed, Part, ListedAll;
    if ids != [] {
      var front, id := ids[..|ids| - 1], ids[|ids| - 1];
      assert ids == front + [id] && id !in front;
      PartItemsOneMore(front, zones, z);
      PartSnoc(zones, z, id);
      ListedAllSnoc(Part(zones, id), z, "");
    }
  }

  lemma {:induction false} NoPartsOfNothing(ids: seq<string>)
    ensures PartItems(ids, []) == []
  {
    if ids != [] {
      NoPartsOfNothing(ids[..|ids| - 1]);
    }
  }

  lemma NothingToSplit(ids: seq<string>)
    ensures PartItems(ids, []) == [] && ListedAll(WaitingRules([]), "") == [] && ListedAll(Kept([], ids), "") == []
  {
    NoPartsOfNothing(ids);
  }

  lemma {:induction false} SplitIsPermutation(ids: seq<string>, zones: seq<Zone>)
    requires NoDuplicates(ids)
    ensures multiset(PartItems(ids, zones)) + multiset(ListedAll(WaitingRules(zones), "")) ==
            multiset(ListedAll(Kept(zones, ids), ""))
  {
    hide ListedAll, Listed, PartItems, WaitingRules, Kept;
    if zones == [] {
      NothingToSplit(ids);
    } else {
      SplitIsPermutation(ids, zones[..|zones| - 1]);
      SplitStaysPermutation(ids, zones[..|zones| - 1], zones[|zones| - 1]);
      assert zones == zones[..|zones| - 1] + [zones[|zones| - 1]];
    }
  }

  lemma SplitStaysPermutation(ids: seq<string>, front: seq<Zone>, z: Zone)
    requires NoDuplicates(ids)
    requires multiset(PartItems(ids, front)) + multiset(ListedAll(WaitingRules(front), "")) == multiset(ListedAll(Kept(front, ids), ""))
    ensures multiset(PartItems(ids, front + [z])) + multiset(ListedAll(WaitingRules(front + [z]), "")) ==
            multiset(ListedAll(Kept(front + [z], ids), ""))
  {
    hide Listed, ListedAll, PartItems, WaitingRules, Kept;
    PartItemsOneMore(ids, front, z);
    WaitingSnoc(front, z);
    KeptSnoc(front, z, ids);
    ListedAllSnoc(WaitingRules(front), z, "");
    ListedAllSnoc(Kept(front, ids), z, "");
  }

  lemma {:induction false} ListedKeepsRanks(zones: seq<Zone>, owner: string)
    ensures |ListedAll(zones, owner)| == |zones|
    ensures forall i :: 0 <= i < |zones| ==> ListedAll(zones, owner)[i] == Listed(zones[i], owner)
  {
    hide Listed;
    if zones != [] {
      ListedKeepsRanks(zones[..|zones| - 1], owner);
    }
  }

  lemma ListedKeepsOrder(zones: seq<Zone>, owner: string)
    requires Ranked(zones)
    ensures Ranked(ListedAll(zones, owner))
  {
    hide ListedAll, Candidates;
    ListedKeepsRanks(zones, owner);
  }

  lemma {:induction false} KeptMembers(zones: seq<Zone>, ids: seq<string>)
    ensures forall z :: z in Kept(zones, ids) <==> z in zones && (z.waiting || z.tunnelID in ids)
  {
    if zones != [] {
      KeptMembers(zones[..|zones| - 1], ids);
      assert zones == zones[..|zones| - 1] + [zones[|zones| - 1]];
    }
  }

  lemma {:induction false} AllAreKept(zones: seq<Zone>, ids: seq<string>)
    requires forall z :: z in zones ==> z.waiting || z.tunnelID in ids
    ensures Kept(zones, ids) == zones
  {
    if zones != [] {
      assert zones == zones[..|zones| - 1] + [zones[|zones| - 1]];
      AllAreKept(zones[..|zones| - 1], ids);
    }
  }

  lemma RankedSnoc(s: seq<Zone>, z: Zone)
    requires Ranked(s) && z.order > 0 && forall x :: x in s ==> x.order < z.order
    ensures Ranked(s + [z])
  {
    assert forall i :: 0 <= i < |s| ==> s[i] in s;
  }

  lemma {:induction false} KeptIsRanked(zones: seq<Zone>, ids: seq<string>)
    requires Ranked(zones)
    ensures Ranked(Kept(zones, ids))
  {
    if zones != [] {
      var front, z := zones[..|zones| - 1], zones[|zones| - 1];
      assert zones == front + [z];
      KeptIsRanked(front, ids);
      KeptSnoc(front, z, ids);
      KeptMembers(front, ids);
      forall x | x in front
        ensures x.order < z.order
      {
        var j :| 0 <= j < |front| && front[j] == x;
        assert zones[j] == x;
      }
      hide Kept;
      RankedSnoc(Kept(front, ids), z);
    }
  }

  lemma {:induction false} NumberedRanked(s: seq<Zone>)
    requires Ranked(s)
    ensures Numbered(s) == s
  {
    if s != [] {
      NumberedRanked(s[..|s| - 1]);
    }
  }

  /** However the rules were split, the listing shows what the split kept, in rank order. */
  lemma SplitListsBack(servers: seq<Entry>, pending: seq<Zone>, zones: seq<Zone>)
    requires WellNamed(servers) && IsSplit(servers, pending, zones) && Ranked(zones)
    ensures ListRules(servers, pending) == ListedAll(Kept(zones, EntryIds(servers)), "")
  {
    hide Listed, Part, WaitingRules, Kept, ListedAll, Sort;
    var ids := EntryIds(servers);
    ServerItemsAreParts(servers, zones);
    DetachedWaiting(zones);
    SplitIsPermutation(ids, zones);
    KeptIsRanked(zones, ids);
    var target := ListedAll(Kept(zones, ids), "");
    assert Ranked(target) by {
      ListedKeepsOrder(Kept(zones, ids), "");
    }
    SortRestoresRankOrder(Items(servers, pending), target);
    NumberedRanked(target);
  }

  // ---------- splitting step by step ----------

  function PartOf(part: map<string, seq<Zone>>, id: string): seq<Zone> {
    if id in part then part[id] else []
  }

  /** `part` and `pending` hold the rules, connection by connection. */
  ghost predicate Parted(part: map<string, seq<Zone>>, pending: seq<Zone>, zones: seq<Zone>) {
    && (forall id {:trigger PartOf(part, id)} :: PartOf(part, id) == Part(zones, id))
    && pending == WaitingRules(zones)
  }

  lemma PartOneMore(part: map<string, seq<Zone>>, pending: seq<Zone>, zones: seq<Zone>, z: Zone)
    requires Parted(part, pending, zones)
    ensures z.waiting ==> Parted(part, pending + [z], zones + [z])
    ensures !z.waiting ==> Parted(part[z.tunnelID := PartOf(part, z.tunnelID) + [z]], pending, zones + [z])
  {
    hide Part, WaitingRules;
    WaitingSnoc(zones, z);
    var after := if z.waiting then part else part[z.tunnelID := PartOf(part, z.tunnelID) + [z]];
    forall id {:trigger PartOf(after, id)}
      ensures PartOf(after, id) == Part(zones + [z], id)
    {
      PartSnoc(zones, z, id);
      assert PartOf(part, id) == Part(zones, id);
    }
  }

  lemma NothingParted()
    ensures Parted(map[], [], [])
  {
  }

  lemma PendingIs(part: map<string, seq<Zone>>, pending: seq<Zone>, zones: seq<Zone>)
    requires Parted(part, pending, zones)
    ensures pending == WaitingRules(zones)
  {
  }

  // ---------- references of connections no longer there ----------

  function TrimmedSet(ids: seq<string>): set<string> {
    set i | 0 <= i < |ids| :: TrimSpace(ids[i])
  }

  function MentionedBy(zones: seq<Zone>): set<string> {
    set i, x | 0 <= i < |zones| && x in TrimmedSet(zones[i].fallbacks) :: x
  }

  /** The identities that rules still refer to. */
  function Mentioned(pending: seq<Zone>, servers: seq<Entry>): set<string> {
    (set i | 0 <= i < |pending| :: TrimSpace(pending[i].tunnelID)) + MentionedBy(pending)
    + (set i, x | 0 <= i < |servers| && x in MentionedBy(servers[i].config.routing.zones) :: x)
  }

  function RetainedRefs(refs: map<string, Ref>, pending: seq<Zone>, servers: seq<Entry>): map<string, Ref> {
    map id | id in Mentioned(pending, servers) && id != "" && id !in EntryIds(servers) ::
      if id in refs then refs[id].(ref := id) else Ref(id, id)
  }
}
