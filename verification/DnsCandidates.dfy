/**
  The DNS routes offered to the user (dnsRouteCandidates in dns_service.go): a
  depth-first search over backups, which may form cycles, that reads each
  tunnel's physical status at most once.
 */
module DnsCandidates {
  import opened Text
  import opened Lists

  datatype Profile = Profile(
    id: string,
    name: string,
    enabled: bool,
    clientEnabled: bool,
    endpoint: string,
    standby: bool,
    activated: bool,
    iface: string,
    fallbacks: seq<string>)
  {
    /** The profile is switched on and knows where to connect to. */
    predicate Offered() {
      enabled && clientEnabled && TrimSpace(endpoint) != ""
    }

    predicate Usable() {
      Offered() && (!standby || activated)
    }
  }

  datatype RouteInfo = RouteInfo(id: string, name: string, iface: string, available: bool)

  type Profiles = map<string, Profile>

  /** Profiles by ID, as the snapshot lists them. */
  function ById(servers: seq<Profile>): Profiles {
    if servers == [] then map[]
    else ById(servers[..|servers| - 1])[servers[|servers| - 1].id := servers[|servers| - 1]]
  }

  predicate UsableId(g: Profiles, id: string) {
    id in g && g[id].Usable()
  }

  /** The backups of a profile; an ID nobody has leads nowhere. */
  function Next(g: Profiles, id: string): seq<string> {
    if id in g then g[id].fallbacks else []
  }

  predicate Connected(g: Profiles, physical: string -> bool, id: string) {
    UsableId(g, id) && physical(id)
  }

  // ---------- reachability ----------

  predicate IsPath(g: Profiles, p: seq<string>, from: string, to: string) {
    && |p| >= 1 && p[0] == from && p[|p| - 1] == to
    && forall i :: 0 <= i < |p| - 1 ==> p[i + 1] in Next(g, p[i])
  }

  /** Some chain of backups leads from one profile to the other. */
  ghost predicate Reaches(g: Profiles, from: string, to: string) {
    exists p :: IsPath(g, p, from, to)
  }

  function Universe(g: Profiles, roots: seq<string>): set<string> {
    (set x | x in roots) + g.Keys + set id, x | id in g && x in g[id].fallbacks :: x
  }

  /** Everything still to visit is in the universe, and backups stay inside it. */
  ghost predicate Closed(g: Profiles, universe: set<string>, todo: seq<string>) {
    && (forall x :: x in todo ==> x in universe)
    && forall id, x :: id in universe && x in Next(g, id) ==> x in universe
  }

  lemma UniverseIsClosed(g: Profiles, roots: seq<string>)
    ensures Closed(g, Universe(g, roots), roots)
  {
  }

  // ---------- depth-first order ----------

  /** The nodes met from `todo`, first to last: a node comes before its backups, and each node once. */
  ghost function DepthFirst(g: Profiles, universe: set<string>, todo: seq<string>, seen: set<string>): seq<string>
    requires Closed(g, universe, todo)
    decreases universe - seen, |todo|
  {
    if todo == [] then []
    else if todo[0] in seen then DepthFirst(g, universe, todo[1..], seen)
    else [todo[0]] + DepthFirst(g, universe, Next(g, todo[0]) + todo[1..], seen + {todo[0]})
  }

  /** Depth-first order from one profile. */
  ghost function Order(g: Profiles, id: string): seq<string> {
    UniverseIsClosed(g, [id]);
    DepthFirst(g, Universe(g, [id]), [id], {})
  }

  /** `found` is the first of `order` that satisfies the test; "" if none does. */
  ghost predicate FirstConnected(g: Profiles, physical: string -> bool, order: seq<string>, found: string) {
    || (found != "" && exists k :: 0 <= k < |order| && order[k] == found && Connected(g, physical, found)
                         && forall j :: 0 <= j < k ==> !Connected(g, physical, order[j]))
    || (found == "" && forall j :: 0 <= j < |order| ==> !Connected(g, physical, order[j]))
  }

  lemma {:induction false} DepthFirstMembers(g: Profiles, universe: set<string>, todo: seq<string>, seen: set<string>)
    requires Closed(g, universe, todo)
    ensures var order := DepthFirst(g, universe, todo, seen);
            && (forall x :: x in order ==> x !in seen && x in universe)
            && NoDuplicates(order)
            && (forall x :: x in todo ==> x in seen || x in order)
            && (forall x, y :: x in order && y in Next(g, x) ==> y in seen || y in order)
    decreases universe - seen, |todo|
  {
    if todo != [] {
      if todo[0] in seen {
        DepthFirstMembers(g, universe, todo[1..], seen);
      } else {
        var rest := Next(g, todo[0]) + todo[1..];
        DepthFirstMembers(g, universe, rest, seen + {todo[0]});
        var tail := DepthFirst(g, universe, rest, seen + {todo[0]});
        assert forall x :: x in Next(g, todo[0]) ==> x in rest;
        assert forall x :: x in todo ==> x == todo[0] || x in rest;
      }
    }
  }

  /** Whatever depth-first order meets is reached from one of the roots. */
  lemma {:induction false} DepthFirstReaches(g: Profiles, universe: set<string>, todo: seq<string>, seen: set<string>,
                                              from: string, x: string)
    requires Closed(g, universe, todo)
    requires forall y :: y in todo ==> Reaches(g, from, y)
    requires x in DepthFirst(g, universe, todo, seen)
    ensures Reaches(g, from, x)
    decreases universe - seen, |todo|
  {
    hide NoDuplicates;
    if todo[0] in seen {
      DepthFirstReaches(g, universe, todo[1..], seen, from, x);
    } else if x == todo[0] {
      assert Reaches(g, from, todo[0]);
    } else {
      var rest := Next(g, todo[0]) + todo[1..];
      forall y | y in rest
        ensures Reaches(g, from, y)
      {
        if y in Next(g, todo[0]) {
          assert Reaches(g, from, todo[0]);
          ReachesFurther(g, from, todo[0], y);
        } else {
          assert y in todo;
        }
      }
      DepthFirstReaches(g, universe, rest, seen + {todo[0]}, from, x);
    }
  }

  lemma ReachesFurther(g: Profiles, from: string, via: string, to: string)
    requires Reaches(g, from, via) && to in Next(g, via)
    ensures Reaches(g, from, to)
  {
    var p :| IsPath(g, p, from, via);
    assert IsPath(g, p + [to], from, to);
  }

  lemma {:induction false} ClosedUnderPaths(g: Profiles, order: seq<string>, p: seq<string>, from: string, to: string)
    requires from in order && IsPath(g, p, from, to)
    requires forall x, y :: x in order && y in Next(g, x) ==> y in order
    ensures to in order
    decreases |p|
  {
    if |p| > 1 {
      assert p[1] in Next(g, p[0]);
      var q := p[1..];
      forall i | 0 <= i < |q| - 1
        ensures q[i + 1] in Next(g, q[i])
      {
        assert p[(i + 1) + 1] in Next(g, p[i + 1]);
      }
      ClosedUnderPaths(g, order, q, p[1], to);
    }
  }

  /** Depth-first order meets exactly the profiles that chains of backups reach, each once. */
  lemma OrderIsReachability(g: Profiles, id: string)
    ensures NoDuplicates(Order(g, id))
    ensures forall x :: x in Order(g, id) <==> Reaches(g, id, x)
  {
    hide DepthFirst;
    UniverseIsClosed(g, [id]);
    DepthFirstMembers(g, Universe(g, [id]), [id], {});
    forall x | Reaches(g, id, x)
      ensures x in Order(g, id)
    {
      var p :| IsPath(g, p, id, x);
      assert id in [id];
      ClosedUnderPaths(g, Order(g, id), p, id, x);
    }
    assert IsPath(g, [id], id, id);
    assert Reaches(g, id, id);
    forall x | x in Order(g, id)
      ensures Reaches(g, id, x)
    {
      DepthFirstReaches(g, Universe(g, [id]), [id], {}, id, x);
    }
  }

  /** A connected profile is selected exactly when one is reachable. */
  lemma SelectionExistsExactlyWhenReachable(g: Profiles, physical: string -> bool, id: string, found: string)
    requires FirstConnected(g, physical, Order(g, id), found) && "" !in g
    ensures found != "" <==> exists x :: Reaches(g, id, x) && Connected(g, physical, x)
    ensures found != "" ==> Reaches(g, id, found) && Connected(g, physical, found)
  {
    hide Order, Reaches, UsableId;
    OrderIsReachability(g, id);
  }

  // ---------- backups are tried in their order ----------

  ghost function Members(order: seq<string>): set<string> {
    set x | x in order
  }

  /** What comes first is visited first, with all it leads to. */
  lemma {:induction false} FirstThingsFirst(g: Profiles, universe: set<string>, todo: seq<string>, rest: seq<string>, seen: set<string>)
    requires Closed(g, universe, todo) && Closed(g, universe, rest) && Closed(g, universe, todo + rest)
    ensures DepthFirst(g, universe, todo + rest, seen) ==
            DepthFirst(g, universe, todo, seen) +
            DepthFirst(g, universe, rest, seen + Members(DepthFirst(g, universe, todo, seen)))
    decreases universe - seen, |todo|
  {
    hide DepthFirst;
    if todo == [] {
      NothingLeft(g, universe, seen);
      assert todo + rest == rest && seen + Members([]) == seen;
    } else {
      var x, more := todo[0], todo[1..];
      assert todo == [x] + more && todo + rest == [x] + (more + rest);
      DepthFirstUnfolds(g, universe, x, more, seen);
      DepthFirstUnfolds(g, universe, x, more + rest, seen);
      if x in seen {
        FirstThingsFirst(g, universe, more, rest, seen);
      } else {
        var next := Next(g, x) + more;
        assert Next(g, x) + (more + rest) == next + rest;
        FirstThingsFirst(g, universe, next, rest, seen + {x});
        assert seen + Members([x] + DepthFirst(g, universe, next, seen + {x})) ==
               (seen + {x}) + Members(DepthFirst(g, universe, next, seen + {x}));
      }
    }
  }

  /** The order from one profile: itself, then what its backups before the k-th lead to, then the k-th unless met by then. */
  lemma OrderByBackups(g: Profiles, id: string, k: nat)
    requires id in g && k < |g[id].fallbacks|
    ensures var universe := Universe(g, [id]);
            var earlier, backup := g[id].fallbacks[..k], g[id].fallbacks[k];
            && Closed(g, universe, earlier)
            && var met := [id] + DepthFirst(g, universe, earlier, {id});
               backup !in met ==> met + [backup] <= Order(g, id)
  {
    hide DepthFirst;
    var universe := Universe(g, [id]);
    var earlier, backup, later := g[id].fallbacks[..k], g[id].fallbacks[k], g[id].fallbacks[k + 1..];
    UniverseIsClosed(g, [id]);
    assert [id] + [] == [id];
    DepthFirstUnfolds(g, universe, id, [], {});
    assert g[id].fallbacks == earlier + ([backup] + later);
    assert Next(g, id) + [] == earlier + ([backup] + later);
    assert forall x :: x in earlier ==> x in g[id].fallbacks;
    assert forall x :: x in [backup] + later ==> x in g[id].fallbacks;
    FirstThingsFirst(g, universe, earlier, [backup] + later, {id});
    var met := DepthFirst(g, universe, earlier, {id});
    DepthFirstUnfolds(g, universe, backup, later, {id} + Members(met));
    assert {} + {id} == {id};
    if backup !in [id] + met {
      assert backup !in {id} + Members(met);
      var tail := DepthFirst(g, universe, Next(g, backup) + later, {id} + Members(met) + {backup});
      assert Order(g, id) == [id] + (met + ([backup] + tail));
      assert Order(g, id) == ([id] + met + [backup]) + tail;
    }
  }

  /**
    A disconnected profile is served by its first backup that is connected, as long
    as no backup before it leads to a connected profile.
   */
  lemma EarlierBackupWins(g: Profiles, physical: string -> bool, id: string, k: nat, found: string)
    requires FirstConnected(g, physical, Order(g, id), found) && "" !in g && id in g && !Connected(g, physical, id)
    requires k < |g[id].fallbacks| && Connected(g, physical, g[id].fallbacks[k])
    requires forall j, x :: 0 <= j < k && Reaches(g, g[id].fallbacks[j], x) ==> !Connected(g, physical, x)
    ensures found == g[id].fallbacks[k]
  {
    hide DepthFirst, Connected, Reaches, Order;
    var universe, backup, earlier := Universe(g, [id]), g[id].fallbacks[k], g[id].fallbacks[..k];
    OrderByBackups(g, id, k);
    var met := [id] + DepthFirst(g, universe, earlier, {id});
    forall x | x in met
      ensures !Connected(g, physical, x)
    {
      if x != id {
        var j := MetFrom(g, universe, earlier, {id}, x);
        assert earlier[j] == g[id].fallbacks[j];
      }
    }
    var order := Order(g, id);
    assert order[|met|] == (met + [backup])[|met|] == backup;
    assert forall j :: 0 <= j < |met| ==> order[j] == (met + [backup])[j] == met[j];
    ConnectedHasId(g, physical, backup);
  }

  /** Whatever is met is led to by one of the roots. */
  lemma {:induction false} MetFrom(g: Profiles, universe: set<string>, todo: seq<string>, seen: set<string>, x: string) returns (j: nat)
    requires Closed(g, universe, todo) && x in DepthFirst(g, universe, todo, seen)
    ensures j < |todo| && Reaches(g, todo[j], x)
    decreases |todo|
  {
    var front, last := todo[..|todo| - 1], todo[|todo| - 1];
    assert todo == front + [last];
    assert forall y :: y in front ==> y in todo;
    assert last in todo;
    FirstThingsFirst(g, universe, front, [last], seen);
    if x in DepthFirst(g, universe, front, seen) {
      j := MetFrom(g, universe, front, seen, x);
    } else {
      j := |todo| - 1;
      assert IsPath(g, [last], last, last);
      DepthFirstReaches(g, universe, [last], seen + Members(DepthFirst(g, universe, front, seen)), last, x);
    }
  }

  // ---------- the search ----------

  class StatusReader {
    const profiles: Profiles
    /** The statuses read so far. */
    var known: map<string, bool>
    /** Every read of a physical status, in order. */
    var readLog: seq<string>
    /** The profiles the current search has met. */
    var seen: set<string>

    /** Each profile was read at most once, and its answer is kept. */
    ghost predicate Valid(physical: string -> bool)
      reads this`known, this`readLog
    {
      && NoDuplicates(readLog)
      && (forall x :: x in readLog <==> x in known)
      && forall x :: x in known ==> known[x] == physical(x) && UsableId(profiles, x)
    }

    constructor (g: Profiles)
      ensures profiles == g && readLog == [] && known == map[] && seen == {}
    {
      profiles, readLog, known, seen := g, [], map[], {};
    }

    method IsConnected(physical: string -> bool, id: string) returns (r: bool)
      requires Valid(physical)
      modifies this`known, this`readLog
      ensures Valid(physical)
      ensures r <==> Connected(profiles, physical, id)
      ensures old(readLog) <= readLog
    {
      hide Profile.Usable;
      if !UsableId(profiles, id) {
        return false;
      }
      if id !in known {
        known := known[id := physical(id)];
        readLog := readLog + [id];
      }
      return known[id];
    }

    /**
      The source's selectConnected. `rest` is what the callers up the stack still
      have to visit, `met` what this call met before its answer.
     */
    method SelectConnected(physical: string -> bool, id: string, ghost universe: set<string>, ghost rest: seq<string>)
        returns (selected: string, ghost met: seq<string>)
      requires Valid(physical) && "" !in profiles
      requires Closed(profiles, universe, [id] + rest)
      modifies this
      ensures Valid(physical) && old(readLog) <= readLog
      ensures old(seen) <= seen
      ensures NoneConnected(profiles, physical, met)
      ensures selected == "" ==>
                DepthFirst(profiles, universe, [id] + rest, old(seen)) == met + DepthFirst(profiles, universe, rest, seen)
      ensures selected != "" ==>
                && Connected(profiles, physical, selected)
                && met + [selected] <= DepthFirst(profiles, universe, [id] + rest, old(seen))
      decreases universe - seen
    {
      hide Valid, Closed, Connected, NoneConnected, DepthFirst, Next;
      met := [];
      DepthFirstUnfolds(profiles, universe, id, rest, seen);
      NoneConnectedOf(profiles, physical, id);
      if id in seen {
        return "", met;
      }
      seen := seen + {id};
      var connected := IsConnected(physical, id);
      if connected {
        ConnectedHasId(profiles, physical, id);
        return id, met;
      }
      met := [id];
      var next := Next(profiles, id);
      assert next[0..] == next;
      for i := 0 to |next|
        invariant Valid(physical) && old(readLog) <= readLog
        invariant old(seen) + {id} <= seen
        invariant NoneConnected(profiles, physical, met)
        invariant Closed(profiles, universe, next[i..] + rest)
        invariant DepthFirst(profiles, universe, [id] + rest, old(seen)) == met + DepthFirst(profiles, universe, next[i..] + rest, seen)
      {
        assert next[i..] + rest == [next[i]] + (next[i + 1..] + rest);
        ghost var more;
        ghost var before := DepthFirst(profiles, universe, next[i..] + rest, seen);
        ClosedTail(profiles, universe, next[i], next[i + 1..] + rest);
        selected, more := SelectConnected(physical, next[i], universe, next[i + 1..] + rest);
        NoneConnectedJoin(profiles, physical, met, more);
        if selected != "" {
          PrefixAfter(met, more + [selected], before);
          assert met + (more + [selected]) == (met + more) + [selected];
          met := met + more;
          return;
        }
        assert met + (more + DepthFirst(profiles, universe, next[i + 1..] + rest, seen)) ==
               (met + more) + DepthFirst(profiles, universe, next[i + 1..] + rest, seen);
        met := met + more;
      }
      assert next[|next|..] + rest == rest;
      return "", met;
    }

    /** One search from the start: the first connected profile in depth-first order. */
    method Select(physical: string -> bool, id: string) returns (selected: string)
      requires Valid(physical) && "" !in profiles
      modifies this
      ensures Valid(physical) && old(readLog) <= readLog
      ensures FirstConnected(profiles, physical, Order(profiles, id), selected)
    {
      hide Connected, DepthFirst;
      seen := {};
      UniverseIsClosed(profiles, [id]);
      assert [id] + [] == [id];
      ghost var met;
      selected, met := SelectConnected(physical, id, Universe(profiles, [id]), []);
      ghost var order := Order(profiles, id);
      if selected == "" {
        NothingLeft(profiles, Universe(profiles, [id]), seen);
        assert order == met;
      } else {
        assert order[|met|] == (met + [selected])[|met|] == selected;
        assert forall j :: 0 <= j < |met| ==> order[j] == (met + [selected])[j] == met[j];
      }
    }
  }

  /** None of these is connected. */
  ghost predicate NoneConnected(g: Profiles, physical: string -> bool, met: seq<string>) {
    forall j :: 0 <= j < |met| ==> !Connected(g, physical, met[j])
  }

  lemma ConnectedHasId(g: Profiles, physical: string -> bool, id: string)
    requires Connected(g, physical, id) && "" !in g
    ensures id != ""
  {
  }

  lemma DepthFirstUnfolds(g: Profiles, universe: set<string>, id: string, rest: seq<string>, seen: set<string>)
    requires Closed(g, universe, [id] + rest)
    ensures id in universe && Closed(g, universe, rest) && Closed(g, universe, Next(g, id) + rest)
    ensures DepthFirst(g, universe, [id] + rest, seen) ==
            if id in seen then DepthFirst(g, universe, rest, seen)
            else [id] + DepthFirst(g, universe, Next(g, id) + rest, seen + {id})
  {
    assert id in [id] + rest;
    assert forall x :: x in rest ==> x in [id] + rest;
    assert ([id] + rest)[1..] == rest;
  }

  lemma NoneConnectedOf(g: Profiles, physical: string -> bool, id: string)
    ensures NoneConnected(g, physical, [])
    ensures !Connected(g, physical, id) ==> NoneConnected(g, physical, [id])
  {
  }

  lemma NoneConnectedJoin(g: Profiles, physical: string -> bool, a: seq<string>, b: seq<string>)
    requires NoneConnected(g, physical, a) && NoneConnected(g, physical, b)
    ensures NoneConnected(g, physical, a + b)
  {
  }

  lemma ClosedTail(g: Profiles, universe: set<string>, x: string, rest: seq<string>)
    requires Closed(g, universe, [x] + rest)
    ensures Closed(g, universe, rest)
  {
    assert forall y :: y in rest ==> y in [x] + rest;
  }

  lemma PrefixAfter<T>(a: seq<T>, b: seq<T>, c: seq<T>)
    requires b <= c
    ensures a + b <= a + c
  {
  }

  lemma NothingLeft(g: Profiles, universe: set<string>, seen: set<string>)
    requires Closed(g, universe, [])
    ensures DepthFirst(g, universe, [], seen) == []
  {
  }

  // ---------- the list offered ----------

  /** The profile is switched on, knows where to connect to, and is not held back as a standby. */
  predicate Works(p: Profile) {
    p.enabled && p.clientEnabled && TrimSpace(p.endpoint) != "" && (p.standby ==> p.activated)
  }

  /** A connected profile works, and its physical status says so. */
  lemma ConnectedIs(g: Profiles, physical: string -> bool, id: string)
    ensures Connected(g, physical, id) <==> id in g && Works(g[id]) && physical(id)
    ensures id in g ==> (g[id].Usable() <==> Works(g[id]))
  {
    hide TrimSpace;
  }

  /** The row of one profile: its own interface, or that of the backup its traffic takes now. */
  ghost predicate IsRow(g: Profiles, physical: string -> bool, running: string -> bool, ifaceName: string -> string,
                        p: Profile, row: RouteInfo)
  {
    && row.id == p.id && row.name == p.name
    && row.available == (Works(p) && running(row.iface))
    && if Works(p) && p.fallbacks != [] then
         exists found :: FirstConnected(g, physical, Order(g, p.id), found)
           && row.iface == ifaceName(if found == "" then p.iface else if found in g then g[found].iface else "")
       else row.iface == ifaceName(p.iface)
  }

  /** The profiles that are offered at all, in order. */
  function OfferedOnly(servers: seq<Profile>): seq<Profile> {
    if servers == [] then []
    else
      var p := servers[|servers| - 1];
      OfferedOnly(servers[..|servers| - 1]) + (if p.Offered() then [p] else [])
  }

  lemma NothingOffered()
    ensures OfferedOnly([]) == []
  {
  }

  lemma OfferedSnoc(servers: seq<Profile>, i: nat)
    requires i < |servers|
    ensures OfferedOnly(servers[..i + 1]) == OfferedOnly(servers[..i]) + (if servers[i].Offered() then [servers[i]] else [])
  {
    assert servers[..i + 1][..i] == servers[..i];
  }

  predicate DistinctIds(servers: seq<Profile>) {
    && (forall i :: 0 <= i < |servers| ==> servers[i].id != "")
    && forall i, j :: 0 <= i < j < |servers| ==> servers[i].id != servers[j].id
  }

  lemma {:induction false} ByIdFinds(servers: seq<Profile>)
    requires DistinctIds(servers)
    ensures "" !in ById(servers)
    ensures forall i :: 0 <= i < |servers| ==> servers[i].id in ById(servers) && ById(servers)[servers[i].id] == servers[i]
    ensures forall id :: id in ById(servers) ==> exists i :: 0 <= i < |servers| && servers[i].id == id
  {
    if servers != [] {
      var front := servers[..|servers| - 1];
      ByIdFinds(front);
      forall id | id in ById(servers)
        ensures exists i :: 0 <= i < |servers| && servers[i].id == id
      {
        if id in ById(front) {
          var i :| 0 <= i < |front| && front[i].id == id;
          assert servers[i].id == id;
        }
      }
    }
  }

  lemma {:induction false} OfferedMembers(servers: seq<Profile>)
    ensures forall p :: p in OfferedOnly(servers) <==>
              p in servers && p.enabled && p.clientEnabled && TrimSpace(p.endpoint) != ""
  {
    hide TrimSpace;
    if servers != [] {
      OfferedMembers(servers[..|servers| - 1]);
      assert servers == servers[..|servers| - 1] + [servers[|servers| - 1]];
    }
  }

  lemma OfferedHaveRows(servers: seq<Profile>, out: seq<RouteInfo>)
    requires DistinctIds(servers) && |out| == |OfferedOnly(servers)|
    requires forall i :: 0 <= i < |out| ==> out[i].id == OfferedOnly(servers)[i].id
    ensures forall p :: p in servers ==>
              (p.enabled && p.clientEnabled && TrimSpace(p.endpoint) != "" <==> exists i :: 0 <= i < |out| && out[i].id == p.id)
  {
    hide TrimSpace, OfferedOnly;
    OfferedMembers(servers);
    var offered := OfferedOnly(servers);
    forall p | p in servers
      ensures p in offered <==> exists i :: 0 <= i < |out| && out[i].id == p.id
    {
      if i :| 0 <= i < |out| && out[i].id == p.id {
        assert offered[i] in offered;
        var j :| 0 <= j < |servers| && servers[j] == offered[i];
        var k :| 0 <= k < |servers| && servers[k] == p;
        assert j == k;
      }
    }
  }

  method BuildIndex(servers: seq<Profile>) returns (g: Profiles)
    ensures g == ById(servers)
  {
    g := map[];
    for i := 0 to |servers|
      invariant g == ById(servers[..i])
    {
      assert servers[..i + 1][..i] == servers[..i];
      g := g[servers[i].id := servers[i]];
    }
    assert servers[..|servers|] == servers;
  }

  lemma UsableWorks(p: Profile)
    ensures p.Usable() <==> Works(p)
  {
  }

  /** The row of one profile that is offered. */
  method RouteOf(reader: StatusReader, physical: string -> bool, running: string -> bool, ifaceName: string -> string, p: Profile)
      returns (row: RouteInfo)
    requires reader.Valid(physical) && "" !in reader.profiles
    modifies reader
    ensures reader.Valid(physical) && old(reader.readLog) <= reader.readLog
    ensures IsRow(reader.profiles, physical, running, ifaceName, p, row)
  {
    hide Order, Profile.Usable, Works, StatusReader.Valid;
    UsableWorks(p);
    var iface := ifaceName(p.iface);
    if p.Usable() && |p.fallbacks| > 0 {
      var selected := reader.Select(physical, p.id);
      if selected != "" {
        iface := ifaceName(if selected in reader.profiles then reader.profiles[selected].iface else "");
      }
    }
    row := RouteInfo(p.id, p.name, iface, p.Usable() && running(iface));
  }

  lemma RowHasItsId(g: Profiles, physical: string -> bool, running: string -> bool, ifaceName: string -> string, p: Profile, row: RouteInfo)
    requires IsRow(g, physical, running, ifaceName, p, row)
    ensures row.id == p.id
  {
  }

  method DnsRouteCandidates(servers: seq<Profile>, physical: string -> bool, running: string -> bool, ifaceName: string -> string)
      returns (out: seq<RouteInfo>, statusReads: seq<string>)
    requires DistinctIds(servers)
    // Each enabled profile is listed, in order, with the interface its traffic takes.
    ensures |out| == |OfferedOnly(servers)|
    ensures forall i :: 0 <= i < |out| ==> IsRow(ById(servers), physical, running, ifaceName, OfferedOnly(servers)[i], out[i])
    // Only usable profiles are asked for their status, each at most once.
    ensures NoDuplicates(statusReads) && forall x :: x in statusReads ==> UsableId(ById(servers), x)
    // Exactly the profiles that are switched on and know where to connect to have a row.
    ensures forall p :: p in servers ==>
              (p.enabled && p.clientEnabled && TrimSpace(p.endpoint) != "" <==> exists i :: 0 <= i < |out| && out[i].id == p.id)
  {
    hide IsRow, Profile.Offered, OfferedOnly, TrimSpace;
    NothingOffered();
    var g := BuildIndex(servers);
    ByIdFinds(servers);
    var reader := new StatusReader(g);
    out := [];
    for i := 0 to |servers|
      invariant reader.Valid(physical)
      invariant |out| == |OfferedOnly(servers[..i])|
      invariant forall j :: 0 <= j < |out| ==> out[j].id == OfferedOnly(servers[..i])[j].id
      invariant forall j :: 0 <= j < |out| ==> IsRow(g, physical, running, ifaceName, OfferedOnly(servers[..i])[j], out[j])
    {
      var p := servers[i];
      OfferedSnoc(servers, i);
      if !p.Offered() {
        continue;
      }
      var row := RouteOf(reader, physical, running, ifaceName, p);
      RowHasItsId(g, physical, running, ifaceName, p, row);
      out := out + [row];
    }
    assert servers[..|servers|] == servers;
    OfferedHaveRows(servers, out);
    statusReads := reader.readLog;
  }
}
