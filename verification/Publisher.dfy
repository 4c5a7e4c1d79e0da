/**
  The optimistic publisher of the route table (decision.go): any number of
  concurrent republishRouteTable calls, racing with edits that bump the zones
  revision. Every atomic load, every zone expansion and the compare-and-swap is
  one step.

  What the lists expand to is fixed by the revision, so a table records for each
  of its zones the revision at which that zone was expanded. A table's `id` is
  its address: a fresh one for every build.
 */
module Publisher {
  import opened Wrappers

  datatype Table = Table(id: nat, hash: nat, revision: nat, expandedAt: seq<nat>)

  datatype Store = Store(revision: nat, published: Option<Table>, nextId: nat, installed: set<nat>)

  /** One republishRouteTable call: the wanted input hash, the number of zones, and the revision when it began. */
  datatype Call = Call(want: nat, zones: nat, since: nat)

  datatype Pc =
    | Idle
    | Hashed(call: Call)
    | FastRevision(call: Call, rev: nat)
    | FastCurrent(call: Call, rev: nat, cur: Option<Table>)
    | Attempt(call: Call, n: nat)
    | HaveRevision(call: Call, n: nat, rev: nat)
    | Building(call: Call, n: nat, rev: nat, previous: Option<Table>, expandedAt: seq<nat>)
    | Built(call: Call, n: nat, rev: nat, previous: Option<Table>, table: Table)
    | Settled(call: Call, n: nat, rev: nat, previous: Option<Table>, table: Table)
    | LostRace(call: Call, n: nat, rev: nat, table: Table)
    | SawCurrent(call: Call, n: nat, rev: nat, table: Table, current: Option<Table>)
    | Returned(call: Call, table: Table, cached: bool)
  {
    predicate Owns() { Built? || Settled? }
  }

  datatype World = World(store: Store, threads: seq<Pc>)

  /** The table is what the call would have built at revision rev. */
  predicate Serves(cur: Option<Table>, want: nat, rev: nat) {
    cur.Some? && cur.value.hash == want && cur.value.revision == rev
  }

  /** The end of a failed attempt: retry once, then give the last build back uncached. */
  function NextAttempt(call: Call, n: nat, table: Table): Pc {
    if n == 0 then Attempt(call, 1) else Returned(call, table, false)
  }

  function Advance(s: Store, pc: Pc): (Store, Pc)
    requires !pc.Idle? && !pc.Returned?
  {
    match pc
    case Hashed(call) => (s, FastRevision(call, s.revision))
    case FastRevision(call, rev) => (s, FastCurrent(call, rev, s.published))
    case FastCurrent(call, rev, cur) =>
      (s, if Serves(cur, call.want, rev) && s.revision == rev then Returned(call, cur.value, true) else Attempt(call, 0))
    case Attempt(call, n) => (s, HaveRevision(call, n, s.revision))
    case HaveRevision(call, n, rev) => (s, Building(call, n, rev, s.published, []))
    case Building(call, n, rev, previous, expandedAt) =>
      if |expandedAt| < call.zones then (s, Building(call, n, rev, previous, expandedAt + [s.revision]))
      else (s.(nextId := s.nextId + 1), Built(call, n, rev, previous, Table(s.nextId, call.want, rev, expandedAt)))
    case Built(call, n, rev, previous, table) =>
      (s, if s.revision != rev then NextAttempt(call, n, table) else Settled(call, n, rev, previous, table))
    case Settled(call, n, rev, previous, table) =>
      if SamePointer(s.published, previous) then
        (s.(published := Some(table), installed := s.installed + {table.id}), Returned(call, table, true))
      else (s, LostRace(call, n, rev, table))
    case LostRace(call, n, rev, table) => (s, SawCurrent(call, n, rev, table, s.published))
    case SawCurrent(call, n, rev, table, current) =>
      (s, if Serves(current, call.want, rev) && s.revision == rev then Returned(call, current.value, true)
          else NextAttempt(call, n, table))
  }

  /** Pointer comparison: addresses only. */
  predicate SamePointer(a: Option<Table>, b: Option<Table>) {
    match (a, b)
    case (None, None) => true
    case (Some(x), Some(y)) => x.id == y.id
    case _ => false
  }

  datatype Move = Republish(t: nat, want: nat, zones: nat) | Next(t: nat) | Leave(t: nat) | BumpRevision

  predicate Enabled(w: World, m: Move) {
    match m
    case Republish(t, _, _) => t < |w.threads| && w.threads[t].Idle?
    case Next(t) => t < |w.threads| && !w.threads[t].Idle? && !w.threads[t].Returned?
    case Leave(t) => t < |w.threads| && w.threads[t].Returned?
    case BumpRevision => true
  }

  function Step(w: World, m: Move): World
    requires Enabled(w, m)
  {
    match m
    case Republish(t, want, zones) => w.(threads := w.threads[t := Hashed(Call(want, zones, w.store.revision))])
    case Next(t) => var (s, pc) := Advance(w.store, w.threads[t]); World(s, w.threads[t := pc])
    case Leave(t) => w.(threads := w.threads[t := Idle])
    case BumpRevision => w.(store := w.store.(revision := w.store.revision + 1))
  }

  ghost predicate Init(w: World) {
    && w.store.published == None && w.store.installed == {}
    && forall t :: 0 <= t < |w.threads| ==> w.threads[t] == Idle
  }

  ghost predicate Run(states: seq<World>, moves: seq<Move>) {
    && |states| == |moves| + 1
    && Init(states[0])
    && forall i :: 0 <= i < |moves| ==> Enabled(states[i], moves[i]) && states[i + 1] == Step(states[i], moves[i])
  }

  // ---------- the invariant ----------

  predicate AllAt(expandedAt: seq<nat>, rev: nat) {
    forall i :: 0 <= i < |expandedAt| ==> expandedAt[i] == rev
  }

  predicate AllBetween(expandedAt: seq<nat>, low: nat, high: nat) {
    forall i :: 0 <= i < |expandedAt| ==> low <= expandedAt[i] <= high
  }

  /** A table that was published once: it holds exactly the expansion at the revision it is labelled with. */
  predicate PublishedOk(s: Store, table: Table) {
    && table.id in s.installed && table.id < s.nextId
    && table.revision <= s.revision
    && AllAt(table.expandedAt, table.revision)
  }

  /** What a pointer loaded earlier still says about the one in place now. */
  predicate PreviousOk(s: Store, rev: nat, previous: Option<Table>) {
    previous.Some? ==>
      && PublishedOk(s, previous.value)
      && (s.revision == rev ==> previous.value.revision <= rev)
      && s.published.Some?
      && previous.value.revision <= s.published.value.revision
      && (s.published.value.id == previous.value.id ==> s.published.value == previous.value)
  }

  predicate CallOk(call: Call, rev: nat, s: Store) {
    call.since <= rev <= s.revision
  }

  predicate ReturnOk(s: Store, call: Call, table: Table) {
    PublishedOk(s, table) && table.hash == call.want && call.since <= table.revision
  }

  predicate PcOk(s: Store, pc: Pc) {
    match pc
    case Idle => true
    case Hashed(call) => call.since <= s.revision
    case FastRevision(call, rev) => CallOk(call, rev, s)
    case FastCurrent(call, rev, cur) => CallOk(call, rev, s) && (cur.Some? ==> PublishedOk(s, cur.value))
    case Attempt(call, n) => call.since <= s.revision
    case HaveRevision(call, n, rev) => CallOk(call, rev, s)
    case Building(call, n, rev, previous, expandedAt) =>
      CallOk(call, rev, s) && PreviousOk(s, rev, previous) && AllBetween(expandedAt, rev, s.revision) && |expandedAt| <= call.zones
    case Built(call, n, rev, previous, table) =>
      && CallOk(call, rev, s) && PreviousOk(s, rev, previous) && AllBetween(table.expandedAt, rev, s.revision)
      && table.hash == call.want && table.revision == rev && table.id < s.nextId && table.id !in s.installed
    case Settled(call, n, rev, previous, table) =>
      && CallOk(call, rev, s) && PreviousOk(s, rev, previous) && AllAt(table.expandedAt, rev)
      && (previous.Some? ==> previous.value.revision <= rev)
      && table.hash == call.want && table.revision == rev && table.id < s.nextId && table.id !in s.installed
    case LostRace(call, n, rev, table) => CallOk(call, rev, s)
    case SawCurrent(call, n, rev, table, current) => CallOk(call, rev, s) && (current.Some? ==> PublishedOk(s, current.value))
    case Returned(call, table, cached) => cached ==> ReturnOk(s, call, table)
  }

  predicate StoreOk(s: Store) {
    && (s.published.Some? ==> PublishedOk(s, s.published.value))
    && (forall id :: id in s.installed ==> id < s.nextId)
  }

  predicate OwnersDistinct(threads: seq<Pc>) {
    forall t, u ::
      (0 <= t < |threads| && 0 <= u < |threads| && threads[t].Owns() && threads[u].Owns() && threads[t].table.id == threads[u].table.id)
      ==> t == u
  }

  ghost predicate Inv(w: World) {
    && StoreOk(w.store)
    && (forall t :: 0 <= t < |w.threads| ==> PcOk(w.store, w.threads[t]))
    && OwnersDistinct(w.threads)
  }

  /** How the shared store may move between two steps of one thread. */
  predicate StoreMoved(s: Store, s': Store) {
    && s.revision <= s'.revision
    && s.nextId <= s'.nextId
    && s.installed <= s'.installed
    && (s.published.Some? ==> s'.published.Some? && s.published.value.revision <= s'.published.value.revision)
    && (s'.published == s.published || (s'.published.Some? && s'.published.value.id !in s.installed))
  }

  /** A thread's knowledge survives what the others do, unless somebody installed its own table. */
  lemma OthersUndisturbed(s: Store, s': Store, pc: Pc)
    requires PcOk(s, pc) && StoreMoved(s, s')
    requires pc.Owns() ==> pc.table.id !in s'.installed
    ensures PcOk(s', pc)
  {
  }

  /** What one step of a call guarantees the rest. */
  predicate Guarantee(s: Store, pc: Pc, s': Store, pc': Pc) {
    && StoreOk(s') && PcOk(s', pc') && StoreMoved(s, s')
    && (pc'.Owns() ==> (pc.Owns() && pc'.table.id == pc.table.id) || (pc'.table.id == s.nextId && s'.nextId == s.nextId + 1))
    && (s'.installed == s.installed || (pc.Owns() && !pc'.Owns() && s'.installed == s.installed + {pc.table.id}))
  }

  lemma BuildGuarantees(s: Store, pc: Pc)
    requires StoreOk(s) && PcOk(s, pc) && (pc.Building? || pc.Built?)
    ensures Guarantee(s, pc, Advance(s, pc).0, Advance(s, pc).1)
  {
    if pc.Building? {
      assert forall i :: 0 <= i < |pc.expandedAt| ==> (pc.expandedAt + [s.revision])[i] == pc.expandedAt[i];
    }
  }

  lemma SwapGuarantees(s: Store, pc: Pc)
    requires StoreOk(s) && PcOk(s, pc) && pc.Settled?
    ensures Guarantee(s, pc, Advance(s, pc).0, Advance(s, pc).1)
  {
  }

  lemma AdvanceGuarantees(s: Store, pc: Pc)
    requires StoreOk(s) && !pc.Idle? && !pc.Returned? && PcOk(s, pc)
    ensures Guarantee(s, pc, Advance(s, pc).0, Advance(s, pc).1)
  {
    match pc
    case Building(_, _, _, _, _) => BuildGuarantees(s, pc);
    case Built(_, _, _, _, _) => BuildGuarantees(s, pc);
    case Settled(_, _, _, _, _) => SwapGuarantees(s, pc);
    case _ =>
  }

  lemma NextKeepsInv(w: World, t: nat)
    requires Inv(w) && Enabled(w, Next(t))
    ensures Inv(Step(w, Next(t)))
  {
    hide PcOk, PublishedOk;
    var w' := Step(w, Next(t));
    AdvanceGuarantees(w.store, w.threads[t]);
    forall u | 0 <= u < |w.threads| && u != t
      ensures PcOk(w'.store, w'.threads[u])
    {
      assert w'.threads[u] == w.threads[u];
      OwnedIsNotInstalled(w.store, w.threads[u]);
      OthersUndisturbed(w.store, w'.store, w.threads[u]);
    }
    forall u | 0 <= u < |w.threads|
      ensures w.threads[u].Owns() ==> w.threads[u].table.id < w.store.nextId
    {
      OwnedIsNotInstalled(w.store, w.threads[u]);
    }
  }

  lemma OwnedIsNotInstalled(s: Store, pc: Pc)
    requires PcOk(s, pc)
    ensures pc.Owns() ==> pc.table.id !in s.installed && pc.table.id < s.nextId
  {
  }

  lemma StepKeepsInv(w: World, m: Move)
    requires Inv(w) && Enabled(w, m)
    ensures Inv(Step(w, m)) && StoreMoved(w.store, Step(w, m).store)
  {
    match m
    case Next(t) =>
      NextKeepsInv(w, t);
      AdvanceGuarantees(w.store, w.threads[t]);
    case BumpRevision =>
      var w' := Step(w, m);
      forall u | 0 <= u < |w.threads|
        ensures PcOk(w'.store, w'.threads[u])
      {
        OwnedIsNotInstalled(w.store, w.threads[u]);
        OthersUndisturbed(w.store, w'.store, w.threads[u]);
      }
    case _ =>
  }

  lemma {:induction false} ReachableInv(states: seq<World>, moves: seq<Move>, i: nat)
    requires Run(states, moves) && i < |states|
    ensures Inv(states[i])
  {
    if i > 0 {
      ReachableInv(states, moves, i - 1);
      StepKeepsInv(states[i - 1], moves[i - 1]);
    }
  }

  // ---------- what the publisher promises ----------

  /** The published revision never goes back, and a published table is never taken away. */
  lemma {:induction false} PublishedNeverGoesBack(states: seq<World>, moves: seq<Move>, i: nat, j: nat)
    requires Run(states, moves) && i <= j < |states| && states[i].store.published.Some?
    ensures states[j].store.published.Some?
    ensures states[i].store.published.value.revision <= states[j].store.published.value.revision
  {
    if i < j {
      PublishedNeverGoesBack(states, moves, i, j - 1);
      ReachableInv(states, moves, j - 1);
      StepKeepsInv(states[j - 1], moves[j - 1]);
    }
  }

  /** A published table labelled r holds exactly the expansion at r, and r is no later than the current revision. */
  lemma PublishedIsLabelledRight(states: seq<World>, moves: seq<Move>, i: nat)
    requires Run(states, moves) && i < |states| && states[i].store.published.Some?
    ensures var table := states[i].store.published.value;
            && table.revision <= states[i].store.revision
            && forall k :: 0 <= k < |table.expandedAt| ==> table.expandedAt[k] == table.revision
  {
    ReachableInv(states, moves, i);
  }

  /** A cached result answers the wanted input and is at least as new as the revision the call began with. */
  lemma CachedResultIsFresh(states: seq<World>, moves: seq<Move>, i: nat, t: nat)
    requires Run(states, moves) && i < |states| && t < |states[i].threads|
    requires states[i].threads[t].Returned? && states[i].threads[t].cached
    ensures var pc := states[i].threads[t];
            && pc.table.hash == pc.call.want
            && pc.call.since <= pc.table.revision <= states[i].store.revision
            && forall k :: 0 <= k < |pc.table.expandedAt| ==> pc.table.expandedAt[k] == pc.table.revision
  {
    ReachableInv(states, moves, i);
    assert PcOk(states[i].store, states[i].threads[t]);
  }

  /** Publishing is the only way the table changes: the new one is the publisher's own, labelled with a revision read during its call. */
  lemma OnlyASettledBuildIsPublished(states: seq<World>, moves: seq<Move>, i: nat)
    requires Run(states, moves) && i < |moves| && states[i + 1].store.published != states[i].store.published
    ensures moves[i].Next?
    ensures var pc := states[i].threads[moves[i].t];
            && pc.Settled? && states[i + 1].store.published == Some(pc.table)
            && states[i + 1].threads[moves[i].t] == Returned(pc.call, pc.table, true)
            && pc.call.since <= pc.table.revision
  {
    ReachableInv(states, moves, i);
    assert PcOk(states[i].store, states[i].threads[moves[i].t]);
  }

  /** How many more steps a call can take at most. */
  function StepsLeft(pc: Pc): int {
    match pc
    case Idle => 0
    case Hashed(call) => 2 * (call.zones + 8) + 3
    case FastRevision(call, _) => 2 * (call.zones + 8) + 2
    case FastCurrent(call, _, _) => 2 * (call.zones + 8) + 1
    case Attempt(call, n) => AttemptsLeft(call, n) + call.zones + 8
    case HaveRevision(call, n, _) => AttemptsLeft(call, n) + call.zones + 7
    case Building(call, n, _, _, expandedAt) => AttemptsLeft(call, n) + call.zones - |expandedAt| + 5
    case Built(call, n, _, _, _) => AttemptsLeft(call, n) + 4
    case Settled(call, n, _, _, _) => AttemptsLeft(call, n) + 3
    case LostRace(call, n, _, _) => AttemptsLeft(call, n) + 2
    case SawCurrent(call, n, _, _, _) => AttemptsLeft(call, n) + 1
    case Returned(_, _, _) => 0
  }

  function AttemptsLeft(call: Call, n: nat): nat {
    if n == 0 then call.zones + 8 else 0
  }

  /** However the edits race, a call returns after at most StepsLeft steps of its own. */
  lemma RetriesAreBounded(states: seq<World>, moves: seq<Move>, i: nat, t: nat)
    requires Run(states, moves) && i < |moves| && moves[i] == Next(t)
    ensures 0 <= StepsLeft(states[i + 1].threads[t]) < StepsLeft(states[i].threads[t])
  {
    ReachableInv(states, moves, i);
    assert PcOk(states[i].store, states[i].threads[t]);
  }

  // ---------- a call that nobody disturbs ----------

  /** How far an undisturbed call has got; the store is as it found it until it publishes. */
  predicate OnTrack(start: Store, s: Store, pc: Pc) {
    && s.revision == start.revision
    && (!pc.Returned? ==> s.published == start.published)
    && match pc
       case Idle => false
       case Hashed(_) => true
       case FastRevision(_, rev) => rev == s.revision
       case FastCurrent(_, rev, cur) => rev == s.revision && cur == s.published
       case Attempt(call, n) => n == 0 && !Serves(s.published, call.want, s.revision)
       case HaveRevision(call, n, rev) => n == 0 && rev == s.revision && !Serves(s.published, call.want, rev)
       case Building(call, n, rev, previous, expandedAt) =>
         && n == 0 && rev == s.revision && previous == s.published && !Serves(previous, call.want, rev)
         && AllAt(expandedAt, rev) && |expandedAt| <= call.zones
       case Built(call, n, rev, previous, table) =>
         n == 0 && rev == s.revision && previous == s.published && !Serves(previous, call.want, rev) && OwnBuild(call, rev, table)
       case Settled(call, n, rev, previous, table) =>
         n == 0 && rev == s.revision && previous == s.published && !Serves(previous, call.want, rev) && OwnBuild(call, rev, table)
       case LostRace(_, _, _, _) => false
       case SawCurrent(_, _, _, _, _) => false
       case Returned(call, table, cached) =>
         && cached && s.published == Some(table) && table.hash == call.want && table.revision == s.revision
         && (if Serves(start.published, call.want, start.revision) then s.published == start.published else OwnBuild(call, s.revision, table))
  }

  /** A table built for this call at this revision: every zone expanded there. */
  predicate OwnBuild(call: Call, rev: nat, table: Table) {
    && table.hash == call.want && table.revision == rev
    && |table.expandedAt| == call.zones && forall i :: 0 <= i < |table.expandedAt| ==> table.expandedAt[i] == rev
  }

  lemma OneMoreOnTrack(start: Store, s: Store, pc: Pc)
    requires !pc.Idle? && !pc.Returned? && OnTrack(start, s, pc)
    ensures OnTrack(start, Advance(s, pc).0, Advance(s, pc).1)
  {
  }

  /**
    A call that runs without interference returns a table of the current revision
    that is then the published one: the one in place if it already serves the call,
    or else its own build, with every zone expanded at this revision.
   */
  lemma {:induction false} UndisturbedCallPublishes(states: seq<World>, moves: seq<Move>, i: nat, j: nat, t: nat)
    requires Run(states, moves) && i <= j < |states| && t < |states[i].threads| && states[i].threads[t].Hashed?
    requires forall k :: i <= k < j ==> moves[k] == Next(t)
    ensures t < |states[j].threads| && OnTrack(states[i].store, states[j].store, states[j].threads[t])
  {
    hide OnTrack, Advance;
    if i < j {
      UndisturbedCallPublishes(states, moves, i, j - 1, t);
      OneMoreOnTrack(states[i].store, states[j - 1].store, states[j - 1].threads[t]);
    } else {
      StartsOnTrack(states[i].store, states[i].threads[t]);
    }
  }

  lemma StartsOnTrack(s: Store, pc: Pc)
    requires pc.Hashed?
    ensures OnTrack(s, s, pc)
  {
  }

  /** What every build holds: the wanted input, and one expansion for each zone. */
  predicate BuildOk(pc: Pc) {
    match pc
    case Building(call, _, _, _, expandedAt) => |expandedAt| <= call.zones
    case Built(call, _, rev, _, table) => table.hash == call.want && table.revision == rev && |table.expandedAt| == call.zones
    case Settled(call, _, rev, _, table) => table.hash == call.want && table.revision == rev && |table.expandedAt| == call.zones
    case LostRace(call, _, rev, table) => table.hash == call.want && table.revision == rev && |table.expandedAt| == call.zones
    case SawCurrent(call, _, rev, table, _) => table.hash == call.want && table.revision == rev && |table.expandedAt| == call.zones
    case Returned(call, table, cached) => !cached ==> table.hash == call.want && |table.expandedAt| == call.zones
    case _ => true
  }

  /** Also the uncached table that a call returns when both attempts were overtaken is a complete build for its input. */
  lemma {:induction false} UncachedResultIsOwnBuild(states: seq<World>, moves: seq<Move>, i: nat, t: nat)
    requires Run(states, moves) && i < |states| && t < |states[i].threads|
    ensures BuildOk(states[i].threads[t])
  {
    if i > 0 {
      UncachedResultIsOwnBuild(states, moves, i - 1, t);
    }
  }
}
