/**
  The MAC-change journal (arpspoof/apply.go). An interface holds its address
  twice, in the native network manager and in the kernel; a write can fail after
  changing either copy. The journal on disk is replaced atomically or not at all.
 */
module MacJournal {
  import opened Wrappers
  import opened Lists

  type Name = string
  type Mac = string

  datatype Iface = Iface(native: Mac, kernel: Mac)

  datatype MacState = MacState(mac: Mac, inconsistent: bool)

  datatype ReadResult = Found(state: MacState) | Missing | ReadError

  datatype Config = Config(enabled: bool, mac: Mac)

  datatype Outcome =
    | NoTargets
    | TargetsError
    | ReadFailed(name: Name)
    | OriginalUnknown(name: Name)
    | JournalNotSaved
    | WriteFailed(name: Name, allRestored: bool)
    | CleanupNotSaved
    | Applied

  /** What happens to a router. */
  datatype Event =
    | Applying(cfg: Config, selected: Option<seq<Name>>, forced: bool)
    | Saving
    | Restarting
    | Unplugged(name: Name)
    | Plugged(name: Name, iface: Iface)

  /** Which interfaces may fail to be read or written, and whether the disk may be full. */
  datatype Faults = Faults(unreadable: set<Name>, unwritable: set<Name>, full: bool)

  const NO_FAULTS := Faults({}, {}, false)

  /** Under some faults an event runs to its end, or the machine stops at some point within it and starts again. */
  datatype Step = Completed(event: Event, faults: Faults) | CutShort(event: Event, faults: Faults, at: nat)

  /** What survives a crash: the journal on disk and the addresses the interfaces hold. */
  datatype Durable = Durable(journal: map<Name, Mac>, ifaces: map<Name, Iface>)

  /** Every interface has its own address, or the journal knows what it was. */
  ghost predicate Recoverable(own: Name -> Mac, d: Durable) {
    && (forall n :: n in d.journal ==> d.journal[n] == own(n))
    && (forall n :: n in d.ifaces ==> d.ifaces[n] == Iface(own(n), own(n)) || n in d.journal)
  }

  /** The running service: its copy of the journal is backed by the disk and covers every changed interface. */
  ghost predicate Safe(own: Name -> Mac, origMACs: map<Name, Mac>, d: Durable) {
    && (forall n :: n in d.journal ==> d.journal[n] == own(n))
    && (forall n :: n in origMACs ==> n in d.journal && origMACs[n] == own(n))
    && (forall n :: n in d.ifaces ==> d.ifaces[n] == Iface(own(n), own(n)) || n in origMACs)
  }

  /** After a crash anywhere in a recoverable state, loading the journal makes the service safe again. */
  lemma RestartIsSafe(own: Name -> Mac, origMACs: map<Name, Mac>, d: Durable)
    ensures Safe(own, origMACs, d) ==> Recoverable(own, d)
    ensures Recoverable(own, d) <==> Safe(own, d.journal, d)
  {
  }

  lemma PrefixesChain(a: seq<Durable>, b: seq<Durable>, c: seq<Durable>)
    requires a <= b <= c
    ensures a <= c
  {
  }

  // ---------- writing, seen from outside ----------

  /** What was read: each name is known or missing, and a consistent reading means both copies agree. */
  ghost predicate ReadFrom(names: seq<Name>, before: map<Name, MacState>, missing: set<Name>, was: map<Name, Iface>) {
    && (forall n :: n in names ==> (n in before <==> n !in missing))
    && (forall n :: n in before ==> n in was && before[n].mac == was[n].native)
    && (forall n :: n in before && !before[n].inconsistent ==> was[n].native == was[n].kernel)
    && (forall n :: n in missing ==> n !in was)
  }

  /** All these interfaces that exist have the desired address, and no other one changed. */
  ghost predicate Wrote(names: seq<Name>, desired: map<Name, Mac>, was: map<Name, Iface>, now: map<Name, Iface>) {
    && now.Keys == was.Keys
    && (forall n :: n in now && n !in names ==> now[n] == was[n])
    && (forall n :: n in names && n in now ==> n in desired && now[n] == Iface(desired[n], desired[n]))
  }

  /** Every address reads as it did; copies that disagreed have been aligned at most. */
  ghost predicate Restored(was: map<Name, Iface>, now: map<Name, Iface>) {
    && now.Keys == was.Keys
    && (forall n :: n in now ==> now[n] == was[n] || now[n] == Iface(was[n].native, was[n].native))
  }

  /** Nothing to write: the interface is gone or already has the address. */
  predicate Settled(name: Name, desired: map<Name, Mac>, before: map<Name, MacState>, missing: set<Name>) {
    name in missing || (name in desired && name in before && before[name].mac == desired[name] && !before[name].inconsistent)
  }

  /** After the names done so far, those in `changed` have been written and the others needed nothing. */
  ghost predicate SoFar(done: seq<Name>, changed: seq<Name>, desired: map<Name, Mac>, before: map<Name, MacState>,
                        missing: set<Name>, was: map<Name, Iface>, now: map<Name, Iface>)
  {
    && now.Keys == was.Keys
    && (forall n :: n in changed ==> n in done && n in desired && n in now && now[n] == Iface(desired[n], desired[n]))
    && (forall n :: n in now && n !in changed ==> now[n] == was[n])
    && (forall n :: n in done ==> n in changed || Settled(n, desired, before, missing))
  }

  lemma NothingWritten(desired: map<Name, Mac>, before: map<Name, MacState>, missing: set<Name>, was: map<Name, Iface>)
    ensures SoFar([], [], desired, before, missing, was, was)
  {
  }

  lemma ReadKnows(names: seq<Name>, before: map<Name, MacState>, missing: set<Name>, was: map<Name, Iface>, name: Name)
    requires ReadFrom(names, before, missing, was) && name in names
    ensures name in before <==> name !in missing
    ensures name in before ==> name in was
  {
  }

  lemma Skipped(done: seq<Name>, changed: seq<Name>, desired: map<Name, Mac>, before: map<Name, MacState>,
                missing: set<Name>, was: map<Name, Iface>, now: map<Name, Iface>, name: Name)
    requires SoFar(done, changed, desired, before, missing, was, now) && Settled(name, desired, before, missing)
    ensures SoFar(done + [name], changed, desired, before, missing, was, now)
  {
  }

  lemma OneMoreWritten(done: seq<Name>, changed: seq<Name>, desired: map<Name, Mac>, before: map<Name, MacState>,
                       missing: set<Name>, was: map<Name, Iface>, prior: map<Name, Iface>, now: map<Name, Iface>, name: Name)
    requires SoFar(done, changed, desired, before, missing, was, prior) && name !in done && name in desired
    requires now.Keys == prior.Keys && name in now && now[name] == Iface(desired[name], desired[name])
    requires forall n :: n in now && n != name ==> now[n] == prior[n]
    ensures SoFar(done + [name], changed + [name], desired, before, missing, was, now)
  {
    hide Settled;
  }

  lemma EverythingWritten(names: seq<Name>, changed: seq<Name>, desired: map<Name, Mac>, before: map<Name, MacState>,
                          missing: set<Name>, was: map<Name, Iface>, now: map<Name, Iface>)
    requires SoFar(names, changed, desired, before, missing, was, now) && ReadFrom(names, before, missing, was)
    ensures Wrote(names, desired, was, now)
  {
    forall n | n in names && n in now
      ensures n in desired && now[n] == Iface(desired[n], desired[n])
    {
      if n !in changed {
        assert Settled(n, desired, before, missing);
        assert now[n] == was[n];
      }
    }
  }

  /** Undoing everything attempted, the failed write included, leaves every address as it was. */
  lemma RolledBack(names: seq<Name>, done: seq<Name>, changed: seq<Name>, desired: map<Name, Mac>, before: map<Name, MacState>,
                   missing: set<Name>, was: map<Name, Iface>, prior: map<Name, Iface>, now: map<Name, Iface>, name: Name)
    requires changed != [] && changed[|changed| - 1] == name
    requires SoFar(done, changed[..|changed| - 1], desired, before, missing, was, prior) && ReadFrom(names, before, missing, was)
    requires now.Keys == prior.Keys && forall n :: n in changed ==> n in before && n in now
    requires forall n :: n in now && n !in changed ==> now[n] == prior[n]
    requires forall n :: n in changed ==> now[n] == Iface(before[n].mac, before[n].mac)
    ensures Restored(was, now)
  {
    hide Settled;
    assert forall n :: n in changed[..|changed| - 1] ==> n in changed;
  }

  function Restricted(known: map<Name, Mac>, targets: seq<Name>): map<Name, Mac> {
    map n | n in known && n in targets :: known[n]
  }

  /** The address every affected interface should get: the fake one for targets, its own for the rest of the journal. */
  function DesiredMacs(targets: seq<Name>, mac: Mac, known: map<Name, Mac>): map<Name, Mac> {
    map n | n in known.Keys + (set t | t in targets) :: if n in targets then mac else known[n]
  }

  /** The service together with what it acts on. */
  class Machine {
    ghost const own: Name -> Mac
    var origMACs: map<Name, Mac>
    var journal: map<Name, Mac>
    var ifaces: map<Name, Iface>
    /** Every durable state passed through: a crash leaves one of them behind. */
    var history: seq<Durable>
    /** What may go wrong now. */
    var faults: Faults

    function Disk(): Durable
      reads this
    {
      Durable(journal, ifaces)
    }

    ghost predicate Valid()
      reads this
    {
      Safe(own, origMACs, Disk())
    }

    /** Wherever the machine stops, a restart can recover. */
    ghost predicate CrashSafe()
      reads this`history
    {
      forall i :: 0 <= i < |history| ==> Recoverable(own, history[i])
    }

    /** A router whose interfaces have their own addresses and whose journal is empty. */
    constructor (ghost own: Name -> Mac, ifaces: map<Name, Iface>)
      requires forall n :: n in ifaces ==> ifaces[n] == Iface(own(n), own(n))
      ensures Valid() && this.own == own && this.ifaces == ifaces && history == [] && origMACs == map[]
    {
      this.own, this.ifaces := own, ifaces;
      origMACs, journal, history := map[], map[], [];
      faults := NO_FAULTS;
    }

    // ---------- the platform ----------

    /** `forced` is the adapter's request to rewrite an address that looks right. */
    method Read(name: Name, forced: bool) returns (r: ReadResult)
      ensures r.Found? ==> name in ifaces && r.state.mac == ifaces[name].native
      ensures r.Found? && !r.state.inconsistent ==> ifaces[name].native == ifaces[name].kernel
      ensures r.Missing? ==> name !in ifaces
      ensures r.ReadError? ==> name in faults.unreadable
      ensures r.Found? && !forced && ifaces[name].native == ifaces[name].kernel ==> !r.state.inconsistent
    {
      if name in faults.unreadable {
        var broken := *;
        if broken {
          return ReadError;
        }
      }
      if name !in ifaces {
        return Missing;
      }
      var iface := ifaces[name];
      r := Found(MacState(iface.native, iface.native != iface.kernel || forced));
    }

    method Write(name: Name, mac: Mac) returns (ok: bool)
      modifies this`ifaces, this`history
      ensures ifaces.Keys == old(ifaces).Keys
      ensures forall n :: n in ifaces && n != name ==> ifaces[n] == old(ifaces)[n]
      ensures ok ==> name in ifaces && ifaces[name] == Iface(mac, mac)
      ensures !ok ==> name !in ifaces || name in faults.unwritable
      ensures history == old(history) + [Disk()]
    {
      ok := false;
      if name in ifaces {
        ok := name !in faults.unwritable;
        if !ok {
          ok := *;
        }
        var nativeDone, kernelDone := *, *;
        ifaces := ifaces[name := Iface(if ok || nativeDone then mac else ifaces[name].native,
                                       if ok || kernelDone then mac else ifaces[name].kernel)];
      }
      history := history + [Disk()];
    }

    method Save() returns (ok: bool)
      modifies this`journal, this`history
      ensures journal == if ok then origMACs else old(journal)
      ensures !ok ==> faults.full
      ensures history == old(history) + [Disk()]
    {
      ok := !faults.full;
      if !ok {
        ok := *;
      }
      if ok {
        journal := origMACs;
      }
      history := history + [Disk()];
    }

    // ---------- what else can happen to the router ----------

    /** Stop at any point and start again: the service knows what is on disk. */
    method Restart()
      requires Recoverable(own, Disk())
      modifies this`origMACs
      ensures Valid() && origMACs == journal
    {
      origMACs := journal;
    }

    /** The machine stopped at a moment passed through, and starts again from what was durable then. */
    method Crash(at: nat)
      requires CrashSafe() && at < |history|
      modifies this`origMACs, this`journal, this`ifaces, this`history
      ensures Valid() && CrashSafe()
      ensures Disk() == old(history)[at] && origMACs == journal && history == old(history) + [Disk()]
    {
      journal, ifaces := history[at].journal, history[at].ifaces;
      origMACs := journal;
      history := history + [Disk()];
    }

    method Vanish(name: Name)
      requires Valid() && CrashSafe()
      modifies this`ifaces, this`history
      ensures Valid() && CrashSafe() && ifaces == old(ifaces) - {name}
      ensures history == old(history) + [Disk()]
    {
      ifaces := ifaces - {name};
      history := history + [Disk()];
    }

    /** An interface that was gone comes back with its own address. */
    method Appear(name: Name, iface: Iface)
      requires Valid() && CrashSafe() && name !in ifaces && iface == Iface(own(name), own(name))
      modifies this`ifaces, this`history
      ensures Valid() && CrashSafe() && ifaces == old(ifaces)[name := iface]
      ensures history == old(history) + [Disk()]
    {
      ifaces := ifaces[name := iface];
      history := history + [Disk()];
    }

    /** The other saves of the service, which write the same journal. */
    method SaveState() returns (ok: bool)
      requires Valid() && CrashSafe()
      modifies this`journal, this`history
      ensures Valid() && CrashSafe()
      ensures old(history) <= history
    {
      ok := Save();
    }

    // ---------- applyMACConfig, part by part ----------

    method Desired(targets: seq<Name>, mac: Mac) returns (desired: map<Name, Mac>)
      ensures desired == DesiredMacs(targets, mac, origMACs)
    {
      desired := map[];
      for i := 0 to |targets|
        invariant desired.Keys == set n | n in targets[..i]
        invariant forall n :: n in desired ==> desired[n] == mac
      {
        desired := desired[targets[i] := mac];
        assert targets[..i + 1] == targets[..i] + [targets[i]];
      }
      assert targets[..|targets|] == targets;
      var todo := origMACs.Keys;
      while todo != {}
        invariant todo <= origMACs.Keys
        invariant desired.Keys == (set n | n in targets) + (origMACs.Keys - todo)
        invariant forall n :: n in desired ==> desired[n] == if n in targets then mac else origMACs[n]
      {
        var name :| name in todo;
        todo := todo - {name};
        if name !in targets {
          desired := desired[name := origMACs[name]];
        }
      }
    }

    /** Some order of the names; the program sorts them. */
    method Names(keys: set<Name>) returns (names: seq<Name>)
      ensures NoDuplicates(names) && forall n :: n in names <==> n in keys
    {
      names := [];
      var todo := keys;
      while todo != {}
        invariant todo <= keys && NoDuplicates(names)
        invariant forall n :: n in names <==> n in keys && n !in todo
      {
        var name :| name in todo;
        todo := todo - {name};
        names := names + [name];
      }
    }

    ghost predicate ReadAll(names: seq<Name>, before: map<Name, MacState>, missing: set<Name>)
      reads this`ifaces
    {
      ReadFrom(names, before, missing, ifaces)
    }

    method ReadBefore(names: seq<Name>, targets: seq<Name>, forced: bool)
        returns (failed: Option<Name>, before: map<Name, MacState>, missing: set<Name>)
      ensures failed.None? ==> ReadAll(names, before, missing)
      ensures failed.None? ==> forall n :: n in names && n in targets ==> n in before
      // An interface that is gone refuses the apply only as a target.
      ensures failed.Some? ==> failed.value in names
      ensures failed.Some? ==> failed.value in faults.unreadable || (failed.value in targets && failed.value !in ifaces)
    {
      failed, before, missing := None, map[], {};
      for i := 0 to |names|
        invariant ReadAll(names[..i], before, missing)
        invariant forall n :: n in names[..i] && n in targets ==> n in before
        invariant forall n :: n in before || n in missing ==> n in names[..i]
      {
        assert names[..i + 1] == names[..i] + [names[i]];
        var current := Read(names[i], forced);
        match current {
          case Found(state) =>
            before := before[names[i] := state];
            assert names[i] !in missing;
          case Missing =>
            if names[i] in targets {
              return Some(names[i]), before, missing;
            }
            missing := missing + {names[i]};
            assert names[i] !in before;
          case ReadError => return Some(names[i]), before, missing;
        }
      }
      assert names[..|names|] == names;
    }

    /** The targets whose original address is not known yet. */
    method Unknown(targets: seq<Name>, mac: Mac, before: map<Name, MacState>) returns (clash: Option<Name>, added: seq<Name>)
      requires forall n :: n in targets ==> n in before
      ensures clash.None? ==> forall n :: n in added <==> n in targets && n !in origMACs
      ensures clash.Some? ==> clash.value in targets && clash.value !in origMACs && before[clash.value].mac == mac
      ensures clash.None? ==> forall n :: n in targets && n !in origMACs ==> before[n].mac != mac
    {
      clash, added := None, [];
      for i := 0 to |targets|
        invariant forall n :: n in added <==> n in targets[..i] && n !in origMACs
        invariant forall n :: n in targets[..i] && n !in origMACs ==> before[n].mac != mac
      {
        assert targets[..i + 1] == targets[..i] + [targets[i]];
        var name := targets[i];
        if name !in origMACs {
          if before[name].mac == mac {
            return Some(name), [];
          }
          added := added + [name];
        }
      }
      assert targets[..|targets|] == targets;
    }

    method AddOriginals(added: seq<Name>, before: map<Name, MacState>)
      requires forall n :: n in added ==> n in before
      modifies this`origMACs
      ensures origMACs == old(origMACs) + map n | n in added :: before[n].mac
    {
      for i := 0 to |added|
        invariant origMACs == old(origMACs) + map n | n in added[..i] :: before[n].mac
      {
        assert added[..i + 1] == added[..i] + [added[i]];
        origMACs := origMACs[added[i] := before[added[i]].mac];
      }
      assert added[..|added|] == added;
    }

    method ForgetOriginals(added: seq<Name>)
      modifies this`origMACs
      ensures origMACs == old(origMACs) - set n | n in added
    {
      for i := 0 to |added|
        invariant origMACs == old(origMACs) - set n | n in added[..i]
      {
        assert added[..i + 1] == added[..i] + [added[i]];
        origMACs := origMACs - {added[i]};
      }
      assert added[..|added|] == added;
    }

    /** Write the new originals to disk before anything is changed. */
    method JournalOriginals(added: seq<Name>, before: map<Name, MacState>) returns (ok: bool)
      requires Valid() && CrashSafe()
      requires forall n :: n in added ==> n in before && n !in origMACs && n in ifaces && before[n].mac == ifaces[n].native
      modifies this`origMACs, this`journal, this`history
      ensures Valid() && CrashSafe()
      ensures old(history) <= history
      ensures ok ==> origMACs == old(origMACs) + map n | n in added :: before[n].mac
      ensures !ok ==> origMACs == old(origMACs) && journal == old(journal) && faults.full
    {
      if |added| == 0 {
        return true;
      }
      ghost var was := origMACs;
      AddOriginals(added, before);
      ok := Save();
      if !ok {
        ForgetOriginals(added);
        assert origMACs == was;
      }
    }

    /** A write to an interface whose original is journaled keeps everything recoverable. */
    method JournaledWrite(name: Name, mac: Mac) returns (ok: bool)
      requires Valid() && CrashSafe() && name in origMACs
      modifies this`ifaces, this`history
      ensures Valid() && CrashSafe()
      ensures old(history) <= history
      ensures ifaces.Keys == old(ifaces).Keys
      ensures forall n :: n in ifaces && n != name ==> ifaces[n] == old(ifaces)[n]
      ensures ok ==> name in ifaces && ifaces[name] == Iface(mac, mac)
      ensures !ok ==> name !in ifaces || name in faults.unwritable
    {
      ok := Write(name, mac);
    }

    /** Undo the attempted writes, last first. */
    method Rollback(changed: seq<Name>, before: map<Name, MacState>) returns (allRestored: bool)
      requires Valid() && CrashSafe() && NoDuplicates(changed)
      requires forall n :: n in changed ==> n in before && n in ifaces && n in origMACs
      modifies this`ifaces, this`history
      ensures Valid() && CrashSafe() && ifaces.Keys == old(ifaces).Keys
      ensures old(history) <= history
      ensures forall n :: n in ifaces && n !in changed ==> ifaces[n] == old(ifaces)[n]
      ensures allRestored ==> forall n :: n in changed ==> ifaces[n] == Iface(before[n].mac, before[n].mac)
      ensures !allRestored ==> exists n :: n in changed && n in faults.unwritable
    {
      hide Machine.Valid, Machine.CrashSafe;
      allRestored := true;
      var i := |changed|;
      while i > 0
        invariant 0 <= i <= |changed| && old(history) <= history
        invariant Valid() && CrashSafe() && ifaces.Keys == old(ifaces).Keys
        invariant forall n :: n in ifaces && n !in changed ==> ifaces[n] == old(ifaces)[n]
        invariant !allRestored ==> exists n :: n in changed && n in faults.unwritable
        invariant allRestored ==>
                    forall j :: i <= j < |changed| ==> ifaces[changed[j]] == Iface(before[changed[j]].mac, before[changed[j]].mac)
      {
        i := i - 1;
        var ok := JournaledWrite(changed[i], before[changed[i]].mac);
        if !ok {
          allRestored := false;
        }
      }
    }

    /** Write every address that differs; on the first failure undo what was attempted. */
    method WriteAll(names: seq<Name>, desired: map<Name, Mac>, before: map<Name, MacState>, missing: set<Name>)
        returns (failed: Option<Name>, allRestored: bool)
      requires Valid() && CrashSafe() && NoDuplicates(names) && ReadAll(names, before, missing)
      requires forall n :: n in names ==> n in desired && n in origMACs
      modifies this`ifaces, this`history
      ensures Valid() && CrashSafe() && ifaces.Keys == old(ifaces).Keys
      ensures old(history) <= history
      ensures failed.None? ==> AllWritten(names, desired, old(ifaces))
      ensures failed.Some? && allRestored ==> RestoredFrom(old(ifaces))
      ensures failed.Some? ==> failed.value in faults.unwritable
    {
      hide Machine.Valid, Machine.CrashSafe, SoFar, ReadFrom, Wrote, Restored;
      ghost var was := ifaces;
      var changed: seq<Name> := [];
      NothingWritten(desired, before, missing, was);
      for i := 0 to |names|
        invariant Valid() && CrashSafe() && ifaces.Keys == was.Keys && NoDuplicates(changed)
        invariant old(history) <= history
        invariant forall n :: n in changed ==> n in names[..i] && n in before && n in was
        invariant SoFar(names[..i], changed, desired, before, missing, was, ifaces)
      {
        assert names[..i + 1] == names[..i] + [names[i]];
        var name := names[i];
        ReadKnows(names, before, missing, was, name);
        if name in missing || (before[name].mac == desired[name] && !before[name].inconsistent) {
          Skipped(names[..i], changed, desired, before, missing, was, ifaces, name);
          continue;
        }
        assert name !in names[..i];
        ghost var prior := ifaces;
        changed := changed + [name];
        var ok := JournaledWrite(name, desired[name]);
        if !ok {
          ghost var failing := ifaces;
          allRestored := Rollback(changed, before);
          if allRestored {
            RolledBack(names, names[..i], changed, desired, before, missing, was, prior, ifaces, name);
          }
          return Some(name), allRestored;
        }
        OneMoreWritten(names[..i], changed[..|changed| - 1], desired, before, missing, was, prior, ifaces, name);
      }
      assert names[..|names|] == names;
      EverythingWritten(names, changed, desired, before, missing, was, ifaces);
      return None, true;
    }

    /** Drop the entries of interfaces that are no longer targets from the copy in memory. */
    method DropOthers(targets: seq<Name>) returns (removed: bool)
      modifies this`origMACs
      ensures origMACs == Restricted(old(origMACs), targets)
      ensures !removed ==> origMACs == old(origMACs)
    {
      ghost var was := origMACs;
      removed := false;
      var todo := origMACs.Keys;
      while todo != {}
        invariant todo <= was.Keys && todo <= origMACs.Keys && (!removed ==> origMACs == was)
        invariant origMACs == map n | n in was && (n in targets || n in todo) :: was[n]
      {
        var name :| name in todo;
        todo := todo - {name};
        if name !in targets {
          origMACs := origMACs - {name};
          removed := true;
        }
      }
    }

    /** Forget the journal entries of interfaces that are no longer targets. */
    method Cleanup(targets: seq<Name>) returns (ok: bool)
      requires Valid() && CrashSafe()
      requires forall n :: n in origMACs && n !in targets && n in ifaces ==> ifaces[n] == Iface(own(n), own(n))
      modifies this`origMACs, this`journal, this`history
      ensures Valid() && CrashSafe()
      ensures old(history) <= history
      ensures origMACs == Restricted(old(origMACs), targets)
      ensures ok && origMACs != old(origMACs) ==> journal == origMACs
      ensures !ok ==> faults.full
    {
      var removed := DropOthers(targets);
      ok := true;
      if removed {
        ok := Save();
      }
    }

    /** Targets have the fake address, formerly changed interfaces their own again, all others are untouched. */
    ghost predicate AppliedTo(targets: seq<Name>, mac: Mac, known: map<Name, Mac>, was: map<Name, Iface>)
      reads this
    {
      && (forall n :: n in targets ==> n in ifaces && ifaces[n] == Iface(mac, mac))
      && (forall n :: n in known && n !in targets && n in ifaces ==> ifaces[n] == Iface(own(n), own(n)))
      && (forall n :: n in ifaces && n !in known && n !in targets ==> n in was && ifaces[n] == was[n])
      && origMACs.Keys == set n | n in targets
    }

    /** The writes have put every name where it should be. */
    ghost predicate AllWritten(names: seq<Name>, desired: map<Name, Mac>, was: map<Name, Iface>)
      reads this`ifaces
    {
      Wrote(names, desired, was, ifaces)
    }

    lemma WrittenMeansApplied(targets: seq<Name>, mac: Mac, known: map<Name, Mac>, names: seq<Name>,
                              desired: map<Name, Mac>, was: map<Name, Iface>)
      requires AllWritten(names, desired, was) && forall n :: n in names <==> n in desired
      requires desired == DesiredMacs(targets, mac, known)
      requires forall n :: n in known ==> known[n] == own(n)
      requires forall n :: n in targets ==> n in ifaces
      requires origMACs.Keys == set n | n in targets
      ensures AppliedTo(targets, mac, known, was)
    {
    }

    lemma WrittenOthersAreOwn(targets: seq<Name>, mac: Mac, known: map<Name, Mac>, names: seq<Name>,
                              desired: map<Name, Mac>, was: map<Name, Iface>)
      requires AllWritten(names, desired, was) && forall n :: n in names <==> n in desired
      requires desired == DesiredMacs(targets, mac, known)
      requires forall n :: n in known ==> known[n] == own(n)
      ensures forall n :: n in known && n !in targets && n in ifaces ==> ifaces[n] == Iface(own(n), own(n))
    {
    }

    lemma BeforeWriting(targets: seq<Name>, mac: Mac, names: seq<Name>, desired: map<Name, Mac>,
                        before: map<Name, MacState>, missing: set<Name>, added: seq<Name>)
      requires Valid() && ReadAll(names, before, missing) && desired == DesiredMacs(targets, mac, origMACs)
      requires forall n :: n in names <==> n in desired
      requires forall n :: n in targets ==> n in before
      requires forall n :: n in added <==> n in targets && n !in origMACs
      ensures forall n :: n in origMACs ==> origMACs[n] == own(n)
      ensures forall n :: n in targets ==> n in ifaces
      ensures forall n :: n in added ==> n in ifaces && before[n].mac == ifaces[n].native
      ensures forall n :: n in names ==> n in origMACs || n in targets
    {
    }

    /** The mutating half of applyMACConfig: journal, write, clean up. */
    method Execute(targets: seq<Name>, mac: Mac, names: seq<Name>, desired: map<Name, Mac>,
                   before: map<Name, MacState>, missing: set<Name>, added: seq<Name>) returns (outcome: Outcome)
      requires Valid() && CrashSafe() && NoDuplicates(names) && ReadAll(names, before, missing)
      requires forall n :: n in names <==> n in desired
      requires desired == DesiredMacs(targets, mac, origMACs)
      requires forall n :: n in targets ==> n in before
      requires forall n :: n in added <==> n in targets && n !in origMACs
      modifies this`origMACs, this`journal, this`ifaces, this`history
      ensures Valid() && CrashSafe() && ifaces.Keys == old(ifaces).Keys
      ensures old(history) <= history
      ensures outcome in {JournalNotSaved, CleanupNotSaved, Applied} || outcome.WriteFailed?
      ensures outcome.JournalNotSaved? ==> ifaces == old(ifaces) && origMACs == old(origMACs) && journal == old(journal)
      ensures outcome.WriteFailed? && outcome.allRestored ==> RestoredFrom(old(ifaces))
      ensures outcome.CleanupNotSaved? || outcome.Applied? ==> AppliedTo(targets, mac, old(origMACs), old(ifaces))
      ensures outcome.JournalNotSaved? || outcome.CleanupNotSaved? ==> faults.full
      ensures outcome.WriteFailed? ==> outcome.name in faults.unwritable
    {
      hide Machine.CrashSafe, Machine.Valid, Machine.AllWritten, DesiredMacs, Machine.AppliedTo, Machine.RestoredFrom, Machine.ReadAll;
      ghost var known, was := origMACs, ifaces;
      BeforeWriting(targets, mac, names, desired, before, missing, added);
      var ok := JournalOriginals(added, before);
      if !ok {
        return JournalNotSaved;
      }
      assert forall n :: n in names ==> n in origMACs;
      var failed, allRestored := WriteAll(names, desired, before, missing);
      if failed.Some? {
        return WriteFailed(failed.value, allRestored);
      }
      WrittenOthersAreOwn(targets, mac, known, names, desired, was);
      ok := Cleanup(targets);
      WrittenMeansApplied(targets, mac, known, names, desired, was);
      outcome := if ok then Applied else CleanupNotSaved;
    }

    /** Every address reads as it did before; copies that disagreed have been aligned at most. */
    ghost predicate RestoredFrom(was: map<Name, Iface>)
      reads this`ifaces
    {
      Restored(was, ifaces)
    }

    /** Every target exists, and has another address or a known original. */
    predicate AllReady(targets: seq<Name>, mac: Mac, known: map<Name, Mac>, was: map<Name, Iface>) {
      forall n :: n in targets ==> n in was && (n in known || was[n].native != mac)
    }

    /**
      applyMACConfig. `selected` is what the adapter selects, None when it fails.
      Whatever fails and wherever the machine stops, the journal on disk knows the
      own address of every interface that does not have it.
     */
    method Apply(cfg: Config, selected: Option<seq<Name>>, forced: bool) returns (outcome: Outcome)
      requires Valid() && CrashSafe()
      modifies this`origMACs, this`journal, this`ifaces, this`history
      ensures Valid() && CrashSafe() && ifaces.Keys == old(ifaces).Keys
      ensures old(history) <= history
      ensures !(outcome.WriteFailed? || outcome.CleanupNotSaved? || outcome.Applied?) ==>
                ifaces == old(ifaces) && origMACs == old(origMACs) && journal == old(journal)
      ensures outcome.WriteFailed? && outcome.allRestored ==> RestoredFrom(old(ifaces))
      ensures outcome.CleanupNotSaved? || outcome.Applied? ==>
                AppliedTo(if cfg.enabled && selected.Some? then selected.value else [], cfg.mac, old(origMACs), old(ifaces))
      ensures outcome == TargetsError <==> cfg.enabled && selected.None?
      ensures outcome == NoTargets <==> cfg.enabled && selected == Some([])
      ensures outcome.OriginalUnknown? ==>
                cfg.enabled && selected.Some? && outcome.name in selected.value
                && outcome.name !in origMACs && outcome.name in ifaces && ifaces[outcome.name].native == cfg.mac
      // Nothing is refused without a reason: a fault, or a target that is gone or already has the address.
      ensures outcome.ReadFailed? ==>
                outcome.name in faults.unreadable || (cfg.enabled && selected.Some? && outcome.name in selected.value && outcome.name !in ifaces)
      ensures outcome.JournalNotSaved? || outcome.CleanupNotSaved? ==> faults.full
      ensures outcome.WriteFailed? ==> outcome.name in faults.unwritable
      ensures faults == NO_FAULTS && (cfg.enabled ==> selected.Some? && selected.value != [] && AllReady(selected.value, cfg.mac, old(origMACs), old(ifaces)))
              ==> outcome == Applied
    {
      hide Machine.Valid, Machine.CrashSafe, Machine.AppliedTo, Machine.RestoredFrom;
      var targets: seq<Name> := [];
      if cfg.enabled {
        if selected.None? {
          return TargetsError;
        }
        targets := selected.value;
        if |targets| == 0 {
          return NoTargets;
        }
      }
      var desired := Desired(targets, cfg.mac);
      var names := Names(desired.Keys);
      var unreadable, before, missing := ReadBefore(names, targets, forced);
      if unreadable.Some? {
        return ReadFailed(unreadable.value);
      }
      var clash, added := Unknown(targets, cfg.mac, before);
      if clash.Some? {
        return OriginalUnknown(clash.value);
      }
      outcome := Execute(targets, cfg.mac, names, desired, before, missing, added);
    }

    /** The environment decides what may fail next. */
    method Change(faults: Faults)
      requires Valid() && CrashSafe()
      modifies this`faults
      ensures Valid() && CrashSafe() && this.faults == faults
    {
      this.faults := faults;
    }

    method Happen(event: Event)
      requires Valid() && CrashSafe()
      requires event.Plugged? ==> event.iface == Iface(own(event.name), own(event.name))
      modifies this`origMACs, this`journal, this`ifaces, this`history
      ensures Valid() && CrashSafe() && old(history) <= history
    {
      hide Machine.AppliedTo, Machine.RestoredFrom, Machine.CrashSafe;
      match event {
        case Applying(cfg, selected, forced) =>
          var _ := Apply(cfg, selected, forced);
        case Saving =>
          var _ := SaveState();
        case Restarting =>
          Restart();
        case Unplugged(name) =>
          Vanish(name);
        case Plugged(name, iface) =>
          if name !in ifaces {
            Appear(name, iface);
          }
      }
    }

    /**
      Any run of the router, from any safe state: through every apply, save,
      restart and hot-plug, each to its end or cut short by a crash at any moment
      within it, the journal on disk always knows the own address of each interface
      that does not have it.
     */
    method Live(steps: seq<Step>)
      requires Valid() && CrashSafe()
      requires forall i :: 0 <= i < |steps| ==>
                 (steps[i].event.Plugged? ==> steps[i].event.iface == Iface(own(steps[i].event.name), own(steps[i].event.name)))
      modifies this`origMACs, this`journal, this`ifaces, this`history, this`faults
      ensures Valid() && CrashSafe() && old(history) <= history
    {
      hide Machine.Valid, Machine.CrashSafe;
      for i := 0 to |steps|
        invariant Valid() && CrashSafe() && old(history) <= history
      {
        ghost var passed := history;
        var start := |history|;
        Change(steps[i].faults);
        Happen(steps[i].event);
        PrefixesChain(old(history), passed, history);
        if steps[i].CutShort? && start + steps[i].at < |history| {
          Crash(start + steps[i].at);
        }
      }
    }
  }
}
