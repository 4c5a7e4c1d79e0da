/** What the DNS policy gate promises, over every run of every number of goroutines. */
module DnsGateProperties {
  import opened Wrappers
  import opened DnsGate
  import opened DnsGateSystem

  /** From the return of begin to its finish call: no reader, no new reader, no second writer. */
  lemma ExclusiveSectionIsExclusive(states: seq<World>, moves: seq<Move>, i: nat, t: nat)
    requires Run(states, moves) && i < |states| && t < |states[i].threads| && states[i].threads[t].Exclusive?
    ensures var w := states[i];
            && (forall u :: 0 <= u < |w.threads| && u != t ==> !w.threads[u].Reads() && !w.threads[u].Inside())
            && (forall cancelled, expected, check :: !TryAcquire(w.gate, cancelled, expected, check).1.Admitted?)
            && (forall revise :: TryBegin(w.gate, revise).1.BlockedOnApply?)
  {
    ReachableInv(states, moves, i);
    var w := states[i];
    assert ThreadOk(w.gate, w.kernel, w.threads[t]);
    forall u | 0 <= u < |w.threads| && w.threads[u].Reads()
      ensures false
    {
      ReaderIsCounted(w, u);
    }
  }

  lemma OneStepOfReading(w: World, m: Move, t: nat)
    requires Enabled(w, m) && t < |w.threads| && w.threads[t].Reads() && m != Thread(t, Read(LeaveGate))
    ensures var w' := Step(w, m);
            |w'.threads| == |w.threads| && w'.threads[t].Reads() && w'.threads[t].Generation() == w.threads[t].Generation()
  {
  }

  /** Only its own release ends a reader, and the generation it was admitted under never changes. */
  lemma {:induction false} ReaderStaysUntilItLeaves(states: seq<World>, moves: seq<Move>, i: nat, j: nat, t: nat)
    requires Run(states, moves) && i <= j < |states|
    requires t < |states[i].threads| && states[i].threads[t].Reads()
    requires forall k :: i <= k < j ==> moves[k] != Thread(t, Read(LeaveGate))
    ensures t < |states[j].threads| && states[j].threads[t].Reads()
    ensures states[j].threads[t].Generation() == states[i].threads[t].Generation()
  {
    if i < j {
      ReaderStaysUntilItLeaves(states, moves, i, j - 1, t);
      OneStepOfReading(states[j - 1], moves[j - 1], t);
    }
  }

  /** A reader admitted before an exclusive section has released the gate by the time the section runs. */
  lemma ReadersLeaveBeforeTheRebuild(states: seq<World>, moves: seq<Move>, i: nat, j: nat, reader: nat, writer: nat)
    requires Run(states, moves) && i <= j < |states|
    requires reader < |states[i].threads| && states[i].threads[reader].Reads()
    requires writer < |states[j].threads| && states[j].threads[writer].Exclusive?
    ensures exists k :: i <= k < j && moves[k] == Thread(reader, Read(LeaveGate))
  {
    if forall k :: i <= k < j ==> moves[k] != Thread(reader, Read(LeaveGate)) {
      ReaderStaysUntilItLeaves(states, moves, i, j, reader);
      ExclusiveSectionIsExclusive(states, moves, j, writer);
      assert false;
    }
  }

  /** A reader works under the current generation, or under the previous one while an apply is waiting for it. */
  lemma ReaderGenerationIsCurrent(states: seq<World>, moves: seq<Move>, i: nat, t: nat)
    requires Run(states, moves) && i < |states| && t < |states[i].threads| && states[i].threads[t].Reads()
    ensures var w := states[i]; var gen := w.threads[t].Generation();
            || gen == w.gate.generation
            || (gen + 1 == w.gate.generation && exists u :: 0 <= u < |w.threads| && w.threads[u].Draining?)
  {
    ReachableInv(states, moves, i);
    var w := states[i];
    assert ThreadOk(w.gate, w.kernel, w.threads[t]);
    if w.threads[t].Generation() != w.gate.generation {
      var u :| 0 <= u < |w.threads| && w.threads[u].Inside();
      ReaderIsCounted(w, t);
      assert ThreadOk(w.gate, w.kernel, w.threads[u]);
    }
  }

  predicate Blocked(pc: Pc) {
    pc.BeginBlocked? || pc.Draining? || pc.AcquireBlocked?
  }

  /** No lost wakeup: a goroutine whose channel is still open still has its reason to wait. */
  lemma NoLostWakeup(states: seq<World>, moves: seq<Move>, i: nat, t: nat)
    requires Run(states, moves) && i < |states| && t < |states[i].threads| && Blocked(states[i].threads[t])
    ensures var w := states[i]; var pc := w.threads[t];
            || pc.ch in w.gate.closed
            || (&& w.gate.changed == Some(pc.ch)
                && (pc.BeginBlocked? ==> w.gate.applying)
                && (pc.Draining? ==> w.gate.applying && exists u :: 0 <= u < |w.threads| && w.threads[u].Reads())
                && (pc.AcquireBlocked? ==> w.gate.applying && (pc.checkVersion ==> pc.expected == w.gate.generation)))
  {
    ReachableInv(states, moves, i);
    var w := states[i];
    assert ThreadOk(w.gate, w.kernel, w.threads[t]);
    if w.threads[t].Draining? && w.threads[t].ch !in w.gate.closed {
      SomeReader(w);
    }
  }

  lemma SomeReader(w: World)
    requires Inv(w) && w.gate.readers > 0
    ensures exists u :: 0 <= u < |w.threads| && w.threads[u].Reads()
  {
    assert Readers(w.threads) != {};
    var u :| u in Readers(w.threads);
  }

  /** Moves that carry a call already under way forward: no new call, no cancellation. */
  predicate Progress(a: Action) {
    match a
    case Apply(x) => !x.Begin?
    case Read(x) => !x.Acquire? && !x.GiveUpAcquire? && (x.RetryAcquire? ==> !x.cancelled)
    case Learn(x) => !x.StartLearning? && !x.GiveUpToken?
  }

  ghost predicate CanProgress(w: World, t: nat) {
    t < |w.threads| && exists a :: Can(At(w, t), a) && Progress(a)
  }

  lemma OwnProgress(w: World, t: nat)
    requires t < |w.threads| && !w.threads[t].Idle?
    requires Blocked(w.threads[t]) ==> w.threads[t].ch in w.gate.closed
    requires w.threads[t].WantToken? ==> w.token.None?
    ensures CanProgress(w, t)
  {
    var l := At(w, t);
    var a := match l.pc
      case BeginBlocked(_, _) => Apply(RetryBegin)
      case Draining(_) => Apply(RetryDrain)
      case Exclusive => Apply(EndApply(false))
      case AcquireBlocked(_, _, _) => Read(RetryAcquire(false))
      case Holding(_) => Read(LeaveGate)
      case EpochRead(_) => Learn(FirstVerify(false))
      case WantToken(_) => Learn(TakeToken)
      case HasToken(_) => Learn(Plan(false, 0))
      case Writing(_, _, _, _) => Learn(RestoreFails)
      case Written(_, _, _) => Learn(Commit(0))
      case Installed(_) => Learn(SecondVerify(false))
      case Observing(_) => Learn(LastVerify(false))
      case _ => Read(LeaveGate);
    assert Can(l, a) && Progress(a);
  }

  /** A reader can go on, or the holder of the learner token can. */
  lemma ReaderProgress(w: World, t: nat)
    requires Inv(w) && t < |w.threads| && w.threads[t].Reads()
    ensures exists u :: CanProgress(w, u)
  {
    if w.threads[t].WantToken? && w.token.Some? {
      OwnProgress(w, w.token.value);
    } else {
      OwnProgress(w, t);
    }
  }

  /** The writer inside can go on, or a reader it waits for can. */
  lemma WriterProgress(w: World)
    requires Inv(w) && w.gate.applying
    ensures exists u :: CanProgress(w, u)
  {
    var t :| 0 <= t < |w.threads| && w.threads[t].Inside();
    assert ThreadOk(w.gate, w.kernel, w.threads[t]);
    if w.threads[t].Draining? && w.threads[t].ch !in w.gate.closed {
      SomeReader(w);
      var u :| 0 <= u < |w.threads| && w.threads[u].Reads();
      ReaderProgress(w, u);
    } else {
      OwnProgress(w, t);
    }
  }

  /** No deadlock: while any call is under way, some call can go on without being cancelled. */
  lemma NoDeadlock(states: seq<World>, moves: seq<Move>, i: nat, t: nat)
    requires Run(states, moves) && i < |states| && t < |states[i].threads| && !states[i].threads[t].Idle?
    ensures exists u :: CanProgress(states[i], u)
  {
    ReachableInv(states, moves, i);
    var w := states[i];
    assert ThreadOk(w.gate, w.kernel, w.threads[t]);
    if w.gate.applying {
      WriterProgress(w);
    } else if w.threads[t].Reads() {
      ReaderProgress(w, t);
    } else {
      OwnProgress(w, t);
    }
  }

  /** Every remembered key is in the kernel, and the memo is bounded. */
  lemma MemoIsSound(states: seq<World>, moves: seq<Move>, i: nat)
    requires Run(states, moves) && i < |states|
    ensures states[i].gate.learned.Keys <= states[i].kernel
    ensures |states[i].gate.learned| <= MEMO_LIMIT
    ensures states[i].gate.applying ==> states[i].gate.learned == map[]
  {
    ReachableInv(states, moves, i);
  }

  predicate Succeeded(pc: Pc) {
    pc.Installed? || pc.Observing? || pc.Confirmed?
  }

  /** Once learning reported success, every requested address is installed for as long as the learner holds the gate. */
  lemma {:induction false} LearnedMeansInstalled(states: seq<World>, moves: seq<Move>, i: nat, j: nat, t: nat)
    requires Run(states, moves) && i <= j < |states|
    requires t < |states[i].threads| && Succeeded(states[i].threads[t])
    requires forall k :: i <= k < j ==> moves[k] != Thread(t, Read(LeaveGate))
    ensures forall k :: k in states[i].threads[t].job.requests ==> k in states[j].kernel
  {
    if i == j {
      ReachableInv(states, moves, i);
      assert ThreadOk(states[i].gate, states[i].kernel, states[i].threads[t]);
    } else {
      LearnedMeansInstalled(states, moves, i, j - 1, t);
      ReaderStaysUntilItLeaves(states, moves, i, j - 1, t);
      KernelKeptWhileReading(states, moves, j - 1, t);
    }
  }

  lemma KernelKeptWhileReading(states: seq<World>, moves: seq<Move>, i: nat, t: nat)
    requires Run(states, moves) && i < |moves| && t < |states[i].threads| && states[i].threads[t].Reads()
    ensures states[i].kernel <= states[i + 1].kernel
  {
    if moves[i].Thread? && moves[i].action.Apply? && moves[i].action.apply.RebuildKernel? {
      ExclusiveSectionIsExclusive(states, moves, i, moves[i].t);
    }
  }

  /** An answer is confirmed only under the very policy its learner was admitted for, with its addresses installed. */
  lemma ConfirmedUnderItsPolicy(states: seq<World>, moves: seq<Move>, i: nat, t: nat, cancelled: bool)
    requires Run(states, moves) && i < |moves| && moves[i] == Thread(t, Learn(LastVerify(cancelled)))
    requires states[i + 1].threads[t].Confirmed?
    ensures var w := states[i]; var job := w.threads[t].job;
            && !cancelled && !w.gate.applying && !w.gate.failed
            && job.gen == w.gate.generation && job.epoch == w.gate.writeEpoch
            && forall k :: k in job.requests ==> k in w.kernel && k in states[i + 1].kernel
  {
    ReachableInv(states, moves, i);
    assert ThreadOk(states[i].gate, states[i].kernel, states[i].threads[t]);
  }

  lemma FailureStays(w: World, m: Move)
    requires Enabled(w, m) && w.gate.failed && !(m.Thread? && m.action == Apply(EndApply(false)))
    ensures Step(w, m).gate.failed
  {
  }

  lemma {:induction false} FailureLasts(states: seq<World>, moves: seq<Move>, i: nat, j: nat)
    requires Run(states, moves) && i <= j < |states| && states[i].gate.failed
    requires forall k :: i <= k < j ==> !(moves[k].Thread? && moves[k].action == Apply(EndApply(false)))
    ensures states[j].gate.failed
  {
    if i < j {
      FailureLasts(states, moves, i, j - 1);
      FailureStays(states[j - 1], moves[j - 1]);
    }
  }

  /** A failed apply admits nobody until a later apply finishes without error. */
  lemma FailedApplyAdmitsNobody(states: seq<World>, moves: seq<Move>, i: nat, j: nat)
    requires Run(states, moves) && i <= j < |states| && states[i].gate.failed
    requires forall k :: i <= k < j ==> !(moves[k].Thread? && moves[k].action == Apply(EndApply(false)))
    ensures forall cancelled, expected, check :: !TryAcquire(states[j].gate, cancelled, expected, check).1.Admitted?
  {
    FailureLasts(states, moves, i, j);
  }

  // ---------- which version a reader holds, and what a version counts ----------

  /** What thread t asked for when it last called acquire, before move i. */
  function LastAcquire(moves: seq<Move>, t: nat, i: nat): Option<(nat, bool)>
    requires i <= |moves|
  {
    if i == 0 then None
    else
      match moves[i - 1]
      case Thread(u, Read(Acquire(_, expected, check))) => if u == t then Some((expected, check)) else LastAcquire(moves, t, i - 1)
      case _ => LastAcquire(moves, t, i - 1)
  }

  /** Whether thread t revises the policy, as it said when it last called begin, before move i. */
  function LastBegin(moves: seq<Move>, t: nat, i: nat): Option<bool>
    requires i <= |moves|
  {
    if i == 0 then None
    else
      match moves[i - 1]
      case Thread(u, Apply(Begin(revise))) => if u == t then Some(revise) else LastBegin(moves, t, i - 1)
      case _ => LastBegin(moves, t, i - 1)
  }

  /** Thread t remembers what it called acquire or begin with, and a checked reader has the generation it asked for. */
  predicate Remembers(pc: Pc, asked: Option<(nat, bool)>, revises: Option<bool>) {
    && (pc.AcquireBlocked? ==> asked == Some((pc.expected, pc.checkVersion)))
    && (pc.Reads() ==> asked.Some? && (asked.value.1 ==> pc.Generation() == asked.value.0))
    && (pc.BeginBlocked? ==> revises == Some(pc.revise))
  }

  lemma OneStepRemembers(w: World, m: Move, t: nat, asked: Option<(nat, bool)>, revises: Option<bool>)
    requires Enabled(w, m) && t < |w.threads| && Remembers(w.threads[t], asked, revises)
    ensures Remembers(Step(w, m).threads[t],
                      if m.Thread? && m.t == t && m.action.Read? && m.action.read.Acquire?
                      then Some((m.action.read.expected, m.action.read.checkVersion)) else asked,
                      if m.Thread? && m.t == t && m.action.Apply? && m.action.apply.Begin? then Some(m.action.apply.revise) else revises)
  {
    if m.Thread? && m.t == t && m.action.Read? {
      var a, pc := m.action.read, w.threads[t];
      if a.Acquire? {
        AcquireIsExact(w.gate, a.cancelled, a.expected, a.checkVersion);
      } else if a.RetryAcquire? {
        AcquireIsExact(w.gate, a.cancelled, pc.expected, pc.checkVersion);
      }
    }
  }

  lemma {:induction false} CallsAreRemembered(states: seq<World>, moves: seq<Move>, i: nat, t: nat)
    requires Run(states, moves) && i < |states| && t < |states[i].threads|
    ensures Remembers(states[i].threads[t], LastAcquire(moves, t, i), LastBegin(moves, t, i))
  {
    if i > 0 {
      CallsAreRemembered(states, moves, i - 1, t);
      OneStepRemembers(states[i - 1], moves[i - 1], t, LastAcquire(moves, t, i - 1), LastBegin(moves, t, i - 1));
    }
  }

  /** A reader that called acquire with a version to check holds exactly this version, however long it waited, until it leaves. */
  lemma CheckedReaderHoldsItsVersion(states: seq<World>, moves: seq<Move>, i: nat, t: nat, expected: nat)
    requires Run(states, moves) && i < |states| && t < |states[i].threads| && states[i].threads[t].Reads()
    requires LastAcquire(moves, t, i) == Some((expected, true))
    ensures states[i].threads[t].Generation() == expected
  {
    CallsAreRemembered(states, moves, i, t);
  }

  /** And when it is let in, this is the version in force, no apply is under way and the last one has not failed. */
  lemma AdmittedToTheCurrentPolicy(states: seq<World>, moves: seq<Move>, i: nat, t: nat)
    requires Run(states, moves) && i < |moves| && t < |states[i].threads|
    requires !states[i].threads[t].Reads() && states[i + 1].threads[t].Reads()
    ensures var w := states[i];
            && states[i + 1].threads[t].Generation() == w.gate.generation && !w.gate.applying && !w.gate.failed
            && states[i + 1].gate.readers == w.gate.readers + 1
            && LastAcquire(moves, t, i + 1).Some?
            && (LastAcquire(moves, t, i + 1).value.1 ==> LastAcquire(moves, t, i + 1).value.0 == w.gate.generation)
  {
    CallsAreRemembered(states, moves, i + 1, t);
    var a, pc := moves[i].action.read, states[i].threads[t];
    if a.Acquire? {
      AcquireIsExact(states[i].gate, a.cancelled, a.expected, a.checkVersion);
    } else {
      AcquireIsExact(states[i].gate, a.cancelled, pc.expected, pc.checkVersion);
    }
  }

  /** Move i starts an apply: its thread is inside from here on. */
  predicate Starts(states: seq<World>, moves: seq<Move>, i: nat)
    requires i < |moves| && |states| == |moves| + 1
  {
    && moves[i].Thread? && moves[i].t < |states[i].threads| && moves[i].t < |states[i + 1].threads|
    && !states[i].threads[moves[i].t].Inside() && states[i + 1].threads[moves[i].t].Inside()
  }

  /** How many applies have started before move i. */
  function Applies(states: seq<World>, moves: seq<Move>, i: nat): nat
    requires i <= |moves| && |states| == |moves| + 1
  {
    if i == 0 then 0 else Applies(states, moves, i - 1) + (if Starts(states, moves, i - 1) then 1 else 0)
  }

  /** How many of them revised the policy. */
  function Revisions(states: seq<World>, moves: seq<Move>, i: nat): nat
    requires i <= |moves| && |states| == |moves| + 1
  {
    if i == 0 then 0
    else Revisions(states, moves, i - 1) +
         (if Starts(states, moves, i - 1) && LastBegin(moves, moves[i - 1].t, i) == Some(true) then 1 else 0)
  }

  /** One move: a starting apply takes the next epoch, and the next generation exactly when it revises; nothing else does. */
  lemma OneStepOfVersions(w: World, m: Move)
    requires Enabled(w, m)
    ensures var w' := Step(w, m);
            var starts := m.Thread? && !w.threads[m.t].Inside() && w'.threads[m.t].Inside();
            && (starts ==> m.action.Apply? && (m.action.apply.Begin? || m.action.apply.RetryBegin?))
            && w'.gate.writeEpoch == w.gate.writeEpoch + (if starts then 1 else 0)
            && (!starts ==> w'.gate.generation == w.gate.generation)
            && (starts ==>
                  var revise := if m.action.apply.Begin? then m.action.apply.revise else w.threads[m.t].revise;
                  w'.gate.generation == if revise then w.gate.generation + 1 else w.gate.generation)
  {
    if m.Thread? && m.action.Apply? && (m.action.apply.Begin? || m.action.apply.RetryBegin?) {
      BeginIsExact(w.gate, if m.action.apply.Begin? then m.action.apply.revise else w.threads[m.t].revise);
    }
  }

  /** The generation counts the policy revisions, and the epoch counts the applies, no more and no less. */
  lemma {:induction false} VersionsCountApplies(states: seq<World>, moves: seq<Move>, i: nat)
    requires Run(states, moves) && i < |states|
    ensures states[i].gate.generation == Revisions(states, moves, i)
    ensures states[i].gate.writeEpoch == Applies(states, moves, i)
  {
    hide LastAcquire;
    if i > 0 {
      var w, m := states[i - 1], moves[i - 1];
      VersionsCountApplies(states, moves, i - 1);
      OneStepOfVersions(w, m);
      if Starts(states, moves, i - 1) {
        CallsAreRemembered(states, moves, i - 1, m.t);
      }
    }
  }

  /** The move with which thread t last began learning, before move i. */
  function LastStart(moves: seq<Move>, t: nat, i: nat): (r: Option<nat>)
    requires i <= |moves|
    ensures r.Some? ==> r.value < i
  {
    if i == 0 then None
    else if moves[i - 1].Thread? && moves[i - 1].t == t && moves[i - 1].action.Learn? && moves[i - 1].action.learn.StartLearning? then Some(i - 1)
    else LastStart(moves, t, i - 1)
  }

  lemma OwnStepOfLearning(l: Local, t: nat, a: Action)
    requires Can(l, a) && Do(l, t, a).pc.Learning()
    ensures var starts := a.Learn? && a.learn.StartLearning?;
            && (starts ==> Do(l, t, a).pc.job.epoch == l.gate.writeEpoch)
            && (!starts ==> l.pc.Learning() && Do(l, t, a).pc.job.epoch == l.pc.job.epoch)
  {
    hide TryBegin, TryAcquire, Drain, Finish, Release, PlanLearning, CommitLearning, VerifyEpoch;
  }

  lemma OneStepOfLearning(w: World, m: Move, t: nat)
    requires Enabled(w, m) && t < |w.threads| && Step(w, m).threads[t].Learning()
    ensures var starts := m.Thread? && m.t == t && m.action.Learn? && m.action.learn.StartLearning?;
            && (starts ==> Step(w, m).threads[t].job.epoch == w.gate.writeEpoch)
            && (!starts ==> w.threads[t].Learning() && Step(w, m).threads[t].job.epoch == w.threads[t].job.epoch)
  {
    if m.Thread? && m.t == t {
      OwnStepOfLearning(At(w, t), t, m.action);
    }
    hide Do;
  }

  /** A learner works for the epoch in which it began. */
  lemma {:induction false} LearnerKeepsItsEpoch(states: seq<World>, moves: seq<Move>, i: nat, t: nat)
    requires Run(states, moves) && i < |states| && t < |states[i].threads| && states[i].threads[t].Learning()
    ensures var k := LastStart(moves, t, i);
            k.Some? && states[i].threads[t].job.epoch == states[k.value].gate.writeEpoch
  {
    if i > 0 {
      OneStepOfLearning(states[i - 1], moves[i - 1], t);
      if LastStart(moves, t, i) != Some(i - 1) {
        LearnerKeepsItsEpoch(states, moves, i - 1, t);
      }
    }
  }

  lemma {:induction false} AppliesOnlyGrow(states: seq<World>, moves: seq<Move>, i: nat, k: nat, j: nat)
    requires |states| == |moves| + 1 && i <= k < j <= |moves| && Starts(states, moves, k)
    ensures Applies(states, moves, i) < Applies(states, moves, j)
    decreases j
  {
    if k < j - 1 {
      AppliesOnlyGrow(states, moves, i, k, j - 1);
    } else {
      AppliesDoNotShrink(states, moves, i, k);
    }
  }

  lemma {:induction false} AppliesDoNotShrink(states: seq<World>, moves: seq<Move>, i: nat, j: nat)
    requires |states| == |moves| + 1 && i <= j <= |moves|
    ensures Applies(states, moves, i) <= Applies(states, moves, j)
    decreases j
  {
    if i < j {
      AppliesDoNotShrink(states, moves, i, j - 1);
    }
  }

  lemma ConfirmationChecksTheEpoch(w: World, m: Move, t: nat)
    requires Enabled(w, m) && t < |w.threads| && !w.threads[t].Confirmed? && Step(w, m).threads[t].Confirmed?
    ensures w.threads[t].Learning() && w.threads[t].job.epoch == w.gate.writeEpoch
  {
    hide TryBegin, TryAcquire, Drain, Finish, Release, PlanLearning, CommitLearning;
  }

  /** Between the start of learning and the confirmation of the answer no apply has started. */
  lemma ConfirmedWithoutApply(states: seq<World>, moves: seq<Move>, i: nat, k: nat, t: nat)
    requires Run(states, moves) && i < |moves| && t < |states[i].threads|
    requires !states[i].threads[t].Confirmed? && states[i + 1].threads[t].Confirmed?
    requires LastStart(moves, t, i).Some? && LastStart(moves, t, i).value <= k <= i
    ensures !Starts(states, moves, k)
  {
    ConfirmationChecksTheEpoch(states[i], moves[i], t);
    hide Step, Init, Applies, LastStart;
    var started := LastStart(moves, t, i).value;
    LearnerKeepsItsEpoch(states, moves, i, t);
    VersionsCountApplies(states, moves, started);
    VersionsCountApplies(states, moves, i);
    if Starts(states, moves, k) && k < i {
      AppliesOnlyGrow(states, moves, started, k, i);
    }
  }
}
