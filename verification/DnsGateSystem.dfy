/**
  Every interleaving of the goroutines that use the DNS policy gate.

  A thread is a goroutine running one of: an apply (begin ... finish), or a DNS
  learner (acquire, confirmRoutingDNSLearning around awgIPSetLearnWith, release).
  The kernel's ipsets are a set of keys. Anyone may add to them; they may lose
  entries only while some apply is in its exclusive section.
 */
module DnsGateSystem {
  import opened Wrappers
  import opened DnsGate

  /** What a learner has fixed: the generation it was admitted under, the epoch read by confirm, the requests. */
  datatype Job = Job(gen: nat, epoch: nat, requests: seq<Key>)

  datatype Pc =
    | Idle
    | BeginBlocked(ch: nat, revise: bool)
    | Draining(ch: nat)
    | Exclusive
    | AcquireBlocked(ch: nat, expected: nat, checkVersion: bool)
    | Holding(gen: nat)
    | EpochRead(job: Job)
    | WantToken(job: Job)
    | HasToken(job: Job)
    | Writing(job: Job, planEpoch: nat, pending: seq<Key>, added: set<Key>)
    | Written(job: Job, planEpoch: nat, pending: seq<Key>)
    | Installed(job: Job)
    | Observing(job: Job)
    | Confirmed(job: Job)
  {
    predicate Inside() { Draining? || Exclusive? }
    predicate HoldsToken() { HasToken? || Writing? || Written? }
    predicate Learning() {
      EpochRead? || WantToken? || HasToken? || Writing? || Written? || Installed? || Observing? || Confirmed?
    }
    predicate Reads() { Holding? || Learning() }
    function Generation(): nat
      requires Reads()
    {
      if Holding? then gen else job.gen
    }
  }

  datatype World = World(gate: Gate, threads: seq<Pc>, token: Option<nat>, kernel: set<Key>)

  // ---------- what one goroutine can do ----------

  datatype ApplyAction =
    | Begin(revise: bool)
    | RetryBegin
    | RetryDrain
    | EndApply(err: bool)
    | RebuildKernel(entries: set<Key>)

  datatype ReadAction =
    | Acquire(cancelled: bool, expected: nat, checkVersion: bool)
    | RetryAcquire(cancelled: bool)
    | GiveUpAcquire
    | LeaveGate

  datatype LearnAction =
    | StartLearning(requests: seq<Key>)
    | FirstVerify(cancelled: bool)
    | TakeToken
    | GiveUpToken
    | Plan(cancelled: bool, now: int)
    | KernelAdd(key: Key)
    | RestoreFails
    | RestoreSucceeds
    | Commit(expires: int)
    | SecondVerify(cancelled: bool)
    | LastVerify(cancelled: bool)

  datatype Action = Apply(apply: ApplyAction) | Read(read: ReadAction) | Learn(learn: LearnAction)

  /** What a goroutine sees and changes: the shared state and its own place in the code. */
  datatype Local = Local(gate: Gate, token: Option<nat>, kernel: set<Key>, pc: Pc)

  predicate CanApply(l: Local, a: ApplyAction) {
    match a
    case Begin(_) => l.pc.Idle?
    case RetryBegin => l.pc.BeginBlocked? && l.pc.ch in l.gate.closed
    case RetryDrain => l.pc.Draining? && l.pc.ch in l.gate.closed
    case EndApply(_) => l.pc.Exclusive?
    case RebuildKernel(_) => l.pc.Exclusive?
  }

  predicate CanRead(l: Local, a: ReadAction) {
    match a
    case Acquire(_, _, _) => l.pc.Idle?
    case RetryAcquire(_) => l.pc.AcquireBlocked? && l.pc.ch in l.gate.closed
    case GiveUpAcquire => l.pc.AcquireBlocked?
    case LeaveGate => l.pc.Holding? || l.pc.Confirmed?
  }

  predicate CanLearn(l: Local, a: LearnAction) {
    match a
    case StartLearning(_) => l.pc.Holding?
    case FirstVerify(_) => l.pc.EpochRead?
    case TakeToken => l.pc.WantToken? && l.token.None?
    case GiveUpToken => l.pc.WantToken?
    case Plan(_, _) => l.pc.HasToken?
    case KernelAdd(key) => l.pc.Writing? && key in l.pc.pending
    case RestoreFails => l.pc.Writing?
    case RestoreSucceeds => l.pc.Writing? && forall k :: k in l.pc.pending ==> k in l.pc.added
    case Commit(_) => l.pc.Written?
    case SecondVerify(_) => l.pc.Installed?
    case LastVerify(_) => l.pc.Observing?
  }

  predicate Can(l: Local, a: Action) {
    match a
    case Apply(x) => CanApply(l, x)
    case Read(x) => CanRead(l, x)
    case Learn(x) => CanLearn(l, x)
  }

  function PcAfterBegin(step: BeginStep, revise: bool): Pc {
    match step
    case BlockedOnApply(ch) => BeginBlocked(ch, revise)
    case BlockedOnReaders(ch) => Draining(ch)
    case Entered => Exclusive
  }

  function DoApply(l: Local, a: ApplyAction): Local
    requires CanApply(l, a)
  {
    match a
    case Begin(revise) =>
      var (g, step) := TryBegin(l.gate, revise); l.(gate := g, pc := PcAfterBegin(step, revise))
    case RetryBegin =>
      var (g, step) := TryBegin(l.gate, l.pc.revise); l.(gate := g, pc := PcAfterBegin(step, l.pc.revise))
    case RetryDrain =>
      var (g, step) := Drain(l.gate); l.(gate := g, pc := PcAfterBegin(step, false))
    case EndApply(err) => l.(gate := Finish(l.gate, err), pc := Idle)
    case RebuildKernel(entries) => l.(kernel := entries)
  }

  function PcAfterAcquire(g: Gate, step: AcquireStep, expected: nat, checkVersion: bool): Pc {
    match step
    case BlockedOnPolicy(ch) => AcquireBlocked(ch, expected, checkVersion)
    case Admitted => Holding(g.generation)
    case Cancelled => Idle
    case PolicyChanged => Idle
    case NotReady => Idle
  }

  function DoRead(l: Local, a: ReadAction): Local
    requires CanRead(l, a)
  {
    match a
    case Acquire(cancelled, expected, check) =>
      var (g, step) := TryAcquire(l.gate, cancelled, expected, check);
      l.(gate := g, pc := PcAfterAcquire(g, step, expected, check))
    case RetryAcquire(cancelled) =>
      var (g, step) := TryAcquire(l.gate, cancelled, l.pc.expected, l.pc.checkVersion);
      l.(gate := g, pc := PcAfterAcquire(g, step, l.pc.expected, l.pc.checkVersion))
    case GiveUpAcquire => l.(pc := Idle)
    case LeaveGate => l.(gate := Release(l.gate), pc := Idle)
  }

  /** A learner that reports an error falls back to merely holding the gate. */
  function PcAfterVerify(g: Gate, cancelled: bool, job: Job, next: Pc): Pc {
    if !cancelled && VerifyEpoch(g, job.gen, job.epoch) == Current then next else Holding(job.gen)
  }

  function DoLearn(l: Local, t: nat, a: LearnAction): Local
    requires CanLearn(l, a)
  {
    match a
    case StartLearning(requests) => l.(pc := EpochRead(Job(l.pc.gen, l.gate.writeEpoch, requests)))
    case FirstVerify(cancelled) =>
      // With nothing to install the restore script is empty and learning returns at once.
      var next := if l.pc.job.requests == [] then Installed(l.pc.job) else WantToken(l.pc.job);
      l.(pc := PcAfterVerify(l.gate, cancelled, l.pc.job, next))
    case TakeToken => l.(token := Some(t), pc := HasToken(l.pc.job))
    case GiveUpToken => l.(pc := Holding(l.pc.job.gen))
    case Plan(cancelled, now) =>
      var job := l.pc.job;
      var step := PlanLearning(l.gate, job.requests, now);
      if cancelled || step.PlanRejected? then l.(token := None, pc := Holding(job.gen))
      else if step.pending == [] then l.(token := None, pc := Installed(job))
      else l.(pc := Writing(job, step.epoch, step.pending, {}))
    case KernelAdd(key) => l.(kernel := l.kernel + {key}, pc := l.pc.(added := l.pc.added + {key}))
    case RestoreFails => l.(token := None, pc := Holding(l.pc.job.gen))
    case RestoreSucceeds => l.(pc := Written(l.pc.job, l.pc.planEpoch, l.pc.pending))
    case Commit(expires) =>
      l.(gate := CommitLearning(l.gate, l.pc.planEpoch, l.pc.pending, expires), token := None, pc := Installed(l.pc.job))
    case SecondVerify(cancelled) =>
      l.(pc := PcAfterVerify(l.gate, cancelled, l.pc.job, Observing(l.pc.job)))
    case LastVerify(cancelled) =>
      l.(pc := PcAfterVerify(l.gate, cancelled, l.pc.job, Confirmed(l.pc.job)))
  }

  function Do(l: Local, t: nat, a: Action): Local
    requires Can(l, a)
  {
    match a
    case Apply(x) => DoApply(l, x)
    case Read(x) => DoRead(l, x)
    case Learn(x) => DoLearn(l, t, x)
  }

  // ---------- interleaving ----------

  datatype Move = Thread(t: nat, action: Action) | OtherKernelAdd(key: Key)

  function At(w: World, t: nat): Local
    requires t < |w.threads|
  {
    Local(w.gate, w.token, w.kernel, w.threads[t])
  }

  predicate Enabled(w: World, m: Move) {
    m.Thread? ==> m.t < |w.threads| && Can(At(w, m.t), m.action)
  }

  function Step(w: World, m: Move): World
    requires Enabled(w, m)
  {
    match m
    case Thread(t, a) =>
      var l := Do(At(w, t), t, a); World(l.gate, w.threads[t := l.pc], l.token, l.kernel)
    case OtherKernelAdd(key) => w.(kernel := w.kernel + {key})
  }

  ghost predicate Init(w: World) {
    && w.gate == NEW_GATE
    && w.token == None
    && forall t :: 0 <= t < |w.threads| ==> w.threads[t] == Idle
  }

  /** A run: consecutive states related by enabled moves. */
  ghost predicate Run(states: seq<World>, moves: seq<Move>) {
    && |states| == |moves| + 1
    && Init(states[0])
    && forall i :: 0 <= i < |moves| ==> Enabled(states[i], moves[i]) && states[i + 1] == Step(states[i], moves[i])
  }

  // ---------- the invariant ----------

  function Readers(threads: seq<Pc>): set<nat> {
    set t: nat | t < |threads| && threads[t].Reads()
  }

  predicate ChannelsOk(g: Gate) {
    && (g.changed.Some? ==> g.changed.value < g.made && g.changed.value !in g.closed)
    && (forall c :: c in g.closed ==> c < g.made)
  }

  /** A blocked goroutine holds the current channel or a closed one. */
  predicate WaiterOk(g: Gate, ch: nat) {
    ch < g.made && (ch in g.closed || g.changed == Some(ch))
  }

  predicate ReaderOk(g: Gate, gen: nat) {
    && gen <= g.generation <= gen + 1
    && (g.generation != gen ==> g.applying)
  }

  predicate PlanOk(g: Gate, kernel: set<Key>, job: Job, planEpoch: nat, pending: seq<Key>) {
    && planEpoch <= g.writeEpoch
    && (planEpoch == g.writeEpoch ==> !g.applying)
    && (forall k :: k in job.requests ==> k in pending || k in kernel)
  }

  predicate Covered(keys: seq<Key>, kernel: set<Key>) {
    forall k :: k in keys ==> k in kernel
  }

  predicate ThreadOk(g: Gate, kernel: set<Key>, pc: Pc) {
    && (pc.Reads() ==> ReaderOk(g, pc.Generation()))
    && match pc
       case BeginBlocked(ch, _) => WaiterOk(g, ch) && (ch !in g.closed ==> g.applying)
       case Draining(ch) => WaiterOk(g, ch) && g.applying && (ch !in g.closed ==> g.readers > 0)
       case Exclusive => g.applying && g.readers == 0
       case AcquireBlocked(ch, expected, check) =>
         WaiterOk(g, ch) && (ch !in g.closed ==> g.applying && (check ==> expected == g.generation))
       case Writing(job, planEpoch, pending, added) => PlanOk(g, kernel, job, planEpoch, pending) && added <= kernel
       case Written(job, planEpoch, pending) => PlanOk(g, kernel, job, planEpoch, pending) && Covered(pending, kernel)
       case Installed(job) => Covered(job.requests, kernel)
       case Observing(job) => Covered(job.requests, kernel)
       case Confirmed(job) => Covered(job.requests, kernel)
       case _ => true
  }

  predicate InsideOk(w: World) {
    && (forall t, u :: 0 <= t < |w.threads| && 0 <= u < |w.threads| && w.threads[t].Inside() && w.threads[u].Inside() ==> t == u)
    && (w.gate.applying ==> exists t :: 0 <= t < |w.threads| && w.threads[t].Inside())
  }

  predicate TokenOk(w: World) {
    && (forall t :: 0 <= t < |w.threads| && w.threads[t].HoldsToken() ==> w.token == Some(t))
    && (w.token.Some? ==> w.token.value < |w.threads| && w.threads[w.token.value].HoldsToken())
  }

  predicate MemoOk(g: Gate, kernel: set<Key>) {
    && g.learned.Keys <= kernel
    && |g.learned| <= MEMO_LIMIT
    && (g.applying ==> g.learned == map[])
  }

  ghost predicate Inv(w: World) {
    && ChannelsOk(w.gate)
    && MemoOk(w.gate, w.kernel)
    && w.gate.readers == |Readers(w.threads)|
    && (forall t :: 0 <= t < |w.threads| ==> ThreadOk(w.gate, w.kernel, w.threads[t]))
    && InsideOk(w)
    && TokenOk(w)
  }

  // ---------- what one goroutine's step guarantees the others ----------

  predicate WaitersKept(g: Gate, g': Gate) {
    && g.closed <= g'.closed
    && g.made <= g'.made
    && (g'.changed == g.changed || (g.changed.Some? ==> g.changed.value in g'.closed))
    && (g.changed.Some? && g.changed.value !in g'.closed ==>
          g'.applying == g.applying && g'.generation == g.generation && g'.readers >= g.readers)
  }

  predicate ReadersKept(g: Gate, g': Gate, kernel: set<Key>, kernel': set<Key>) {
    && (g.applying ==>
          && g'.applying
          && g'.generation == g.generation
          && g'.writeEpoch == g.writeEpoch
          && (g.readers == 0 ==> g'.readers == 0))
    && (!g.applying && !g'.applying ==> g'.generation == g.generation && g'.writeEpoch == g.writeEpoch)
    && (!g.applying && g'.applying ==> g.generation <= g'.generation <= g.generation + 1 && g'.writeEpoch > g.writeEpoch)
    && kernel <= kernel'
  }

  predicate LocalOk(l: Local) {
    && ChannelsOk(l.gate)
    && MemoOk(l.gate, l.kernel)
    && ThreadOk(l.gate, l.kernel, l.pc)
    && (l.pc.Reads() ==> l.gate.readers > 0)
    && l.gate.readers >= 0
  }

  /** One goroutine's step, seen by the rest; only the exclusive writer may disturb readers, and then there are none. */
  predicate Guarantee(l: Local, l': Local, t: nat) {
    && ChannelsOk(l'.gate)
    && MemoOk(l'.gate, l'.kernel)
    && ThreadOk(l'.gate, l'.kernel, l'.pc)
    && WaitersKept(l.gate, l'.gate)
    && (l.pc.Exclusive? || ReadersKept(l.gate, l'.gate, l.kernel, l'.kernel))
    && l'.gate.readers == l.gate.readers + (if l'.pc.Reads() then 1 else 0) - (if l.pc.Reads() then 1 else 0)
    && (l'.pc.Inside() && !l.pc.Inside() ==> !l.gate.applying)
    && (l'.gate.applying ==> l'.pc.Inside() || (l.gate.applying && !l.pc.Inside()))
    && (if l'.pc.HoldsToken() == l.pc.HoldsToken() then l'.token == l.token
        else if l'.pc.HoldsToken() then l.token == None && l'.token == Some(t)
        else l'.token == None)
  }

  lemma TryBeginGuarantees(l: Local, t: nat, revise: bool)
    requires LocalOk(l) && (l.pc.Idle? || l.pc.BeginBlocked?)
    ensures var (g, step) := TryBegin(l.gate, revise);
            Guarantee(l, l.(gate := g, pc := PcAfterBegin(step, revise)), t)
  {
    if !l.gate.applying {
      assert Shut(l.gate, revise).changed == None;
    }
  }

  lemma ApplyGuarantees(l: Local, t: nat, a: ApplyAction)
    requires LocalOk(l) && CanApply(l, a)
    ensures Guarantee(l, DoApply(l, a), t)
  {
    match a
    case Begin(revise) => TryBeginGuarantees(l, t, revise);
    case RetryBegin => TryBeginGuarantees(l, t, l.pc.revise);
    case RetryDrain =>
    case EndApply(_) =>
    case RebuildKernel(_) =>
  }

  lemma TryAcquireGuarantees(l: Local, t: nat, cancelled: bool, expected: nat, check: bool)
    requires LocalOk(l) && (l.pc.Idle? || l.pc.AcquireBlocked?)
    ensures var (g, step) := TryAcquire(l.gate, cancelled, expected, check);
            Guarantee(l, l.(gate := g, pc := PcAfterAcquire(g, step, expected, check)), t)
  {
  }

  lemma ReadGuarantees(l: Local, t: nat, a: ReadAction)
    requires LocalOk(l) && CanRead(l, a)
    ensures Guarantee(l, DoRead(l, a), t)
  {
    match a
    case Acquire(cancelled, expected, check) => TryAcquireGuarantees(l, t, cancelled, expected, check);
    case RetryAcquire(cancelled) => TryAcquireGuarantees(l, t, cancelled, l.pc.expected, l.pc.checkVersion);
    case GiveUpAcquire =>
    case LeaveGate =>
  }

  lemma PlanGuarantees(l: Local, t: nat, cancelled: bool, now: int)
    requires LocalOk(l) && l.pc.HasToken?
    ensures Guarantee(l, DoLearn(l, t, Plan(cancelled, now)), t)
  {
    MissesAreTheUnknown(l.gate.learned, l.pc.job.requests, now);
  }

  lemma CommitGuarantees(l: Local, t: nat, expires: int)
    requires LocalOk(l) && l.pc.Written?
    ensures Guarantee(l, DoLearn(l, t, Commit(expires)), t)
  {
    var base := if |l.gate.learned| + |l.pc.pending| > MEMO_LIMIT then map[] else l.gate.learned;
    RememberAdds(base, l.pc.pending, expires);
  }

  lemma VerifyGuarantees(l: Local, t: nat, cancelled: bool, next: Pc)
    requires LocalOk(l) && (l.pc.EpochRead? || l.pc.Installed? || l.pc.Observing?)
    requires next.Learning() && next.job == l.pc.job && !next.HoldsToken() && ThreadOk(l.gate, l.kernel, next)
    ensures Guarantee(l, l.(pc := PcAfterVerify(l.gate, cancelled, l.pc.job, next)), t)
  {
  }

  lemma LearnGuarantees(l: Local, t: nat, a: LearnAction)
    requires LocalOk(l) && CanLearn(l, a)
    ensures Guarantee(l, DoLearn(l, t, a), t)
  {
    match a
    case StartLearning(_) =>
    case FirstVerify(cancelled) =>
      VerifyGuarantees(l, t, cancelled, if l.pc.job.requests == [] then Installed(l.pc.job) else WantToken(l.pc.job));
    case TakeToken =>
    case GiveUpToken =>
    case Plan(cancelled, now) => PlanGuarantees(l, t, cancelled, now);
    case KernelAdd(_) =>
    case RestoreFails =>
    case RestoreSucceeds =>
    case Commit(expires) => CommitGuarantees(l, t, expires);
    case SecondVerify(cancelled) => VerifyGuarantees(l, t, cancelled, Observing(l.pc.job));
    case LastVerify(cancelled) => VerifyGuarantees(l, t, cancelled, Confirmed(l.pc.job));
  }

  /** A goroutine's own condition survives any step that keeps the waiters and the readers. */
  lemma OthersUndisturbed(g: Gate, kernel: set<Key>, g': Gate, kernel': set<Key>, pc: Pc)
    requires ChannelsOk(g) && ThreadOk(g, kernel, pc) && WaitersKept(g, g')
    requires ReadersKept(g, g', kernel, kernel') || (!pc.Reads() && !pc.Inside())
    ensures ThreadOk(g', kernel', pc)
  {
  }

  // ---------- every reachable state satisfies the invariant ----------

  lemma CountOneThread(threads: seq<Pc>, t: nat, pc: Pc)
    requires t < |threads|
    ensures |Readers(threads[t := pc])| ==
            |Readers(threads)| + (if pc.Reads() then 1 else 0) - (if threads[t].Reads() then 1 else 0)
  {
    var others := Readers(threads) - {t};
    assert Readers(threads) == others + (if threads[t].Reads() then {t} else {});
    assert Readers(threads[t := pc]) == others + (if pc.Reads() then {t} else {});
  }

  lemma ReaderIsCounted(w: World, t: nat)
    requires Inv(w) && t < |w.threads| && w.threads[t].Reads()
    ensures w.gate.readers > 0
  {
    assert t in Readers(w.threads);
  }

  lemma ThreadStepKeepsInv(w: World, t: nat, a: Action)
    requires Inv(w) && Enabled(w, Thread(t, a))
    ensures Inv(Step(w, Thread(t, a)))
  {
    var l, w' := At(w, t), Step(w, Thread(t, a));
    var l' := Do(l, t, a);
    if l.pc.Reads() {
      ReaderIsCounted(w, t);
    }
    assert LocalOk(l);
    match a {
      case Apply(x) => ApplyGuarantees(l, t, x);
      case Read(x) => ReadGuarantees(l, t, x);
      case Learn(x) => LearnGuarantees(l, t, x);
    }
    GuaranteeKeepsInv(w, t, l', w');
  }

  lemma GuaranteeKeepsInv(w: World, t: nat, l': Local, w': World)
    requires Inv(w) && t < |w.threads| && Guarantee(At(w, t), l', t)
    requires w' == World(l'.gate, w.threads[t := l'.pc], l'.token, l'.kernel)
    ensures Inv(w')
  {
    CountOneThread(w.threads, t, l'.pc);
    forall u | 0 <= u < |w'.threads|
      ensures ThreadOk(w'.gate, w'.kernel, w'.threads[u])
    {
      if u != t {
        if w.threads[t].Exclusive? && w.threads[u].Reads() {
          ReaderIsCounted(w, u);
        }
        OthersUndisturbed(w.gate, w.kernel, w'.gate, w'.kernel, w.threads[u]);
      }
    }
    InsideKept(w, t, l', w');
    assert TokenOk(w');
  }

  lemma InsideKept(w: World, t: nat, l': Local, w': World)
    requires Inv(w) && t < |w.threads| && Guarantee(At(w, t), l', t)
    requires w' == World(l'.gate, w.threads[t := l'.pc], l'.token, l'.kernel)
    ensures InsideOk(w')
  {
    forall u | 0 <= u < |w.threads| && w.threads[u].Inside()
      ensures w.gate.applying
    {
      assert ThreadOk(w.gate, w.kernel, w.threads[u]);
    }
    if w'.gate.applying {
      if l'.pc.Inside() {
        assert w'.threads[t].Inside();
      } else {
        var u :| 0 <= u < |w.threads| && w.threads[u].Inside();
        assert w'.threads[u].Inside();
      }
    }
  }

  lemma StepKeepsInv(w: World, m: Move)
    requires Inv(w) && Enabled(w, m)
    ensures Inv(Step(w, m))
  {
    match m
    case Thread(t, a) => ThreadStepKeepsInv(w, t, a);
    case OtherKernelAdd(key) =>
      var w' := Step(w, m);
      forall u | 0 <= u < |w.threads|
        ensures ThreadOk(w'.gate, w'.kernel, w'.threads[u])
      {
        OthersUndisturbed(w.gate, w.kernel, w'.gate, w'.kernel, w.threads[u]);
      }
  }

  lemma InitInv(w: World)
    requires Init(w)
    ensures Inv(w)
  {
    assert Readers(w.threads) == {};
  }

  lemma {:induction false} ReachableInv(states: seq<World>, moves: seq<Move>, i: nat)
    requires Run(states, moves) && i < |states|
    ensures Inv(states[i])
  {
    if i == 0 {
      InitInv(states[0]);
    } else {
      ReachableInv(states, moves, i - 1);
      StepKeepsInv(states[i - 1], moves[i - 1]);
    }
  }
}
