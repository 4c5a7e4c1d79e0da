/**
  The DNS policy gate (dns_policy_gate.go) together with the memo of learned
  addresses it guards (dns_learn_linux.go).

  Every stretch of code between one `mu.Lock` and the next `mu.Unlock` is one
  atomic function on `Gate`. A channel is named by the number of channels made
  before it, so `make(chan struct{})` takes the next number and `close` moves a
  number into `closed`; a goroutine blocked on channel c can go on when c is in
  `closed`.
 */
module DnsGate {
  import opened Wrappers

  /** One ipset entry: the set's name and the canonical address. */
  type Key = string

  const MEMO_LIMIT: nat := 4096

  datatype Gate = Gate(
    changed: Option<nat>,
    made: nat,
    closed: set<nat>,
    generation: nat,
    applying: bool,
    readers: int,
    failed: bool,
    writeEpoch: nat,
    learned: map<Key, int>)

  const NEW_GATE := Gate(None, 0, {}, 0, false, 0, false, 0, map[])

  // ---------- atomic sections ----------

  /** signalLocked. */
  function Signal(g: Gate): Gate {
    if g.changed.Some? then g.(closed := g.closed + {g.changed.value}, changed := None) else g
  }

  /** The channel a goroutine is about to block on, made when there is none. */
  function Subscribe(g: Gate): (r: (Gate, nat)) {
    if g.changed.Some? then (g, g.changed.value) else (g.(changed := Some(g.made), made := g.made + 1), g.made)
  }

  datatype BeginStep = BlockedOnApply(ch: nat) | BlockedOnReaders(ch: nat) | Entered

  /** begin, once the previous apply is over: shut the gate and forget the memo. */
  function Shut(g: Gate, revise: bool): Gate {
    Signal(g.(applying := true,
              writeEpoch := g.writeEpoch + 1,
              learned := map[],
              generation := if revise then g.generation + 1 else g.generation))
  }

  /** The second loop of begin: the exclusive section starts once the readers are gone. */
  function Drain(g: Gate): (Gate, BeginStep) {
    if g.readers > 0 then var (h, ch) := Subscribe(g); (h, BlockedOnReaders(ch)) else (g, Entered)
  }

  function TryBegin(g: Gate, revise: bool): (Gate, BeginStep) {
    if g.applying then var (h, ch) := Subscribe(g); (h, BlockedOnApply(ch)) else Drain(Shut(g, revise))
  }

  /** The function begin returns. */
  function Finish(g: Gate, failed: bool): Gate {
    Signal(g.(failed := failed, applying := false))
  }

  datatype AcquireStep = Cancelled | PolicyChanged | BlockedOnPolicy(ch: nat) | NotReady | Admitted

  function TryAcquire(g: Gate, cancelled: bool, expected: nat, checkVersion: bool): (Gate, AcquireStep) {
    if cancelled then (g, Cancelled)
    else if checkVersion && expected != g.generation then (g, PolicyChanged)
    else if g.applying then var (h, ch) := Subscribe(g); (h, BlockedOnPolicy(ch))
    else if g.failed then (g, NotReady)
    else (g.(readers := g.readers + 1), Admitted)
  }

  /** The function acquire returns. */
  function Release(g: Gate): Gate {
    Signal(g.(readers := g.readers - 1))
  }

  datatype Verdict = Current | Changed | Broken

  function Verify(g: Gate, expected: nat): Verdict {
    if g.applying || expected != g.generation then Changed else if g.failed then Broken else Current
  }

  /** The verify closure of confirmRoutingDNSLearning, which also compares the epoch. */
  function VerifyEpoch(g: Gate, expected: nat, epoch: nat): Verdict {
    if epoch != g.writeEpoch then Changed else Verify(g, expected)
  }

  /** The requests the memo does not answer at time `now`. */
  function Misses(learned: map<Key, int>, requests: seq<Key>, now: int): seq<Key> {
    if requests == [] then []
    else if requests[0] in learned && now < learned[requests[0]] then Misses(learned, requests[1..], now)
    else [requests[0]] + Misses(learned, requests[1..], now)
  }

  datatype PlanStep = PlanRejected(verdict: Verdict) | Planned(epoch: nat, pending: seq<Key>)

  function PlanLearning(g: Gate, requests: seq<Key>, now: int): PlanStep {
    if g.applying then PlanRejected(Changed)
    else if g.failed then PlanRejected(Broken)
    else Planned(g.writeEpoch, Misses(g.learned, requests, now))
  }

  /** Remember confirmed keys until the memo is full. */
  function Remember(learned: map<Key, int>, pending: seq<Key>, expires: int): map<Key, int>
    decreases |pending|
  {
    if pending == [] || |learned| >= MEMO_LIMIT then learned
    else Remember(learned[pending[0] := expires], pending[1..], expires)
  }

  function CommitLearning(g: Gate, epoch: nat, pending: seq<Key>, expires: int): Gate {
    if epoch == g.writeEpoch && !g.applying && !g.failed then
      var base := if |g.learned| + |pending| > MEMO_LIMIT then map[] else g.learned;
      g.(learned := Remember(base, pending, expires))
    else g
  }

  // ---------- what the memo functions compute ----------

  lemma {:induction false} MissesAreTheUnknown(learned: map<Key, int>, requests: seq<Key>, now: int)
    ensures forall k :: k in Misses(learned, requests, now) <==>
                        k in requests && !(k in learned && now < learned[k])
  {
    if requests != [] {
      MissesAreTheUnknown(learned, requests[1..], now);
      assert requests == [requests[0]] + requests[1..];
    }
  }

  lemma {:induction false} RememberAdds(learned: map<Key, int>, pending: seq<Key>, expires: int)
    requires |learned| <= MEMO_LIMIT
    ensures var r := Remember(learned, pending, expires);
            && |r| <= MEMO_LIMIT
            && (forall k :: k in r ==> k in learned || k in pending)
            && (forall k :: k in learned ==> k in r && r[k] in {learned[k], expires})
            && (|learned| + |pending| <= MEMO_LIMIT ==> forall k :: k in pending ==> k in r && r[k] == expires)
    decreases |pending|
  {
    if pending != [] && |learned| < MEMO_LIMIT {
      var next := learned[pending[0] := expires];
      assert |next| <= |learned| + 1 by {
        assert next.Keys == learned.Keys + {pending[0]};
      }
      RememberAdds(next, pending[1..], expires);
      RememberKeepsFresh(next, pending[1..], expires, pending[0]);
      assert pending == [pending[0]] + pending[1..];
    }
  }

  lemma {:induction false} RememberKeepsFresh(learned: map<Key, int>, pending: seq<Key>, expires: int, k: Key)
    requires k in learned && learned[k] == expires
    ensures var r := Remember(learned, pending, expires); k in r && r[k] == expires
    decreases |pending|
  {
    if pending != [] && |learned| < MEMO_LIMIT {
      RememberKeepsFresh(learned[pending[0] := expires], pending[1..], expires, k);
    }
  }

  // ---------- what one locked pass does, field by field ----------

  /** The current channel, if there was one, is closed, no other is, and there is none now. */
  ghost predicate WakesAll(g: Gate, h: Gate) {
    && h.changed.None? && h.made == g.made
    && (forall c :: c in h.closed <==> c in g.closed || g.changed == Some(c))
  }

  /** The caller blocks on channel ch, the current one or a new one; it is open, and nothing else has changed. */
  predicate Waits(g: Gate, h: Gate, ch: nat) {
    && h.changed == Some(ch) && h.closed == g.closed
    && (g.changed.Some? ==> ch == g.changed.value && h.made == g.made)
    && (g.changed.None? ==> ch == g.made && h.made == g.made + 1)
    && SamePolicy(g, h) && h.readers == g.readers
  }

  predicate SamePolicy(g: Gate, h: Gate) {
    && h.generation == g.generation && h.applying == g.applying && h.failed == g.failed
    && h.writeEpoch == g.writeEpoch && h.learned == g.learned
  }

  /** One pass of acquire: who is admitted, who waits, and who is turned away, and for which reason. */
  predicate AcquirePass(g: Gate, cancelled: bool, expected: nat, checkVersion: bool, h: Gate, step: AcquireStep) {
    var current := checkVersion ==> expected == g.generation;
    && (step.Cancelled? <==> cancelled)
    && (step.PolicyChanged? <==> !cancelled && !current)
    && (step.BlockedOnPolicy? <==> !cancelled && current && g.applying)
    && (step.NotReady? <==> !cancelled && current && !g.applying && g.failed)
    && (step.Admitted? <==> !cancelled && !g.applying && !g.failed && (checkVersion ==> expected == g.generation))
    && (step.Admitted? ==> h.readers == g.readers + 1 && h == g.(readers := h.readers))
    && (step.BlockedOnPolicy? ==> Waits(g, h, step.ch))
    && (!step.Admitted? && !step.BlockedOnPolicy? ==> h == g)
  }

  /**
    The first pass of begin: behind another apply it waits; otherwise the gate is
    shut under the next epoch with an empty memo, and under the next generation
    exactly when the policy is revised.
   */
  ghost predicate BeginPass(g: Gate, revise: bool, h: Gate, step: BeginStep) {
    && (step.BlockedOnApply? <==> g.applying)
    && (step.BlockedOnApply? ==> Waits(g, h, step.ch))
    && (step.BlockedOnReaders? <==> !g.applying && g.readers > 0)
    && (step.Entered? <==> !g.applying && g.readers <= 0)
    && (!g.applying ==>
          && h.applying && h.writeEpoch == g.writeEpoch + 1 && h.learned == map[]
          && h.generation == (if revise then g.generation + 1 else g.generation)
          && h.failed == g.failed && h.readers == g.readers
          && (forall c :: c in h.closed <==> c in g.closed || g.changed == Some(c))
          && h.changed == (if step.BlockedOnReaders? then Some(step.ch) else None)
          && h.made == (if step.BlockedOnReaders? then g.made + 1 else g.made)
          && (step.BlockedOnReaders? ==> step.ch == g.made))
  }

  /** The drain loop goes on exactly while there are readers. */
  predicate DrainPass(g: Gate, h: Gate, step: BeginStep) {
    && (step.BlockedOnReaders? <==> g.readers > 0)
    && (step.BlockedOnReaders? ==> Waits(g, h, step.ch))
    && (step.Entered? <==> g.readers <= 0)
    && (step.Entered? ==> h == g)
  }

  /** The end of an apply records its error and opens the gate. */
  ghost predicate FinishPass(g: Gate, err: bool, h: Gate) {
    && WakesAll(g, h) && h.failed == err && !h.applying
    && h.generation == g.generation && h.writeEpoch == g.writeEpoch && h.learned == g.learned && h.readers == g.readers
  }

  ghost predicate ReleasePass(g: Gate, h: Gate) {
    WakesAll(g, h) && h.readers == g.readers - 1 && SamePolicy(g, h)
  }

  /** Learning is planned outside applies and failures only; what is pending is what the memo does not know, as often as requested. */
  ghost predicate PlanPass(g: Gate, requests: seq<Key>, now: int, step: PlanStep) {
    && (step == PlanRejected(Changed) <==> g.applying)
    && (step == PlanRejected(Broken) <==> !g.applying && g.failed)
    && (step.Planned? <==> !g.applying && !g.failed)
    && (step.Planned? ==>
          && step.epoch == g.writeEpoch
          && forall k :: multiset(step.pending)[k] == if k in g.learned && now < g.learned[k] then 0 else multiset(requests)[k])
  }

  /** The memo takes confirmed keys under the epoch they were planned for; when they do not fit it starts over. */
  ghost predicate CommitPass(g: Gate, epoch: nat, pending: seq<Key>, expires: int, h: Gate) {
    && h == g.(learned := h.learned)
    && (epoch != g.writeEpoch || g.applying || g.failed ==> h == g)
    && (epoch == g.writeEpoch && !g.applying && !g.failed ==>
          if |g.learned| + |pending| <= MEMO_LIMIT
          then
            && (forall k :: k in h.learned <==> k in g.learned || k in pending)
            && (forall k :: k in h.learned ==> h.learned[k] == if k in pending then expires else g.learned[k])
          else
            && (forall k :: k in h.learned ==> k in pending && h.learned[k] == expires)
            && |h.learned| <= MEMO_LIMIT
            && (|pending| <= MEMO_LIMIT ==> forall k :: k in pending ==> k in h.learned))
  }

  /** An answer is good exactly outside applies and failures, under the generation and, for learning, the epoch it began with. */
  predicate VerifyPass(g: Gate, expected: nat, epoch: nat, plain: Verdict, learning: Verdict) {
    && (plain == Current <==> !g.applying && !g.failed && expected == g.generation)
    && (plain == Changed <==> g.applying || expected != g.generation)
    && (learning == Current <==> !g.applying && !g.failed && expected == g.generation && epoch == g.writeEpoch)
    && (learning == Changed <==> g.applying || expected != g.generation || epoch != g.writeEpoch)
  }

  lemma AcquireIsExact(g: Gate, cancelled: bool, expected: nat, checkVersion: bool)
    ensures var (h, step) := TryAcquire(g, cancelled, expected, checkVersion); AcquirePass(g, cancelled, expected, checkVersion, h, step)
  {
  }

  lemma BeginIsExact(g: Gate, revise: bool)
    ensures BeginPass(g, revise, TryBegin(g, revise).0, TryBegin(g, revise).1)
    ensures DrainPass(g, Drain(g).0, Drain(g).1)
  {
  }

  lemma LeavingIsExact(g: Gate, err: bool)
    ensures FinishPass(g, err, Finish(g, err)) && ReleasePass(g, Release(g))
  {
  }

  lemma VerifyIsExact(g: Gate, expected: nat, epoch: nat)
    ensures VerifyPass(g, expected, epoch, Verify(g, expected), VerifyEpoch(g, expected, epoch))
  {
  }

  lemma {:induction false} MissesCount(learned: map<Key, int>, requests: seq<Key>, now: int, k: Key)
    ensures multiset(Misses(learned, requests, now))[k] == if k in learned && now < learned[k] then 0 else multiset(requests)[k]
  {
    if requests != [] {
      MissesCount(learned, requests[1..], now, k);
      assert requests == [requests[0]] + requests[1..];
    }
  }

  lemma PlanIsExact(g: Gate, requests: seq<Key>, now: int)
    ensures PlanPass(g, requests, now, PlanLearning(g, requests, now))
  {
    forall k
      ensures multiset(Misses(g.learned, requests, now))[k] ==
              if k in g.learned && now < g.learned[k] then 0 else multiset(requests)[k]
    {
      MissesCount(g.learned, requests, now, k);
    }
  }

  /** Remembering changes the expiry of the keys taken and nothing else. */
  lemma {:induction false} RememberKeepsOthers(learned: map<Key, int>, pending: seq<Key>, expires: int, k: Key)
    requires k in learned && k !in pending
    ensures var r := Remember(learned, pending, expires); k in r && r[k] == learned[k]
    decreases |pending|
  {
    if pending != [] && |learned| < MEMO_LIMIT {
      assert k != pending[0] && k !in pending[1..];
      RememberKeepsOthers(learned[pending[0] := expires], pending[1..], expires, k);
    }
  }

  lemma CommitIsExact(g: Gate, epoch: nat, pending: seq<Key>, expires: int)
    requires |g.learned| <= MEMO_LIMIT
    ensures CommitPass(g, epoch, pending, expires, CommitLearning(g, epoch, pending, expires))
  {
    var base := if |g.learned| + |pending| > MEMO_LIMIT then map[] else g.learned;
    RememberAdds(base, pending, expires);
    forall k | k in base && k !in pending
      ensures var r := Remember(base, pending, expires); k in r && r[k] == base[k]
    {
      RememberKeepsOthers(base, pending, expires, k);
    }
    forall k | k in Remember(base, pending, expires) && base == map[]
      ensures Remember(base, pending, expires)[k] == expires
    {
      RememberedExpire(base, pending, expires, k);
    }
  }

  lemma {:induction false} RememberedExpire(learned: map<Key, int>, pending: seq<Key>, expires: int, k: Key)
    requires k in Remember(learned, pending, expires)
    requires k in learned ==> learned[k] == expires
    ensures Remember(learned, pending, expires)[k] == expires
    decreases |pending|
  {
    if pending != [] && |learned| < MEMO_LIMIT {
      RememberedExpire(learned[pending[0] := expires], pending[1..], expires, k);
    }
  }

  // ---------- the gate as the program holds it ----------

  class RoutingDnsGate {
    var changed: Option<nat>
    var made: nat
    var closed: set<nat>
    var generation: nat
    var applying: bool
    var readers: int
    var failed: bool
    var writeEpoch: nat
    var learned: map<Key, int>

    ghost function View(): Gate
      reads this
    {
      Gate(changed, made, closed, generation, applying, readers, failed, writeEpoch, learned)
    }

    constructor ()
      ensures View() == NEW_GATE
    {
      changed, made, closed := None, 0, {};
      generation, applying, readers, failed := 0, false, 0, false;
      writeEpoch, learned := 0, map[];
    }

    method SignalLocked()
      modifies this
      ensures View() == Signal(old(View()))
      ensures WakesAll(old(View()), View()) && SamePolicy(old(View()), View()) && readers == old(readers)
    {
      if changed.Some? {
        closed := closed + {changed.value};
        changed := None;
      }
    }

    method WaitChannel() returns (ch: nat)
      modifies this
      ensures (View(), ch) == Subscribe(old(View()))
    {
      if changed.None? {
        changed := Some(made);
        made := made + 1;
      }
      ch := changed.value;
    }

    /** The first locked stretch of begin; blocked callers try again once woken. */
    method Begin(revise: bool) returns (step: BeginStep)
      modifies this
      ensures (View(), step) == TryBegin(old(View()), revise)
      ensures BeginPass(old(View()), revise, View(), step)
    {
      if applying {
        var ch := WaitChannel();
        return BlockedOnApply(ch);
      }
      applying := true;
      writeEpoch := writeEpoch + 1;
      learned := map[];
      if revise {
        generation := generation + 1;
      }
      SignalLocked();
      step := AwaitReaders();
    }

    /** One turn of begin's drain loop. */
    method AwaitReaders() returns (step: BeginStep)
      modifies this
      ensures (View(), step) == Drain(old(View()))
      ensures DrainPass(old(View()), View(), step)
    {
      if readers > 0 {
        var ch := WaitChannel();
        return BlockedOnReaders(ch);
      }
      step := Entered;
    }

    method FinishApply(err: bool)
      modifies this
      ensures View() == Finish(old(View()), err)
      ensures FinishPass(old(View()), err, View())
    {
      failed, applying := err, false;
      SignalLocked();
    }

    /** One turn of acquire's loop. */
    method Acquire(cancelled: bool, expected: nat, checkVersion: bool) returns (step: AcquireStep)
      modifies this
      ensures (View(), step) == TryAcquire(old(View()), cancelled, expected, checkVersion)
      ensures AcquirePass(old(View()), cancelled, expected, checkVersion, View(), step)
    {
      if cancelled {
        return Cancelled;
      }
      if checkVersion && expected != generation {
        return PolicyChanged;
      }
      if applying {
        var ch := WaitChannel();
        return BlockedOnPolicy(ch);
      }
      if failed {
        return NotReady;
      }
      readers := readers + 1;
      step := Admitted;
    }

    method ReleaseReader()
      modifies this
      ensures View() == Release(old(View()))
      ensures ReleasePass(old(View()), View())
    {
      readers := readers - 1;
      SignalLocked();
    }

    method Unknown(requests: seq<Key>, now: int) returns (pending: seq<Key>)
      ensures pending == Misses(learned, requests, now)
    {
      pending := [];
      var i := 0;
      while i < |requests|
        invariant 0 <= i <= |requests|
        invariant Misses(learned, requests, now) == pending + Misses(learned, requests[i..], now)
      {
        var request := requests[i];
        assert requests[i..][1..] == requests[i + 1..];
        if !(request in learned && now < learned[request]) {
          pending := pending + [request];
        }
        i := i + 1;
      }
    }

    /** The planning stretch of awgIPSetLearnWith. */
    method Plan(requests: seq<Key>, now: int) returns (step: PlanStep)
      ensures step == PlanLearning(View(), requests, now)
      ensures PlanPass(View(), requests, now, step)
    {
      hide PlanPass, Misses;
      PlanIsExact(View(), requests, now);
      if applying {
        return PlanRejected(Changed);
      }
      if failed {
        return PlanRejected(Broken);
      }
      var pending := Unknown(requests, now);
      step := Planned(writeEpoch, pending);
    }

    /** The committing stretch of awgIPSetLearnWith. */
    method Commit(epoch: nat, pending: seq<Key>, expires: int)
      modifies this
      ensures View() == CommitLearning(old(View()), epoch, pending, expires)
      ensures |old(learned)| <= MEMO_LIMIT ==> CommitPass(old(View()), epoch, pending, expires, View())
    {
      hide CommitPass;
      if |learned| <= MEMO_LIMIT {
        CommitIsExact(View(), epoch, pending, expires);
      }
      if epoch == writeEpoch && !applying && !failed {
        if |learned| + |pending| > MEMO_LIMIT {
          learned := map[];
        }
        ghost var base := learned;
        var i := 0;
        while i < |pending| && |learned| < MEMO_LIMIT
          invariant 0 <= i <= |pending|
          invariant View() == old(View()).(learned := learned)
          invariant Remember(learned, pending[i..], expires) == Remember(base, pending, expires)
        {
          assert pending[i..][1..] == pending[i + 1..];
          learned := learned[pending[i] := expires];
          i := i + 1;
        }
      }
    }
  }
}
