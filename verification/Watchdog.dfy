/**
  The tunnel recovery state machine (client_watchdog.go, recovery_settings.go).
  Instants and durations are nanoseconds; an instant that is not set is None.
 */
module Watchdog {
  import opened Wrappers

  type Instant = int

  const SECOND := 1_000_000_000
  const STALE_AFTER := 180 * SECOND
  const PROBE_GRACE := 20 * SECOND

  function UnixSeconds(t: Instant): int {
    t / SECOND
  }

  // ---------- settings ----------

  datatype Settings = Settings(
    fastRetrySeconds: int, retryDelaySeconds: int, slowRetryAfterSeconds: int,
    slowRetryDelaySeconds: int, handshakeTimeoutSeconds: int)
  {
    /** The ranges that Validate accepts. */
    predicate Valid() {
      && 1 <= fastRetrySeconds <= 600
      && 1 <= retryDelaySeconds <= 30
      && 1800 <= slowRetryAfterSeconds <= 3600
      && 90 <= slowRetryDelaySeconds <= 900
      && 5 <= handshakeTimeoutSeconds <= 60
    }

    function HandshakeTimeout(): int {
      handshakeTimeoutSeconds * SECOND
    }

    function RetryDelay(outage: int): int {
      if outage < fastRetrySeconds * SECOND then 0
      else if outage < slowRetryAfterSeconds * SECOND then retryDelaySeconds * SECOND
      else slowRetryDelaySeconds * SECOND
    }
  }

  const DEFAULT_SETTINGS := Settings(60, 5, 3600, 90, 20)

  function InRange(value: int, low: int, high: int, default: int): int {
    if value < low || value > high then default else value
  }

  /** Every damaged saved field falls back to its default. */
  function NormalizeSettings(saved: Option<Settings>): Settings {
    match saved
    case None => DEFAULT_SETTINGS
    case Some(s) =>
      Settings(InRange(s.fastRetrySeconds, 1, 600, 60), InRange(s.retryDelaySeconds, 1, 30, 5),
               InRange(s.slowRetryAfterSeconds, 1800, 3600, 3600), InRange(s.slowRetryDelaySeconds, 90, 900, 90),
               InRange(s.handshakeTimeoutSeconds, 5, 60, 20))
  }

  lemma NormalizedSettingsAreValid(saved: Option<Settings>)
    ensures NormalizeSettings(saved).Valid()
    ensures saved.Some? && saved.value.Valid() ==> NormalizeSettings(saved) == saved.value
  {
  }

  /** The longer the outage, the longer the pause. */
  lemma PausesOnlyGrow(s: Settings, a: int, b: int)
    requires s.Valid() && a <= b
    ensures 0 <= s.RetryDelay(a) <= s.RetryDelay(b)
  {
  }

  // ---------- the state and its operations ----------

  datatype Reason = NoReason | SilentTunnel | AwaitingHandshake | StartFailed

  datatype Recovery = Recovery(
    seen: bool, rx: int, handshake: int,
    healthyAt: Option<Instant>, probeAt: Option<Instant>, probeUntil: Option<Instant>,
    verifyUntil: Option<Instant>, retryAt: Option<Instant>,
    failureSince: Option<Instant>, attemptAt: Option<Instant>,
    attempts: nat, recovering: bool, reason: Reason, routesPending: bool)

  const NEW_RECOVERY :=
    Recovery(false, 0, 0, None, None, None, None, None, None, None, 0, false, NoReason, false)

  datatype Status = Status(running: bool, rxBytes: int, lastHandshake: int)

  datatype Action = Wait | Probe | Reconnect

  predicate Before(now: Instant, deadline: Option<Instant>) {
    deadline.Some? && now < deadline.value
  }

  predicate Fresh(st: Status, now: Instant) {
    st.lastHandshake > 0 && 0 <= UnixSeconds(now) - st.lastHandshake < STALE_AFTER / SECOND
  }

  predicate Progress(r: Recovery, st: Status) {
    r.seen && (st.rxBytes > r.rx || st.lastHandshake > r.handshake)
  }

  predicate Healthy(r: Recovery, st: Status, now: Instant) {
    st.running && (Fresh(st, now) || Progress(r, st))
  }

  function HealthyAt(r: Recovery, st: Status, now: Instant): Option<Instant> {
    if Progress(r, st) then Some(now)
    else if Fresh(st, now) && (r.healthyAt.None? || r.healthyAt.value < st.lastHandshake * SECOND) then
      Some(st.lastHandshake * SECOND)
    else r.healthyAt
  }

  function BeginFailure(r: Recovery, now: Instant): Recovery {
    if r.failureSince.None? then r.(failureSince := Some(now)) else r
  }

  function ProbeDeadline(r: Recovery): Option<Instant> {
    if r.probeUntil.Some? then r.probeUntil
    else if r.probeAt.Some? then Some(r.probeAt.value + PROBE_GRACE)
    else None
  }

  /** An observation that shows no sign of health. */
  function ObserveSilence(r: Recovery, running: bool, now: Instant, settings: Settings): (Recovery, Action) {
    if Before(now, r.retryAt) then (r, Wait)
    else if !running then (BeginFailure(r, now), Reconnect)
    else if Before(now, r.verifyUntil) then (r, Wait)
    else if r.healthyAt.Some? && now - r.healthyAt.value < STALE_AFTER then (r, Wait)
    else if r.attempts > 0 then (BeginFailure(r, now), Reconnect)
    else if r.probeAt.None? then
      (BeginFailure(r, now).(probeAt := Some(now), recovering := true,
                             probeUntil := Some(now + settings.HandshakeTimeout()), reason := SilentTunnel), Probe)
    else if Before(now, ProbeDeadline(r)) then (r, Wait)
    else (r, Reconnect)
  }

  function Observe(r: Recovery, st: Status, now: Instant, settings: Settings): (Recovery, Action) {
    if Healthy(r, st, now) then
      (NEW_RECOVERY.(seen := true, rx := st.rxBytes, handshake := st.lastHandshake,
                     healthyAt := HealthyAt(r, st, now), routesPending := r.routesPending), Wait)
    else ObserveSilence(r.(seen := true, rx := st.rxBytes, handshake := st.lastHandshake), st.running, now, settings)
  }

  function ScheduleRetry(r: Recovery, settings: Settings): Recovery {
    if r.attemptAt.None? then r
    else
      var base := if r.verifyUntil.Some? then r.verifyUntil.value else r.attemptAt.value;
      var since := if r.failureSince.Some? then r.failureSince.value else 0;
      r.(retryAt := Some(base + settings.RetryDelay(base - since)))
  }

  function Attempted(r: Recovery, now: Instant, failed: bool, settings: Settings): Recovery {
    var tried := BeginFailure(r, now).(attemptAt := Some(now), attempts := r.attempts + 1, recovering := true,
                                       routesPending := true, verifyUntil := None);
    ScheduleRetry(if failed then tried.(reason := StartFailed)
                  else tried.(reason := AwaitingHandshake, verifyUntil := Some(now + settings.HandshakeTimeout())),
                  settings)
  }

  function UpdateSettings(r: Recovery, settings: Settings): Recovery {
    if !r.recovering then r
    else
      var probed := if r.probeAt.Some? && r.attempts == 0
                    then r.(probeUntil := Some(r.probeAt.value + settings.HandshakeTimeout())) else r;
      if r.attemptAt.None? then probed
      else ScheduleRetry(if r.verifyUntil.Some? then probed.(verifyUntil := Some(r.attemptAt.value + settings.HandshakeTimeout()))
                         else probed, settings)
  }

  // ---------- what one observation, attempt or change of settings does ----------

  /** The tunnel shows health: a handshake of the last three minutes, or more received than last time, or a newer handshake. */
  predicate ShowsHealth(r: Recovery, st: Status, now: Instant) {
    && st.running
    && (|| (st.lastHandshake > 0 && st.lastHandshake <= now / 1_000_000_000 && now / 1_000_000_000 - st.lastHandshake < 180)
        || (r.seen && (st.rxBytes > r.rx || st.lastHandshake > r.handshake)))
  }

  /** The last sign of health is less than three minutes old. */
  predicate RecentlyHealthy(r: Recovery, now: Instant) {
    r.healthyAt.Some? && now - r.healthyAt.value < 180_000_000_000
  }

  /** A probe is under way and its window has passed; without a window of its own it has twenty seconds. */
  predicate ProbeIsOver(r: Recovery, now: Instant) {
    && r.probeAt.Some?
    && now >= (if r.probeUntil.Some? then r.probeUntil.value else r.probeAt.value + 20_000_000_000)
  }

  /** Nothing to wait for: no pause between attempts, no handshake being waited for, no recent health. */
  predicate Overdue(r: Recovery, now: Instant) {
    && (r.retryAt.Some? ==> now >= r.retryAt.value)
    && (r.verifyUntil.Some? ==> now >= r.verifyUntil.value)
    && !RecentlyHealthy(r, now)
  }

  /**
    An observation: health clears everything but the counters, the time of the last
    sign of health and routes still to restore. Otherwise a stopped tunnel is
    reconnected after the pause; a running one that is overdue is reconnected if it
    was before or if its probe is over, and probed if it was not yet.
   */
  predicate ObservePass(r: Recovery, st: Status, now: Instant, settings: Settings, after: Recovery, action: Action) {
    var healthy := ShowsHealth(r, st, now);
    var starts := action == Probe || (action == Reconnect && (!st.running || r.attempts > 0));
    && after.seen && after.rx == st.rxBytes && after.handshake == st.lastHandshake && after.routesPending == r.routesPending
    && (healthy ==>
          && action == Wait
          && after.probeAt.None? && after.probeUntil.None? && after.verifyUntil.None? && after.retryAt.None?
          && after.failureSince.None? && after.attemptAt.None? && after.attempts == 0 && !after.recovering && after.reason == NoReason
          && (r.seen && (st.rxBytes > r.rx || st.lastHandshake > r.handshake) ==> after.healthyAt == Some(now))
          && (!(r.seen && (st.rxBytes > r.rx || st.lastHandshake > r.handshake)) ==>
                after.healthyAt == if r.healthyAt.Some? && r.healthyAt.value >= st.lastHandshake * 1_000_000_000 then r.healthyAt
                                   else Some(st.lastHandshake * 1_000_000_000)))
    && (!healthy ==>
          && (action == Reconnect <==>
                (r.retryAt.Some? ==> now >= r.retryAt.value)
                && (!st.running || (Overdue(r, now) && (r.attempts > 0 || ProbeIsOver(r, now)))))
          && (action == Probe <==> st.running && Overdue(r, now) && r.attempts == 0 && r.probeAt.None?)
          && after.failureSince == (if starts && r.failureSince.None? then Some(now) else r.failureSince)
          && after.probeAt == (if action == Probe then Some(now) else r.probeAt)
          && after.probeUntil == (if action == Probe then Some(now + settings.handshakeTimeoutSeconds * 1_000_000_000) else r.probeUntil)
          && after.recovering == (action == Probe || r.recovering)
          && after.reason == (if action == Probe then SilentTunnel else r.reason)
          && after.healthyAt == r.healthyAt && after.verifyUntil == r.verifyUntil && after.retryAt == r.retryAt
          && after.attemptAt == r.attemptAt && after.attempts == r.attempts)
  }

  /** The pause that follows `outage` nanoseconds of failure: none at first, then the usual one, then the long one. */
  predicate IsPause(settings: Settings, outage: int, pause: int) {
    && (outage < settings.fastRetrySeconds * 1_000_000_000 ==> pause == 0)
    && (settings.fastRetrySeconds * 1_000_000_000 <= outage < settings.slowRetryAfterSeconds * 1_000_000_000 ==>
          pause == settings.retryDelaySeconds * 1_000_000_000)
    && (settings.fastRetrySeconds * 1_000_000_000 <= outage && settings.slowRetryAfterSeconds * 1_000_000_000 <= outage ==>
          pause == settings.slowRetryDelaySeconds * 1_000_000_000)
  }

  /** The next attempt is due one pause after the handshake window, or after the attempt itself when it failed outright. */
  predicate RetryIsDue(r: Recovery, settings: Settings) {
    r.attemptAt.Some? && r.failureSince.Some? ==>
      var base := if r.verifyUntil.Some? then r.verifyUntil.value else r.attemptAt.value;
      r.retryAt.Some? && IsPause(settings, base - r.failureSince.value, r.retryAt.value - base)
  }

  /** An attempt to reconnect: counted and dated; a start that worked gets a handshake window; the next one is due after its pause. */
  predicate AttemptPass(r: Recovery, now: Instant, failed: bool, settings: Settings, after: Recovery) {
    && after.attemptAt == Some(now) && after.attempts == r.attempts + 1 && after.recovering && after.routesPending
    && after.failureSince == (if r.failureSince.Some? then r.failureSince else Some(now))
    && after.verifyUntil == (if failed then None else Some(now + settings.handshakeTimeoutSeconds * 1_000_000_000))
    && after.reason == (if failed then StartFailed else AwaitingHandshake)
    && RetryIsDue(after, settings)
    && after.seen == r.seen && after.rx == r.rx && after.handshake == r.handshake && after.healthyAt == r.healthyAt
    && after.probeAt == r.probeAt && after.probeUntil == r.probeUntil
  }

  /** New settings move the deadlines of a recovery under way, measured from the probe and the attempt as they were, and nothing else. */
  predicate SettingsPass(r: Recovery, settings: Settings, after: Recovery) {
    var timeout := settings.handshakeTimeoutSeconds * 1_000_000_000;
    && after == r.(probeUntil := after.probeUntil, verifyUntil := after.verifyUntil, retryAt := after.retryAt)
    && (!r.recovering ==> after == r)
    && (r.recovering ==>
          && after.probeUntil == (if r.probeAt.Some? && r.attempts == 0 then Some(r.probeAt.value + timeout) else r.probeUntil)
          && after.verifyUntil == (if r.attemptAt.Some? && r.verifyUntil.Some? then Some(r.attemptAt.value + timeout) else r.verifyUntil)
          && (r.attemptAt.None? ==> after.retryAt == r.retryAt)
          && RetryIsDue(after, settings))
  }

  lemma ObserveIsExact(r: Recovery, st: Status, now: Instant, settings: Settings)
    ensures ObservePass(r, st, now, settings, Observe(r, st, now, settings).0, Observe(r, st, now, settings).1)
  {
  }

  lemma AttemptIsExact(r: Recovery, now: Instant, failed: bool, settings: Settings)
    ensures AttemptPass(r, now, failed, settings, Attempted(r, now, failed, settings))
  {
  }

  lemma SettingsAreExact(r: Recovery, settings: Settings)
    ensures SettingsPass(r, settings, UpdateSettings(r, settings))
  {
  }

  /** clientRecovery as the supervisor keeps it, updated in place. */
  class ClientRecovery {
    var seen: bool
    var rx: int
    var handshake: int
    var healthyAt: Option<Instant>
    var probeAt: Option<Instant>
    var probeUntil: Option<Instant>
    var verifyUntil: Option<Instant>
    var retryAt: Option<Instant>
    var failureSince: Option<Instant>
    var attemptAt: Option<Instant>
    var attempts: nat
    var recovering: bool
    var reason: Reason
    var routesPending: bool

    ghost function View(): Recovery
      reads this
    {
      Recovery(seen, rx, handshake, healthyAt, probeAt, probeUntil, verifyUntil, retryAt, failureSince, attemptAt,
               attempts, recovering, reason, routesPending)
    }

    constructor ()
      ensures View() == NEW_RECOVERY
    {
      seen, rx, handshake := false, 0, 0;
      healthyAt, probeAt, probeUntil, verifyUntil, retryAt, failureSince, attemptAt := None, None, None, None, None, None, None;
      attempts, recovering, reason, routesPending := 0, false, NoReason, false;
    }

    method ClearTimes()
      modifies this`probeAt, this`probeUntil, this`verifyUntil, this`retryAt, this`failureSince, this`attemptAt
      ensures View() == old(View()).(probeAt := None, probeUntil := None, verifyUntil := None,
                                     retryAt := None, failureSince := None, attemptAt := None)
    {
      probeAt, probeUntil, verifyUntil := None, None, None;
      retryAt, failureSince, attemptAt := None, None, None;
    }

    method Reset(st: Status, healthy: Option<Instant>)
      modifies this
      ensures View() == NEW_RECOVERY.(seen := true, rx := st.rxBytes, handshake := st.lastHandshake,
                                      healthyAt := healthy, routesPending := old(routesPending))
    {
      seen, rx, handshake, healthyAt := true, st.rxBytes, st.lastHandshake, healthy;
      attempts, recovering, reason := 0, false, NoReason;
      ClearTimes();
    }

    method MarkFailure(now: Instant)
      modifies this`failureSince
      ensures View() == BeginFailure(old(View()), now)
    {
      if failureSince.None? {
        failureSince := Some(now);
      }
    }

    method ObserveWithSettings(st: Status, now: Instant, settings: Settings) returns (action: Action)
      modifies this
      ensures (View(), action) == Observe(old(View()), st, now, settings)
      ensures ObservePass(old(View()), st, now, settings, View(), action)
    {
      hide Fresh, ObserveSilence, ObservePass;
      ObserveIsExact(View(), st, now, settings);
      var progress := seen && (st.rxBytes > rx || st.lastHandshake > handshake);
      seen, rx, handshake := true, st.rxBytes, st.lastHandshake;
      var recent := Fresh(st, now);
      if st.running && (recent || progress) {
        var healthy := healthyAt;
        if recent && (healthy.None? || healthy.value < st.lastHandshake * SECOND) {
          healthy := Some(st.lastHandshake * SECOND);
        }
        if progress {
          healthy := Some(now);
        }
        Reset(st, healthy);
        return Wait;
      }
      action := ObserveSilent(st.running, now, settings);
    }

    /** The rest of observeWithSettings, when nothing shows health. */
    method ObserveSilent(running: bool, now: Instant, settings: Settings) returns (action: Action)
      modifies this
      ensures (View(), action) == ObserveSilence(old(View()), running, now, settings)
    {
      if retryAt.Some? && now < retryAt.value {
        return Wait;
      }
      if !running {
        MarkFailure(now);
        return Reconnect;
      }
      if verifyUntil.Some? && now < verifyUntil.value {
        return Wait;
      }
      if healthyAt.Some? && now - healthyAt.value < STALE_AFTER {
        return Wait;
      }
      if attempts > 0 {
        MarkFailure(now);
        return Reconnect;
      }
      if probeAt.None? {
        MarkFailure(now);
        probeAt, recovering := Some(now), true;
        probeUntil := Some(now + settings.HandshakeTimeout());
        reason := SilentTunnel;
        return Probe;
      }
      var deadline := if probeUntil.Some? then probeUntil.value else probeAt.value + PROBE_GRACE;
      if now < deadline {
        return Wait;
      }
      return Reconnect;
    }

    method PlanRetry(settings: Settings)
      modifies this`retryAt
      ensures View() == ScheduleRetry(old(View()), settings)
    {
      if attemptAt.None? {
        return;
      }
      var base := attemptAt.value;
      if verifyUntil.Some? {
        base := verifyUntil.value;
      }
      var since := if failureSince.Some? then failureSince.value else 0;
      retryAt := Some(base + settings.RetryDelay(base - since));
    }

    method AttemptedWithSettings(now: Instant, failed: bool, settings: Settings)
      modifies this
      ensures View() == Attempted(old(View()), now, failed, settings)
      ensures AttemptPass(old(View()), now, failed, settings, View())
    {
      hide AttemptPass;
      AttemptIsExact(View(), now, failed, settings);
      MarkFailure(now);
      CountAttempt(now);
      if failed {
        reason := StartFailed;
      } else {
        reason := AwaitingHandshake;
        verifyUntil := Some(now + settings.HandshakeTimeout());
      }
      PlanRetry(settings);
    }

    method CountAttempt(now: Instant)
      modifies this`attemptAt, this`attempts, this`recovering, this`routesPending, this`verifyUntil
      ensures View() == old(View()).(attemptAt := Some(now), attempts := old(attempts) + 1, recovering := true,
                                     routesPending := true, verifyUntil := None)
    {
      attemptAt := Some(now);
      attempts := attempts + 1;
      recovering := true;
      routesPending := true;
      verifyUntil := None;
    }

    method Reconfigure(settings: Settings)
      modifies this
      ensures View() == UpdateSettings(old(View()), settings)
      ensures SettingsPass(old(View()), settings, View())
    {
      hide SettingsPass;
      SettingsAreExact(View(), settings);
      if !recovering {
        return;
      }
      if probeAt.Some? && attempts == 0 {
        probeUntil := Some(probeAt.value + settings.HandshakeTimeout());
      }
      if attemptAt.Some? {
        if verifyUntil.Some? {
          verifyUntil := Some(attemptAt.value + settings.HandshakeTimeout());
        }
        PlanRetry(settings);
      }
    }
  }

  // ---------- runs ----------

  datatype Event =
    | Observed(st: Status, now: Instant, settings: Settings)
    | Tried(now: Instant, failed: bool, settings: Settings)
    | Reconfigured(now: Instant, settings: Settings)

  function Apply(r: Recovery, e: Event): Recovery {
    match e
    case Observed(st, now, settings) => Observe(r, st, now, settings).0
    case Tried(now, failed, settings) => Attempted(r, now, failed, settings)
    case Reconfigured(_, settings) => UpdateSettings(r, settings)
  }

  /** What the supervisor is told to do by event e. */
  function ActionOf(r: Recovery, e: Event): Action {
    if e.Observed? then Observe(r, e.st, e.now, e.settings).1 else Wait
  }

  predicate IsHealthy(r: Recovery, e: Event) {
    e.Observed? && Healthy(r, e.st, e.now)
  }

  /** Any events at all, under valid settings and a clock that does not go back. */
  ghost predicate Run(states: seq<Recovery>, events: seq<Event>) {
    && |states| == |events| + 1
    && states[0] == NEW_RECOVERY
    && (forall i :: 0 <= i < |events| ==> events[i].settings.Valid() && states[i + 1] == Apply(states[i], events[i]))
    && (forall i, j :: 0 <= i < j < |events| ==> events[i].now <= events[j].now)
  }

  predicate NotAfter(a: Option<Instant>, b: Option<Instant>) {
    a.Some? && b.Some? ==> a.value <= b.value
  }

  /** Everything the timestamps promise at time `now`. */
  predicate Consistent(r: Recovery, now: Instant) {
    && NotAfter(r.failureSince, r.attemptAt) && NotAfter(r.attemptAt, r.verifyUntil) && NotAfter(r.verifyUntil, r.retryAt)
    && NotAfter(r.attemptAt, r.retryAt) && NotAfter(r.failureSince, r.probeAt)
    && NotAfter(r.failureSince, Some(now)) && NotAfter(r.attemptAt, Some(now)) && NotAfter(r.probeAt, Some(now))
    && NotAfter(r.healthyAt, Some(now))
    && (r.attempts > 0 <==> r.attemptAt.Some?)
    && (r.retryAt.Some? <==> r.attemptAt.Some?)
    && (r.verifyUntil.Some? ==> r.attemptAt.Some?)
    && (r.probeAt.Some? <==> r.probeUntil.Some?)
    && NotAfter(r.probeAt, r.probeUntil)
    && (r.recovering <==> r.attemptAt.Some? || r.probeAt.Some?)
    && (r.recovering ==> r.failureSince.Some?)
  }

  lemma ObserveKeepsConsistent(r: Recovery, st: Status, now: Instant, settings: Settings)
    requires Consistent(r, now) && settings.Valid()
    ensures Consistent(Observe(r, st, now, settings).0, now)
  {
  }

  lemma AttemptKeepsConsistent(r: Recovery, now: Instant, failed: bool, settings: Settings)
    requires Consistent(r, now) && settings.Valid()
    ensures Consistent(Attempted(r, now, failed, settings), now)
  {
  }

  lemma UpdateKeepsConsistent(r: Recovery, now: Instant, settings: Settings)
    requires Consistent(r, now) && settings.Valid()
    ensures Consistent(UpdateSettings(r, settings), now)
  {
  }

  lemma EventKeepsConsistent(r: Recovery, e: Event)
    requires Consistent(r, e.now) && e.settings.Valid()
    ensures Consistent(Apply(r, e), e.now)
  {
    match e
    case Observed(st, now, settings) => ObserveKeepsConsistent(r, st, now, settings);
    case Tried(now, failed, settings) => AttemptKeepsConsistent(r, now, failed, settings);
    case Reconfigured(now, settings) => UpdateKeepsConsistent(r, now, settings);
  }

  /** On every run FailureSince <= AttemptAt <= VerifyUntil <= RetryAt wherever set, and nothing is dated in the future. */
  lemma {:induction false} TimestampsStayOrdered(states: seq<Recovery>, events: seq<Event>, i: nat)
    requires Run(states, events) && i < |events|
    ensures Consistent(states[i], events[i].now) && Consistent(states[i + 1], events[i].now)
  {
    if i > 0 {
      TimestampsStayOrdered(states, events, i - 1);
      LaterIsConsistent(states[i], events[i - 1].now, events[i].now);
    }
    EventKeepsConsistent(states[i], events[i]);
  }

  lemma LaterIsConsistent(r: Recovery, now: Instant, later: Instant)
    requires Consistent(r, now) && now <= later
    ensures Consistent(r, later)
  {
  }

  /** The start of an outage is fixed until a running tunnel shows a fresh handshake or counter progress. */
  lemma {:induction false} OutageStartIsFixed(states: seq<Recovery>, events: seq<Event>, i: nat, j: nat)
    requires Run(states, events) && i <= j < |states| && states[i].failureSince.Some?
    requires forall k :: i <= k < j ==> !IsHealthy(states[k], events[k])
    ensures states[j].failureSince == states[i].failureSince
  {
    if i < j {
      OutageStartIsFixed(states, events, i, j - 1);
    }
  }

  /** And such an observation ends it: no attempt, deadline or pause survives. */
  lemma HealthEndsTheOutage(states: seq<Recovery>, events: seq<Event>, i: nat)
    requires Run(states, events) && i < |events| && IsHealthy(states[i], events[i])
    ensures var r := states[i + 1];
            && r.failureSince == None && r.retryAt == None && r.verifyUntil == None && r.probeAt == None && r.attempts == 0
            && r.healthyAt.Some? && 0 <= events[i].now - r.healthyAt.value
            && r.routesPending == states[i].routesPending
  {
    TimestampsStayOrdered(states, events, i);
  }

  /** A reconnect never comes before the retry time, nor before the verification deadline, whether the tunnel runs or not. */
  lemma ReconnectIsNeverEarly(states: seq<Recovery>, events: seq<Event>, i: nat)
    requires Run(states, events) && i < |events| && ActionOf(states[i], events[i]) == Reconnect
    ensures !Before(events[i].now, states[i].retryAt)
    ensures !Before(events[i].now, states[i].verifyUntil)
    ensures states[i + 1].failureSince.Some? && states[i + 1].failureSince.value <= events[i].now
  {
    TimestampsStayOrdered(states, events, i);
  }

  /** A pending probe was asked for by an earlier observation, and no sign of health came since. */
  lemma {:induction false} ProbeWasRequested(states: seq<Recovery>, events: seq<Event>, i: nat) returns (k: nat)
    requires Run(states, events) && i < |states| && states[i].probeAt.Some?
    ensures k < i && ActionOf(states[k], events[k]) == Probe && states[i].probeAt == Some(events[k].now)
    ensures forall n :: k <= n < i ==> !IsHealthy(states[n], events[n])
  {
    if states[i - 1].probeAt.Some? {
      k := ProbeWasRequested(states, events, i - 1);
    } else {
      k := i - 1;
    }
  }

  /** A running tunnel that was never reconnected is reconnected only after a probe whose handshake window has passed. */
  lemma ProbeComesBeforeTheFirstReconnect(states: seq<Recovery>, events: seq<Event>, i: nat) returns (k: nat)
    requires Run(states, events) && i < |events| && ActionOf(states[i], events[i]) == Reconnect
    requires events[i].st.running && states[i].attempts == 0
    ensures k < i && ActionOf(states[k], events[k]) == Probe
    ensures forall n :: k <= n <= i ==> !IsHealthy(states[n], events[n])
    ensures states[i].probeUntil.Some? && events[k].now <= states[i].probeUntil.value <= events[i].now
    ensures states[i].healthyAt.Some? ==> events[i].now - states[i].healthyAt.value >= STALE_AFTER
  {
    TimestampsStayOrdered(states, events, i);
    k := ProbeWasRequested(states, events, i);
  }

  /** Every event from i up to j is an observation of a running but silent tunnel under the same settings. */
  ghost predicate Silent(states: seq<Recovery>, events: seq<Event>, i: nat, j: nat, settings: Settings)
    requires Run(states, events) && i <= j <= |events|
  {
    forall n :: i <= n < j ==>
      events[n].Observed? && events[n].settings == settings && events[n].st.running && !IsHealthy(states[n], events[n])
  }

  lemma {:induction false} SilenceKeepsTheProbe(states: seq<Recovery>, events: seq<Event>, i: nat, j: nat, settings: Settings)
    requires Run(states, events) && i < j <= |events| && Silent(states, events, i, j, settings)
    requires states[i].attempts == 0 && states[i].probeAt.None?
    requires states[i].healthyAt.None? || events[i].now - states[i].healthyAt.value >= STALE_AFTER
    ensures states[j].attempts == 0 && states[j].healthyAt == states[i].healthyAt
    ensures states[j].probeAt == Some(events[i].now) && states[j].probeUntil == Some(events[i].now + settings.HandshakeTimeout())
    ensures states[j].retryAt.None? && states[j].verifyUntil.None?
  {
    if i + 1 < j {
      SilenceKeepsTheProbe(states, events, i, j - 1, settings);
    } else {
      TimestampsStayOrdered(states, events, i);
    }
  }

  /** A tunnel that stays silent is probed at once when stale, and reconnected at the first look after the handshake window. */
  lemma SilentTunnelIsReconnected(states: seq<Recovery>, events: seq<Event>, i: nat, j: nat, settings: Settings)
    requires Run(states, events) && i < j < |events| && Silent(states, events, i, j + 1, settings)
    requires states[i].attempts == 0 && states[i].probeAt.None?
    requires states[i].healthyAt.None? || events[i].now - states[i].healthyAt.value >= STALE_AFTER
    requires events[j].now >= events[i].now + settings.HandshakeTimeout()
    ensures ActionOf(states[i], events[i]) == Probe
    ensures ActionOf(states[j], events[j]) == Reconnect
  {
    TimestampsStayOrdered(states, events, i);
    SilenceKeepsTheProbe(states, events, i, j, settings);
  }

  /** New settings are measured against the original outage and attempt: the last ones win. */
  lemma LastSettingsWin(r: Recovery, first: Settings, last: Settings)
    ensures UpdateSettings(UpdateSettings(r, first), last) == UpdateSettings(r, last)
    ensures var after := UpdateSettings(r, last);
            && after.failureSince == r.failureSince && after.attemptAt == r.attemptAt && after.healthyAt == r.healthyAt
            && after.attempts == r.attempts && after.probeAt == r.probeAt
  {
    hide Settings.RetryDelay, Settings.HandshakeTimeout;
    if r.recovering && r.attemptAt.Some? {
      if r.verifyUntil.Some? {
      } else {
      }
    }
  }

  /** Saving the settings an attempt was made under leaves its deadlines alone. */
  lemma SameSettingsChangeNothing(r: Recovery, now: Instant, failed: bool, settings: Settings)
    ensures var after := Attempted(r, now, failed, settings); UpdateSettings(after, settings) == after
  {
  }
}
