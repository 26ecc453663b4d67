/**
  The set of capture collectors: starting, stopping and supervising workers and their relays,
  replacing the browser collector when the filter changes, and the gate in front of EventTap.
 */
module Supervisor {
  import opened Common

  type Capability = nat

  datatype Kind = ContentSnapshot | Ax | Chrome | Workspace | EventTap

  const START_ORDER: seq<Kind> := [ContentSnapshot, Ax, Chrome, Workspace, EventTap]
  const STOP_ORDER: seq<Kind> := [Workspace, Chrome, Ax, ContentSnapshot, EventTap]

  function StartRank(k: Kind): (i: nat)
    ensures i < 5 && START_ORDER[i] == k
  {
    match k
    case ContentSnapshot => 0
    case Ax => 1
    case Chrome => 2
    case Workspace => 3
    case EventTap => 4
  }

  function StopRank(k: Kind): (i: nat)
    ensures i < 5 && STOP_ORDER[i] == k
  {
    match k
    case Workspace => 0
    case Chrome => 1
    case Ax => 2
    case ContentSnapshot => 3
    case EventTap => 4
  }

  datatype Origin = SecureInputStart | WorkspaceMainThread | EventTapMainThread | ContentSnapshotFilter

  // ---------------------------------------------------------------- restart back-off

  /** Seconds to wait after each consecutive failure; the last delay repeats. */
  const RESTART_DELAYS: seq<nat> := [5, 10, 20, 40, 60]
  const RESTART_STABLE_AFTER: nat := 60

  datatype Restart = Restart(nextAttempt: Option<nat>, delayIndex: nat, waiting: bool, reason: Option<string>)

  const NewRestart := Restart(None, 0, false, None)

  function Delay(index: nat): nat {
    RESTART_DELAYS[if index < |RESTART_DELAYS| then index else |RESTART_DELAYS| - 1]
  }

  function Scheduled(r: Restart, now: nat, granted: bool): Restart {
    if granted then r.(nextAttempt := Some(now + Delay(r.delayIndex)), delayIndex := r.delayIndex + 1, waiting := false)
    else r.(nextAttempt := None, waiting := true)
  }

  function ExitedUnexpectedly(r: Restart, now: nat, granted: bool, reason: string): Restart {
    Scheduled(r.(reason := Some(reason)), now, granted)
  }

  predicate Ready(r: Restart, now: nat, granted: bool) {
    || (!r.waiting && r.nextAttempt.None?)
    || (r.waiting && granted)
    || (granted && r.nextAttempt.Some? && now >= r.nextAttempt.value)
  }

  function Failures(r: Restart, times: seq<nat>): Restart {
    if times == [] then r else Scheduled(Failures(r, times[..|times| - 1]), times[|times| - 1], true)
  }

  /**
    After n failures in a row, with permission, the next attempt is due exactly the n-th delay
    after the last one, and not a moment before.
   */
  lemma {:induction false} BackoffSchedule(times: seq<nat>, now: nat)
    requires times != []
    ensures
      var r := Failures(NewRestart, times);
      && r.delayIndex == |times| && !r.waiting
      && r.nextAttempt == Some(times[|times| - 1] + Delay(|times| - 1))
      && (Ready(r, now, true) <==> times[|times| - 1] + Delay(|times| - 1) <= now)
      && !Ready(r, now, false)
  {
    if |times| > 1 {
      BackoffSchedule(times[..|times| - 1], now);
    }
  }

  // ---------------------------------------------------------------- one managed collector

  /** A relay thread; once joined it cannot be joined again. */
  datatype Relay = Relay(joinable: bool)

  datatype RelayExit = SourceClosed | PipelineClosed | Stopped(dropped: nat) | Panicked

  /** What starting a worker does: the relay thread or the worker may refuse. */
  datatype StartOutcome = SpawnFails | WorkerFails | Starts

  datatype StopMode = Drain | Discard

  datatype Managed = Managed(running: bool, relay: Option<Relay>, restart: Restart, startedAt: Option<nat>, relayDropped: nat)

  const NewManaged := Managed(false, None, NewRestart, None, 0)

  function SaturatingAdd(a: nat, b: nat): nat {
    if a + b <= MAX_U64 then a + b else if a <= MAX_U64 then MAX_U64 else a
  }

  function StartedOne(m: Managed, outcome: StartOutcome, now: nat, granted: bool): Managed {
    if m.running then m
    else if outcome.Starts? then
      m.(running := true, relay := Some(Relay(true)), startedAt := Some(now),
         restart := m.restart.(nextAttempt := None, waiting := false))
    else m.(restart := Scheduled(m.restart, now, granted))
  }

  function DroppedBy(relay: Option<Relay>, mode: StopMode, exit: RelayExit): nat {
    if relay.Some? && relay.value.joinable && mode.Discard? && exit.Stopped? then exit.dropped else 0
  }

  function StoppedOne(m: Managed, mode: StopMode, exit: RelayExit): Managed {
    m.(running := false, relay := None, startedAt := None,
       relayDropped := SaturatingAdd(m.relayDropped, DroppedBy(m.relay, mode, exit)))
  }

  function ExitReason(exit: RelayExit): string {
    match exit
    case SourceClosed => "collector worker terminated unexpectedly"
    case PipelineClosed => "collector relay lost the pipeline"
    case Stopped(_) => "collector relay stopped unexpectedly"
    case Panicked => ""
  }

  /** A running collector whose relay has ended has died. */
  predicate HasDied(m: Managed, finished: bool) {
    m.running && m.relay.Some? && (finished || !m.relay.value.joinable)
  }

  /** Laying out a dead collector: it is stopped, its relay reaped, and its restart scheduled. */
  function Reaped(m: Managed, exit: RelayExit, now: nat, allowed: bool): Managed {
    m.(running := false, relay := None, startedAt := None,
       relayDropped := SaturatingAdd(m.relayDropped, if exit.Stopped? then exit.dropped else 0),
       restart := ExitedUnexpectedly(m.restart, now, allowed, ExitReason(exit)))
  }

  predicate JoinFails(m: Managed, finished: bool, exit: RelayExit) {
    HasDied(m, finished) && (exit.Panicked? || !m.relay.value.joinable)
  }

  /** A dead collector whose relay could not be joined: the failure is returned to the run loop. */
  function Broken(m: Managed): Managed {
    m.(running := false, startedAt := None, relay := Some(Relay(false)))
  }

  // ---------------------------------------------------------------- the whole set, as a value

  datatype Call = StartCall(kind: Kind) | StopCall(kind: Kind)

  /** What the environment decides about one collector during one operation. */
  datatype Weather = Weather(start: StartOutcome, finished: bool, exit: RelayExit, needs: set<Capability>)

  type Env = Kind -> Weather

  /** The capabilities that are available, and those that are ready on their own. */
  datatype Report = Report(available: set<Capability>, ready: set<Capability>)

  /** `calls` records the start and stop calls made on workers, in order. */
  datatype SetState = SetState(managed: map<Kind, Managed>, gate: bool, failures: set<Origin>, startErrors: set<Kind>,
                               targets: set<Capability>, retained: nat, calls: seq<Call>)

  predicate Runs(s: SetState, k: Kind) {
    k in s.managed && s.managed[k].running
  }

  /** A failed producer is never started, and EventTap also waits for its gate. */
  predicate MayStart(s: SetState, k: Kind) {
    && (k == Workspace ==> WorkspaceMainThread !in s.failures)
    && (k == EventTap ==> EventTapMainThread !in s.failures && s.gate)
  }

  function StartedIn(s: SetState, k: Kind, outcome: StartOutcome, now: nat, granted: bool): SetState {
    if k !in s.managed || s.managed[k].running then s
    else
      var m := StartedOne(s.managed[k], outcome, now, granted);
      if outcome.Starts?
      then s.(managed := s.managed[k := m], startErrors := s.startErrors - {k}, calls := s.calls + [StartCall(k)])
      else s.(managed := s.managed[k := m], startErrors := s.startErrors + {k})
  }

  function StoppedIn(s: SetState, k: Kind, mode: StopMode, exit: RelayExit): SetState {
    if k !in s.managed then s
    else s.(managed := s.managed[k := StoppedOne(s.managed[k], mode, exit)],
            calls := if s.managed[k].running then s.calls + [StopCall(k)] else s.calls)
  }

  /** A content worker that came up during the operation has the current filter. */
  function FilterFailureCleared(wasRunning: bool, s: SetState): SetState {
    if !wasRunning && Runs(s, ContentSnapshot) then s.(failures := s.failures - {ContentSnapshotFilter}) else s
  }

  function StartedKind(s: SetState, k: Kind, env: Env, now: nat): SetState {
    if !MayStart(s, k) then s
    else
      var t := StartedIn(s, k, env(k).start, now, true);
      if k == ContentSnapshot then FilterFailureCleared(Runs(s, k), t) else t
  }

  /** The first n collectors of the start order have had their turn. */
  function StartedFirst(s: SetState, n: nat, env: Env, now: nat): SetState
    requires n <= |START_ORDER|
  {
    if n == 0 then s else StartedKind(StartedFirst(s, n - 1, env, now), START_ORDER[n - 1], env, now)
  }

  function ModeFor(k: Kind, mode: StopMode): StopMode {
    if k == ContentSnapshot then Discard else mode
  }

  function StoppedFirst(s: SetState, n: nat, mode: StopMode, env: Env): SetState
    requires n <= |STOP_ORDER|
  {
    if n == 0 then s
    else
      var k := STOP_ORDER[n - 1];
      StoppedIn(StoppedFirst(s, n - 1, mode, env), k, ModeFor(k, mode), env(k).exit)
  }

  // ---------------------------------------------------------------- supervision

  /** Whether permissions let this collector restart. The browser needs only one usable target. */
  predicate RestartAllowed(s: SetState, k: Kind, permissions: Option<Report>, needs: set<Capability>) {
    if k == Chrome then permissions.Some? && s.targets * permissions.value.ready != {}
    else if permissions.None? then needs == {}
    else needs <= permissions.value.available
  }

  predicate PermissionsKnown(permissions: Option<Report>, needs: set<Capability>) {
    permissions.Some? || needs == {}
  }

  /** A live worker that has been up long enough is forgiven; a dead one is restarted when due. */
  function TendedIn(s: SetState, k: Kind, start: StartOutcome, now: nat, allowed: bool, known: bool): SetState
    requires k in s.managed
  {
    var m := s.managed[k];
    if m.running then
      if m.startedAt.Some? && m.startedAt.value + RESTART_STABLE_AFTER <= now
      then s.(managed := s.managed[k := m.(restart := NewRestart, startedAt := None)])
      else s
    else if known && Ready(m.restart, now, allowed) then StartedIn(s, k, start, now, allowed)
    else s
  }

  function ReapedIn(s: SetState, k: Kind, w: Weather, now: nat, allowed: bool): SetState
    requires k in s.managed
  {
    var m := s.managed[k];
    if !HasDied(m, w.finished) then s
    else s.(managed := s.managed[k := if JoinFails(m, w.finished, w.exit) then Broken(m) else Reaped(m, w.exit, now, allowed)],
            calls := s.calls + [StopCall(k)])
  }

  datatype Supervised = Supervised(state: SetState, ok: bool)

  function SupervisedIn(s: SetState, k: Kind, permissions: Option<Report>, w: Weather, now: nat): Supervised {
    if k !in s.managed then Supervised(s, true)
    else
      var allowed := RestartAllowed(s, k, permissions, w.needs);
      var reaped := ReapedIn(s, k, w, now, allowed);
      if JoinFails(s.managed[k], w.finished, w.exit) then Supervised(reaped, false)
      else Supervised(TendedIn(reaped, k, w.start, now, allowed, PermissionsKnown(permissions, w.needs)), true)
  }

  function SupervisedKind(s: SetState, k: Kind, permissions: Option<Report>, env: Env, now: nat): Supervised {
    if !MayStart(s, k) then Supervised(s, true)
    else
      var r := SupervisedIn(s, k, permissions, env(k), now);
      if k == ContentSnapshot && r.ok then r.(state := FilterFailureCleared(Runs(s, k), r.state)) else r
  }

  /** The first collector whose relay cannot be joined ends the round. */
  function SupervisedFirst(s: SetState, n: nat, permissions: Option<Report>, env: Env, now: nat): Supervised
    requires n <= |START_ORDER|
  {
    if n == 0 then Supervised(s, true)
    else
      var before := SupervisedFirst(s, n - 1, permissions, env, now);
      if before.ok then SupervisedKind(before.state, START_ORDER[n - 1], permissions, env, now) else before
  }

  // ---------------------------------------------------------------- replacing the filter

  /** Removing the browser collector keeps what its relay dropped in the totals. */
  function WithoutChrome(s: SetState, exit: RelayExit, own: nat): SetState {
    var t := StoppedIn(s, Chrome, Discard, exit);
    if Chrome !in t.managed then t.(startErrors := t.startErrors - {Chrome})
    else t.(managed := t.managed - {Chrome},
            retained := SaturatingAdd(t.retained, SaturatingAdd(own, t.managed[Chrome].relayDropped)),
            startErrors := t.startErrors - {Chrome})
  }

  /** A browser collector aimed at other targets is removed. */
  function BrowserCut(s: SetState, targets: set<Capability>, exit: RelayExit, own: nat): SetState {
    if targets != s.targets && Chrome in s.managed then WithoutChrome(s, exit, own) else s
  }

  /** `content` is the running content collector's answer to the new filter, if it runs. */
  function Retargeted(s: SetState, targets: set<Capability>, content: Option<bool>): SetState {
    s.(targets := targets,
       failures := if ContentSnapshot !in s.managed || content.None? then s.failures
                   else if content.value then s.failures - {ContentSnapshotFilter}
                   else s.failures + {ContentSnapshotFilter})
  }

  /** There is a browser collector exactly while there are targets for it. */
  function BrowserSettled(s: SetState, exit: RelayExit, own: nat): SetState {
    if s.targets != {} && Chrome !in s.managed then s.(managed := s.managed[Chrome := NewManaged])
    else if s.targets == {} && Chrome in s.managed then WithoutChrome(s, exit, own)
    else s
  }

  function WithFilter(s: SetState, targets: set<Capability>, content: Option<bool>, exit: RelayExit, own: nat): SetState {
    BrowserSettled(Retargeted(BrowserCut(s, targets, exit, own), targets, content), exit, own)
  }

  /** Everything the set needs permission for: each collector's own needs and the browser targets. */
  function RequiredCapabilities(s: SetState, needs: Kind -> set<Capability>): set<Capability> {
    (set k, c | k in s.managed && k != Chrome && c in needs(k) :: c) + s.targets
  }

  // ---------------------------------------------------------------- what every operation keeps

  /** A collector runs exactly while it holds a relay that can still be joined. */
  predicate Healthy(m: Managed) {
    (m.running <==> m.relay.Some?) && (m.relay.Some? ==> m.relay.value.joinable)
  }

  ghost predicate Paired(s: SetState) {
    forall k :: k in s.managed ==> Healthy(s.managed[k])
  }

  ghost predicate NoneRuns(s: SetState) {
    forall k :: k in s.managed ==> !s.managed[k].running
  }

  /** Nothing runs behind a closed gate or on top of a failed producer. */
  ghost predicate Gated(s: SetState) {
    && (Runs(s, EventTap) ==> s.gate && EventTapMainThread !in s.failures)
    && (Runs(s, Workspace) ==> WorkspaceMainThread !in s.failures)
  }

  ghost predicate Good(s: SetState) {
    Paired(s) && Gated(s)
  }

  /** The parts of a set that starting, stopping and supervising leave alone. */
  ghost predicate SameShape(s: SetState, t: SetState) {
    && s.managed.Keys == t.managed.Keys && s.gate == t.gate && s.targets == t.targets && s.retained == t.retained
    && t.failures <= s.failures && s.failures <= t.failures + {ContentSnapshotFilter}
    && s.calls <= t.calls
  }

  function StartResult(s: SetState, m: Managed, k: Kind, env: Env, now: nat): Managed {
    if MayStart(s, k) then StartedOne(m, env(k).start, now, true) else m
  }

  lemma StartedKindIs(s: SetState, j: Kind, env: Env, now: nat, k: Kind)
    ensures SameShape(s, StartedKind(s, j, env, now))
    ensures k in s.managed ==>
      StartedKind(s, j, env, now).managed[k] == (if k == j then StartResult(s, s.managed[k], k, env, now) else s.managed[k])
  {
    var m := if j in s.managed then s.managed[j] else NewManaged;
    assert j in s.managed && m.running ==> StartedIn(s, j, env(j).start, now, true) == s;
  }

  /** What `start` does to one collector, said without the other four. */
  lemma {:induction false} StartedFirstIs(s: SetState, n: nat, env: Env, now: nat, k: Kind)
    requires n <= |START_ORDER|
    ensures SameShape(s, StartedFirst(s, n, env, now))
    ensures k in s.managed ==>
      StartedFirst(s, n, env, now).managed[k] == (if StartRank(k) < n then StartResult(s, s.managed[k], k, env, now) else s.managed[k])
  {
    if n > 0 {
      StartedFirstIs(s, n - 1, env, now, k);
      assert StartRank(START_ORDER[n - 1]) == n - 1;
      StartedKindIs(StartedFirst(s, n - 1, env, now), START_ORDER[n - 1], env, now, k);
    }
  }

  lemma StartKeepsGood(s: SetState, env: Env, now: nat)
    requires Good(s)
    ensures Good(StartedFirst(s, |START_ORDER|, env, now)) && SameShape(s, StartedFirst(s, |START_ORDER|, env, now))
  {
    var t := StartedFirst(s, |START_ORDER|, env, now);
    forall k
      ensures SameShape(s, t)
      ensures k in s.managed ==> t.managed[k] == StartResult(s, s.managed[k], k, env, now)
    {
      StartedFirstIs(s, |START_ORDER|, env, now, k);
    }
  }

  /** What stopping does to one collector; content is always discarded. */
  lemma {:induction false} StoppedFirstIs(s: SetState, n: nat, mode: StopMode, env: Env, k: Kind)
    requires n <= |STOP_ORDER|
    ensures SameShape(s, StoppedFirst(s, n, mode, env)) && StoppedFirst(s, n, mode, env).failures == s.failures
    ensures k in s.managed ==>
      StoppedFirst(s, n, mode, env).managed[k] ==
        (if StopRank(k) < n then StoppedOne(s.managed[k], ModeFor(k, mode), env(k).exit) else s.managed[k])
  {
    if n > 0 {
      StoppedFirstIs(s, n - 1, mode, env, k);
      assert StopRank(STOP_ORDER[n - 1]) == n - 1;
    }
  }

  /** From any state whatever, also after a failed supervision, stopping leaves nothing running and no relay held. */
  lemma StopLeavesNothing(s: SetState, mode: StopMode, env: Env)
    ensures
      var t := StoppedFirst(s, |STOP_ORDER|, mode, env);
      Good(t) && NoneRuns(t) && SameShape(s, t) && t.failures == s.failures
  {
    var t := StoppedFirst(s, |STOP_ORDER|, mode, env);
    forall k
      ensures SameShape(s, t) && t.failures == s.failures
      ensures k in s.managed ==> t.managed[k] == StoppedOne(s.managed[k], ModeFor(k, mode), env(k).exit)
    {
      StoppedFirstIs(s, |STOP_ORDER|, mode, env, k);
    }
  }

  lemma ReapedInIs(s: SetState, j: Kind, w: Weather, now: nat, allowed: bool)
    requires j in s.managed && Healthy(s.managed[j])
    ensures
      var t := ReapedIn(s, j, w, now, allowed);
      && SameShape(s, t) && t.failures == s.failures && t.managed == s.managed[j := t.managed[j]]
      && (Healthy(t.managed[j]) || (JoinFails(s.managed[j], w.finished, w.exit) && !t.managed[j].running))
      && (t.managed[j].running ==> s.managed[j].running)
  {
    assert s.managed == s.managed[j := s.managed[j]];
  }

  lemma TendedInIs(s: SetState, j: Kind, start: StartOutcome, now: nat, allowed: bool, known: bool)
    requires j in s.managed && Healthy(s.managed[j])
    ensures
      var t := TendedIn(s, j, start, now, allowed, known);
      && SameShape(s, t) && t.failures == s.failures && t.managed == s.managed[j := t.managed[j]] && Healthy(t.managed[j])
  {
    assert s.managed == s.managed[j := s.managed[j]];
  }

  lemma SupervisedInIs(s: SetState, j: Kind, permissions: Option<Report>, w: Weather, now: nat)
    requires j in s.managed && Healthy(s.managed[j])
    ensures
      var r := SupervisedIn(s, j, permissions, w, now);
      && SameShape(s, r.state) && r.state.failures == s.failures && r.state.managed == s.managed[j := r.state.managed[j]]
      && (if r.ok then Healthy(r.state.managed[j]) else !r.state.managed[j].running)
  {
    var allowed := RestartAllowed(s, j, permissions, w.needs);
    var reaped := ReapedIn(s, j, w, now, allowed);
    ReapedInIs(s, j, w, now, allowed);
    if !JoinFails(s.managed[j], w.finished, w.exit) {
      TendedInIs(reaped, j, w.start, now, allowed, PermissionsKnown(permissions, w.needs));
    }
  }

  lemma SupervisedKindIs(s: SetState, j: Kind, permissions: Option<Report>, env: Env, now: nat)
    requires Paired(s) && j in s.managed && MayStart(s, j)
    ensures
      var r := SupervisedKind(s, j, permissions, env, now);
      && SameShape(s, r.state) && r.state.managed == s.managed[j := r.state.managed[j]]
      && (if r.ok then Healthy(r.state.managed[j]) else !r.state.managed[j].running)
  {
    SupervisedInIs(s, j, permissions, env(j), now);
  }

  /**
    A round of supervision keeps a good set good. If a relay cannot be joined the round stops
    there: nothing forbidden runs, but that one relay is still held.
   */
  lemma {:induction false} SupervisedFirstIs(s: SetState, n: nat, permissions: Option<Report>, env: Env, now: nat)
    requires n <= |START_ORDER| && Good(s)
    ensures
      var r := SupervisedFirst(s, n, permissions, env, now);
      && SameShape(s, r.state) && Gated(r.state) && (r.ok ==> Paired(r.state))
  {
    if n > 0 {
      SupervisedFirstIs(s, n - 1, permissions, env, now);
      var before := SupervisedFirst(s, n - 1, permissions, env, now);
      var k := START_ORDER[n - 1];
      if before.ok && k in before.state.managed && MayStart(before.state, k) {
        SupervisedKindIs(before.state, k, permissions, env, now);
      }
    }
  }

  lemma WithoutChromeIs(s: SetState, exit: RelayExit, own: nat)
    ensures
      var t := WithoutChrome(s, exit, own);
      t.managed == s.managed - {Chrome} && t.gate == s.gate && t.failures == s.failures && t.targets == s.targets
  {
  }

  lemma BrowserCutIs(s: SetState, targets: set<Capability>, exit: RelayExit, own: nat)
    ensures
      var t := BrowserCut(s, targets, exit, own);
      && t.managed == (if targets != s.targets then s.managed - {Chrome} else s.managed)
      && t.gate == s.gate && t.failures == s.failures
  {
    WithoutChromeIs(s, exit, own);
    assert Chrome !in s.managed ==> s.managed - {Chrome} == s.managed;
  }

  lemma BrowserSettledIs(s: SetState, exit: RelayExit, own: nat)
    ensures
      var t := BrowserSettled(s, exit, own);
      && t.managed == (if s.targets == {} then s.managed - {Chrome}
                       else if Chrome in s.managed then s.managed else s.managed[Chrome := NewManaged])
      && t.gate == s.gate && t.failures == s.failures && t.targets == s.targets
  {
    WithoutChromeIs(s, exit, own);
    assert Chrome !in s.managed ==> s.managed - {Chrome} == s.managed;
  }

  /** Replacing the filter touches no collector but the browser one, which it keeps, renews or removes. */
  lemma WithFilterIs(s: SetState, targets: set<Capability>, content: Option<bool>, exit: RelayExit, own: nat)
    ensures
      var t := WithFilter(s, targets, content, exit, own);
      && t.gate == s.gate && t.targets == targets && t.failures + {ContentSnapshotFilter} == s.failures + {ContentSnapshotFilter}
      && t.managed == if targets == {} then s.managed - {Chrome}
                      else if targets == s.targets && Chrome in s.managed then s.managed
                      else s.managed[Chrome := NewManaged]
  {
    BrowserCutIs(s, targets, exit, own);
    var told := Retargeted(BrowserCut(s, targets, exit, own), targets, content);
    BrowserSettledIs(told, exit, own);
    assert (s.managed - {Chrome})[Chrome := NewManaged] == s.managed[Chrome := NewManaged];
    assert s.managed - {Chrome} - {Chrome} == s.managed - {Chrome};
  }

  /** A new filter starts nothing, and a good set stays good. */
  lemma FilterKeepsGood(s: SetState, targets: set<Capability>, content: Option<bool>, exit: RelayExit, own: nat)
    requires Good(s)
    ensures
      var t := WithFilter(s, targets, content, exit, own);
      Good(t) && (forall k :: Runs(t, k) ==> Runs(s, k))
  {
    WithFilterIs(s, targets, content, exit, own);
  }

  /** Workers are started consumers first: a start made later in one call is later in the start order. */
  lemma {:induction false} StartsAreOrdered(s: SetState, n: nat, env: Env, now: nat)
    requires n <= |START_ORDER|
    ensures
      var t := StartedFirst(s, n, env, now);
      && s.calls <= t.calls
      && (forall i :: |s.calls| <= i < |t.calls| ==> t.calls[i].StartCall? && StartRank(t.calls[i].kind) < n)
      && (forall i, j :: |s.calls| <= i < j < |t.calls| ==> StartRank(t.calls[i].kind) < StartRank(t.calls[j].kind))
  {
    if n > 0 {
      StartsAreOrdered(s, n - 1, env, now);
      assert StartRank(START_ORDER[n - 1]) == n - 1;
    }
  }

  /** Workers are stopped producers first, and only those that ran. */
  lemma {:induction false} StopsAreOrdered(s: SetState, n: nat, mode: StopMode, env: Env)
    requires n <= |STOP_ORDER|
    ensures
      var t := StoppedFirst(s, n, mode, env);
      && s.calls <= t.calls
      && (forall i :: |s.calls| <= i < |t.calls| ==>
            t.calls[i].StopCall? && StopRank(t.calls[i].kind) < n && Runs(s, t.calls[i].kind))
      && (forall i, j :: |s.calls| <= i < j < |t.calls| ==> StopRank(t.calls[i].kind) < StopRank(t.calls[j].kind))
  {
    if n > 0 {
      StopsAreOrdered(s, n - 1, mode, env);
      var k := STOP_ORDER[n - 1];
      assert StopRank(k) == n - 1;
      StoppedFirstIs(s, n - 1, mode, env, k);
    }
  }

  lemma StopAppends(s: SetState, k: Kind, mode: StopMode, exit: RelayExit)
    ensures StoppedIn(s, k, mode, exit).calls == if Runs(s, k) then s.calls + [StopCall(k)] else s.calls
  {
  }

  /** Every worker that ran is stopped. */
  lemma {:induction false} EveryRunnerIsStopped(s: SetState, n: nat, mode: StopMode, env: Env, k: Kind) returns (i: nat)
    requires n <= |STOP_ORDER| && Runs(s, k) && StopRank(k) < n
    ensures |s.calls| <= i < |StoppedFirst(s, n, mode, env).calls| && StoppedFirst(s, n, mode, env).calls[i] == StopCall(k)
  {
    var before := StoppedFirst(s, n - 1, mode, env);
    var j := STOP_ORDER[n - 1];
    StopsAreOrdered(s, n - 1, mode, env);
    StopAppends(before, j, ModeFor(j, mode), env(j).exit);
    if StopRank(k) == n - 1 {
      StoppedFirstIs(s, n - 1, mode, env, k);
      assert k == j;
      i := |before.calls|;
    } else {
      i := EveryRunnerIsStopped(s, n - 1, mode, env, k);
    }
  }

  // ---------------------------------------------------------------- the log of worker calls

  /** Whether the log leaves this worker started. */
  predicate LeftRunning(calls: seq<Call>, k: Kind) {
    && calls != []
    && (calls[|calls| - 1] == StartCall(k) || (calls[|calls| - 1] != StopCall(k) && LeftRunning(calls[..|calls| - 1], k)))
  }

  /** Every start finds its worker stopped, and every stop finds it started. */
  predicate Alternates(calls: seq<Call>) {
    calls == [] || (
      var prior, last := calls[..|calls| - 1], calls[|calls| - 1];
      Alternates(prior) && (LeftRunning(prior, last.kind) <==> last.StopCall?))
  }

  /** The log is well formed and tells truly which workers run. */
  ghost predicate Logged(s: SetState) {
    Alternates(s.calls) && forall k :: LeftRunning(s.calls, k) <==> Runs(s, k)
  }

  lemma LeftRunningStep(calls: seq<Call>, call: Call, k: Kind)
    ensures LeftRunning(calls + [call], k) <==> call == StartCall(k) || (call != StopCall(k) && LeftRunning(calls, k))
  {
    assert (calls + [call])[..|calls|] == calls;
  }

  lemma AlternatesStep(calls: seq<Call>, call: Call)
    requires Alternates(calls) && (LeftRunning(calls, call.kind) <==> call.StopCall?)
    ensures Alternates(calls + [call])
  {
    assert (calls + [call])[..|calls|] == calls;
  }

  /** One collector changes; if its worker's state changes, that is logged. */
  lemma OneChangeLogged(s: SetState, t: SetState, j: Kind)
    requires Logged(s)
    requires forall k :: k != j ==> (Runs(t, k) <==> Runs(s, k))
    requires t.calls == if Runs(t, j) == Runs(s, j) then s.calls
                        else s.calls + [if Runs(t, j) then StartCall(j) else StopCall(j)]
    ensures Logged(t)
  {
    if Runs(t, j) != Runs(s, j) {
      var call := if Runs(t, j) then StartCall(j) else StopCall(j);
      AlternatesStep(s.calls, call);
      forall k ensures LeftRunning(t.calls, k) <==> Runs(t, k) {
        LeftRunningStep(s.calls, call, k);
      }
    }
  }

  lemma StartLogged(s: SetState, j: Kind, outcome: StartOutcome, now: nat, granted: bool)
    requires Logged(s)
    ensures Logged(StartedIn(s, j, outcome, now, granted))
  {
    OneChangeLogged(s, StartedIn(s, j, outcome, now, granted), j);
  }

  lemma StopLogged(s: SetState, j: Kind, mode: StopMode, exit: RelayExit)
    requires Logged(s)
    ensures Logged(StoppedIn(s, j, mode, exit))
  {
    OneChangeLogged(s, StoppedIn(s, j, mode, exit), j);
  }

  lemma NothingLogged(s: SetState, t: SetState)
    requires Logged(s) && t.calls == s.calls
    requires forall k :: Runs(t, k) <==> Runs(s, k)
    ensures Logged(t)
  {
  }

  lemma ReapLogged(s: SetState, j: Kind, w: Weather, now: nat, allowed: bool)
    requires Logged(s) && j in s.managed
    ensures Logged(ReapedIn(s, j, w, now, allowed))
  {
    if HasDied(s.managed[j], w.finished) {
      OneChangeLogged(s, ReapedIn(s, j, w, now, allowed), j);
    }
  }

  lemma TendLogged(s: SetState, j: Kind, start: StartOutcome, now: nat, allowed: bool, known: bool)
    requires Logged(s) && j in s.managed
    ensures Logged(TendedIn(s, j, start, now, allowed, known))
  {
    if s.managed[j].running {
      NothingLogged(s, TendedIn(s, j, start, now, allowed, known));
    } else {
      StartLogged(s, j, start, now, allowed);
    }
  }

  lemma SuperviseLogged(s: SetState, j: Kind, permissions: Option<Report>, w: Weather, now: nat)
    requires Logged(s)
    ensures Logged(SupervisedIn(s, j, permissions, w, now).state)
  {
    if j in s.managed {
      var allowed := RestartAllowed(s, j, permissions, w.needs);
      ReapLogged(s, j, w, now, allowed);
      if !JoinFails(s.managed[j], w.finished, w.exit) {
        TendLogged(ReapedIn(s, j, w, now, allowed), j, w.start, now, allowed, PermissionsKnown(permissions, w.needs));
      }
    }
  }

  lemma {:induction false} StartRoundLogged(s: SetState, n: nat, env: Env, now: nat)
    requires n <= |START_ORDER| && Logged(s)
    ensures Logged(StartedFirst(s, n, env, now))
  {
    if n > 0 {
      StartRoundLogged(s, n - 1, env, now);
      var k := START_ORDER[n - 1];
      StartLogged(StartedFirst(s, n - 1, env, now), k, env(k).start, now, true);
    }
  }

  lemma {:induction false} StopRoundLogged(s: SetState, n: nat, mode: StopMode, env: Env)
    requires n <= |STOP_ORDER| && Logged(s)
    ensures Logged(StoppedFirst(s, n, mode, env))
  {
    if n > 0 {
      StopRoundLogged(s, n - 1, mode, env);
      var k := STOP_ORDER[n - 1];
      StopLogged(StoppedFirst(s, n - 1, mode, env), k, ModeFor(k, mode), env(k).exit);
    }
  }

  lemma {:induction false} SuperviseRoundLogged(s: SetState, n: nat, permissions: Option<Report>, env: Env, now: nat)
    requires n <= |START_ORDER| && Logged(s)
    ensures Logged(SupervisedFirst(s, n, permissions, env, now).state)
  {
    if n > 0 {
      SuperviseRoundLogged(s, n - 1, permissions, env, now);
      var k := START_ORDER[n - 1];
      SuperviseLogged(SupervisedFirst(s, n - 1, permissions, env, now).state, k, permissions, env(k), now);
    }
  }

  lemma WithoutChromeLogged(s: SetState, exit: RelayExit, own: nat)
    requires Logged(s)
    ensures Logged(WithoutChrome(s, exit, own))
  {
    StopLogged(s, Chrome, Discard, exit);
  }

  lemma SettledLogged(s: SetState, exit: RelayExit, own: nat)
    requires Logged(s)
    ensures Logged(BrowserSettled(s, exit, own))
  {
    if s.targets != {} && Chrome !in s.managed {
      NothingLogged(s, BrowserSettled(s, exit, own));
    } else {
      WithoutChromeLogged(s, exit, own);
    }
  }

  lemma FilterLogged(s: SetState, targets: set<Capability>, content: Option<bool>, exit: RelayExit, own: nat)
    requires Logged(s)
    ensures Logged(WithFilter(s, targets, content, exit, own))
  {
    var cut := BrowserCut(s, targets, exit, own);
    WithoutChromeLogged(s, exit, own);
    NothingLogged(cut, Retargeted(cut, targets, content));
    SettledLogged(Retargeted(cut, targets, content), exit, own);
  }
}
