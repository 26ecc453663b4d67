/**
  The collector set as the recorder holds it: fields updated in place by start, stop, supervise
  and a filter replacement. Each method moves the state exactly as the functions of Supervisor say.
 */
module CollectorSets {
  import opened Common
  import opened Supervisor

  class CollectorSet {
    var managed: map<Kind, Managed>
    var gate: bool
    var failures: set<Origin>
    var startErrors: set<Kind>
    var targets: set<Capability>
    var retained: nat
    var calls: seq<Call>

    function State(): SetState
      reads this
    {
      SetState(managed, gate, failures, startErrors, targets, retained, calls)
    }

    constructor (kinds: set<Kind>, targets: set<Capability>, failures: set<Origin>)
      ensures State() == SetState(map k | k in kinds :: NewManaged, true, failures, {}, targets, 0, [])
      ensures Good(State()) && NoneRuns(State())
    {
      managed := map k | k in kinds :: NewManaged;
      gate := true;
      this.failures := failures;
      startErrors := {};
      this.targets := targets;
      retained := 0;
      calls := [];
    }

    method StartManaged(k: Kind, outcome: StartOutcome, now: nat, granted: bool)
      modifies this
      ensures State() == StartedIn(old(State()), k, outcome, now, granted)
    {
      if k !in managed {
        return;
      }
      var m := managed[k];
      if m.running {
        return;
      }
      if outcome.Starts? {
        calls := calls + [StartCall(k)];
        m := m.(running := true);
        m := m.(relay := Some(Relay(true)));
        m := m.(startedAt := Some(now));
        m := m.(restart := m.restart.(nextAttempt := None, waiting := false));
        startErrors := startErrors - {k};
      } else {
        startErrors := startErrors + {k};
        m := m.(restart := Scheduled(m.restart, now, granted));
      }
      managed := managed[k := m];
    }

    method ClearFilterFailureAfterStart()
      modifies this`failures
      ensures State() == FilterFailureCleared(false, old(State()))
    {
      if ContentSnapshot in managed && managed[ContentSnapshot].running {
        failures := failures - {ContentSnapshotFilter};
      }
    }

    method StartEventTap(outcome: StartOutcome, now: nat)
      modifies this
      ensures State() == if MayStart(old(State()), EventTap) then StartedIn(old(State()), EventTap, outcome, now, true) else old(State())
    {
      if EventTapMainThread in failures {
        return;
      }
      if gate {
        StartManaged(EventTap, outcome, now, true);
      }
    }

    method StartKind(k: Kind, env: Env, now: nat)
      modifies this
      ensures State() == StartedKind(old(State()), k, env, now)
    {
      if k == ContentSnapshot {
        var wasRunning := k in managed && managed[k].running;
        StartManaged(k, env(k).start, now, true);
        if !wasRunning {
          ClearFilterFailureAfterStart();
        }
      } else if k == Workspace {
        if WorkspaceMainThread !in failures {
          StartManaged(k, env(k).start, now, true);
        }
      } else if k == EventTap {
        StartEventTap(env(k).start, now);
      } else {
        StartManaged(k, env(k).start, now, true);
      }
    }

    /** Starts every collector that may start, consumers before the producers they depend on. */
    method Start(env: Env, now: nat)
      modifies this
      ensures State() == StartedFirst(old(State()), |START_ORDER|, env, now)
      ensures Good(old(State())) ==> Good(State())
    {
      ghost var was := State();
      for i := 0 to |START_ORDER|
        invariant State() == StartedFirst(was, i, env, now)
      {
        StartKind(START_ORDER[i], env, now);
      }
      if Good(was) {
        StartKeepsGood(was, env, now);
      }
    }

    method StopCollector(k: Kind, mode: StopMode, exit: RelayExit)
      modifies this
      ensures State() == StoppedIn(old(State()), k, mode, exit)
    {
      if k !in managed {
        return;
      }
      var m := managed[k];
      if m.running {
        calls := calls + [StopCall(k)];
        m := m.(running := false);
      }
      if m.relay.Some? {
        var dropped := RelayEnds(m.relay.value, mode, exit);
        m := m.(relay := None);
        if dropped.Some? {
          m := m.(relayDropped := SaturatingAdd(m.relayDropped, dropped.value));
        }
      }
      managed := managed[k := m.(startedAt := None)];
    }

    /** Stops everything, producers first; content is always discarded. Nothing runs afterwards. */
    method StopInOrder(mode: StopMode, env: Env)
      modifies this
      ensures State() == StoppedFirst(old(State()), |STOP_ORDER|, mode, env)
      ensures Good(State()) && NoneRuns(State()) && SameShape(old(State()), State()) && failures == old(failures)
    {
      ghost var was := State();
      for i := 0 to |STOP_ORDER|
        invariant State() == StoppedFirst(was, i, mode, env)
      {
        var k := STOP_ORDER[i];
        StopCollector(k, if k == ContentSnapshot then Discard else mode, env(k).exit);
      }
      StopLeavesNothing(was, mode, env);
    }

    method Stop(env: Env)
      modifies this
      ensures State() == StoppedFirst(old(State()), |STOP_ORDER|, Drain, env)
      ensures Good(State()) && NoneRuns(State()) && SameShape(old(State()), State()) && failures == old(failures)
    {
      StopInOrder(Drain, env);
    }

    method Suspend(env: Env)
      modifies this
      ensures State() == StoppedFirst(old(State()), |STOP_ORDER|, Discard, env)
      ensures Good(State()) && NoneRuns(State()) && SameShape(old(State()), State()) && failures == old(failures)
    {
      StopInOrder(Discard, env);
    }

    method Reap(k: Kind, w: Weather, now: nat, allowed: bool) returns (ok: bool)
      requires k in managed && HasDied(managed[k], w.finished)
      modifies this
      ensures State() == ReapedIn(old(State()), k, w, now, allowed)
      ensures ok == !JoinFails(old(managed)[k], w.finished, w.exit)
    {
      var m := managed[k];
      var joinable := m.relay.value.joinable;
      calls := calls + [StopCall(k)];
      m := m.(running := false);
      m := m.(startedAt := None);
      m := m.(relay := Some(Relay(false)));
      if !joinable || w.exit.Panicked? {
        managed := managed[k := m];
        return false;
      }
      m := m.(relay := None);
      if w.exit.Stopped? {
        m := m.(relayDropped := SaturatingAdd(m.relayDropped, w.exit.dropped));
      }
      m := m.(restart := ExitedUnexpectedly(m.restart, now, allowed, ExitReason(w.exit)));
      managed := managed[k := m];
      return true;
    }

    method Tend(k: Kind, start: StartOutcome, now: nat, allowed: bool, known: bool)
      requires k in managed
      modifies this
      ensures State() == TendedIn(old(State()), k, start, now, allowed, known)
    {
      var m := managed[k];
      if m.running {
        if m.startedAt.Some? && now >= m.startedAt.value + RESTART_STABLE_AFTER {
          m := m.(restart := NewRestart);
          managed := managed[k := m.(startedAt := None)];
        }
        return;
      }
      if !known {
        return;
      }
      if Ready(m.restart, now, allowed) {
        StartManaged(k, start, now, allowed);
      }
    }

    method SuperviseCollector(k: Kind, permissions: Option<Report>, w: Weather, now: nat) returns (ok: bool)
      modifies this
      ensures Supervised(State(), ok) == SupervisedIn(old(State()), k, permissions, w, now)
    {
      if k !in managed {
        return true;
      }
      var allowed := RestartAllowed(State(), k, permissions, w.needs);
      ok := true;
      if HasDied(managed[k], w.finished) {
        ok := Reap(k, w, now, allowed);
        if !ok {
          return;
        }
      }
      Tend(k, w.start, now, allowed, PermissionsKnown(permissions, w.needs));
    }

    /** One supervision round, in start order; the first relay that cannot be joined ends it. */
    method Supervise(permissions: Option<Report>, env: Env, now: nat) returns (ok: bool)
      modifies this
      ensures Supervised(State(), ok) == SupervisedFirst(old(State()), |START_ORDER|, permissions, env, now)
    {
      SupervisedRound(State(), permissions, env, now);
      var wasRunning := ContentSnapshot in managed && managed[ContentSnapshot].running;
      ok := SuperviseCollector(ContentSnapshot, permissions, env(ContentSnapshot), now);
      if !ok {
        return;
      }
      if !wasRunning {
        ClearFilterFailureAfterStart();
      }
      ok := SuperviseCollector(Ax, permissions, env(Ax), now);
      if !ok {
        return;
      }
      ok := SuperviseCollector(Chrome, permissions, env(Chrome), now);
      if !ok {
        return;
      }
      if WorkspaceMainThread !in failures {
        ok := SuperviseCollector(Workspace, permissions, env(Workspace), now);
        if !ok {
          return;
        }
      }
      if gate && EventTapMainThread !in failures {
        ok := SuperviseCollector(EventTap, permissions, env(EventTap), now);
      }
    }

    method RemoveChrome(exit: RelayExit, own: nat)
      modifies this
      ensures State() == WithoutChrome(old(State()), exit, own)
    {
      StopCollector(Chrome, Discard, exit);
      if Chrome in managed {
        retained := SaturatingAdd(retained, SaturatingAdd(own, managed[Chrome].relayDropped));
        managed := managed - {Chrome};
      }
      startErrors := startErrors - {Chrome};
    }

    method SettleBrowser(exit: RelayExit, own: nat)
      modifies this
      ensures State() == BrowserSettled(old(State()), exit, own)
    {
      var required := targets != {};
      if required && Chrome !in managed {
        managed := managed[Chrome := NewManaged];
      } else if !required && Chrome in managed {
        RemoveChrome(exit, own);
      }
    }

    /** The filter changes under the running collectors; only the browser collector can come or go. */
    method ReplaceFilter(newTargets: set<Capability>, content: Option<bool>, exit: RelayExit, own: nat)
      modifies this
      ensures State() == WithFilter(old(State()), newTargets, content, exit, own)
    {
      if newTargets != targets && Chrome in managed {
        RemoveChrome(exit, own);
      }
      assert State() == BrowserCut(old(State()), newTargets, exit, own);
      if ContentSnapshot in managed && content.Some? {
        failures := if content.value then failures - {ContentSnapshotFilter} else failures + {ContentSnapshotFilter};
      }
      targets := newTargets;
      SettleBrowser(exit, own);
    }
  }

  /** What ending a relay yields: nothing if it cannot be joined, else what was dropped on the way. */
  function RelayEnds(relay: Relay, mode: StopMode, exit: RelayExit): Option<nat> {
    if !relay.joinable || exit.Panicked? then None
    else if mode.Discard? && exit.Stopped? then Some(exit.dropped) else Some(0)
  }

  /** The five turns of a round, unrolled. */
  lemma SupervisedRound(s: SetState, permissions: Option<Report>, env: Env, now: nat)
    ensures
      var r0 := SupervisedKind(s, ContentSnapshot, permissions, env, now);
      var r1 := if r0.ok then SupervisedKind(r0.state, Ax, permissions, env, now) else r0;
      var r2 := if r1.ok then SupervisedKind(r1.state, Chrome, permissions, env, now) else r1;
      var r3 := if r2.ok then SupervisedKind(r2.state, Workspace, permissions, env, now) else r2;
      var r4 := if r3.ok then SupervisedKind(r3.state, EventTap, permissions, env, now) else r3;
      SupervisedFirst(s, |START_ORDER|, permissions, env, now) == r4
  {
    assert SupervisedFirst(s, 1, permissions, env, now) == SupervisedKind(s, ContentSnapshot, permissions, env, now);
    var r2 := SupervisedFirst(s, 2, permissions, env, now);
    var r3 := SupervisedFirst(s, 3, permissions, env, now);
    var r4 := SupervisedFirst(s, 4, permissions, env, now);
    assert START_ORDER[1] == Ax && START_ORDER[2] == Chrome && START_ORDER[3] == Workspace && START_ORDER[4] == EventTap;
  }
}
