/**
  The active recorder: the run loop's fields, updated in place, and its loop over turns. Each
  method moves the state as the functions of Recorder say, so what is proved there holds of it.
 */
module ActiveDaemons {
  import opened Common
  import opened Supervisor
  import opened CollectorSets
  import opened Recorder
  import PauseCells

  class ActiveDaemon {
    const collectors: CollectorSet
    var paused: bool
    var suspended: bool
    var worker: bool
    var pending: Option<set<Capability>>
    var degraded: set<Component>

    function State(): Daemon
      reads this, collectors
    {
      Daemon(collectors.State(), paused, suspended, worker, pending, degraded)
    }

    constructor (collectors: CollectorSet, degraded: set<Component>)
      ensures this.collectors == collectors
      ensures State() == Daemon(collectors.State(), false, false, true, None, degraded)
    {
      this.collectors := collectors;
      paused := false;
      suspended := false;
      worker := true;
      pending := None;
      this.degraded := degraded;
    }

    method StartPendingPermissionRequest(requestStarts: bool)
      modifies this
      ensures State() == PendingStarted(old(State()), requestStarts)
    {
      if worker {
        return;
      }
      if pending.None? {
        return;
      }
      pending := None;
      if requestStarts {
        worker := true;
      } else {
        degraded := degraded + {PermissionRequest};
      }
    }

    method PollPermissionRequest(poll: Poll, requestStarts: bool, start: StartOutcome, now: nat)
      modifies this, collectors
      ensures State() == Polled(old(State()), poll, requestStarts, start, now)
    {
      var startNow := !paused && !suspended;
      if worker && !poll.Pending? {
        worker := false;
        if poll.Completed? {
          degraded := degraded - {PermissionRequest};
        } else {
          degraded := degraded + {PermissionRequest};
        }
        collectors.gate := true;
        if startNow {
          collectors.StartEventTap(start, now);
        }
      }
      StartPendingPermissionRequest(requestStarts);
    }

    method SyncStoreIntake(intake: Option<bool>, beat: bool, env: Env, now: nat) returns (outcome: Outcome)
      modifies this, collectors
      ensures Stepped(State(), outcome) == Synced(old(State()), intake, beat, env, now)
    {
      if intake.None? {
        return Failed;
      }
      if !intake.value && !suspended {
        collectors.Suspend(env);
        suspended := true;
        degraded := degraded + {StoreIntake};
        return if beat then Continue else Failed;
      }
      if intake.value && suspended {
        suspended := false;
        degraded := degraded - {StoreIntake};
        if !paused {
          collectors.Start(env, now);
        }
        return if beat then Continue else Failed;
      }
      return Continue;
    }

    method UpdatePauseState(requested: Option<bool>, flushed: bool, env: Env, now: nat) returns (outcome: Outcome)
      modifies this, collectors
      ensures Stepped(State(), outcome) == PauseUpdated(old(State()), requested, flushed, env, now)
    {
      if requested.None? {
        return Failed;
      }
      if requested.value && !paused {
        collectors.Stop(env);
        if !flushed {
          return Failed;
        }
        paused := true;
      } else if !requested.value && paused {
        if !suspended {
          collectors.Start(env, now);
        }
        paused := false;
      }
      return Continue;
    }

    method QueuePermissionExpansion(previous: set<Capability>, current: set<Capability>)
      modifies this`pending
      ensures pending == Queued(previous, current, old(pending))
    {
      if !(current <= previous) {
        pending := Some(current);
      } else if current != previous {
        pending := None;
      }
    }

    method PollConfig(poll: ConfigPoll) returns (outcome: Outcome)
      modifies this, collectors
      ensures Stepped(State(), outcome) == Reconfigured(old(State()), poll)
    {
      match poll
      case Unchanged(retention) =>
        return if retention then Continue else Failed;
      case Unreadable =>
        degraded := degraded + {ConfigFile};
        return Continue;
      case Reloaded(targets, needs, accepted, content, exit, own, requestStarts, retention) =>
        var previous := RequiredCapabilities(collectors.State(), needs);
        if !accepted {
          return Failed;
        }
        collectors.ReplaceFilter(targets, content, exit, own);
        QueuePermissionExpansion(previous, RequiredCapabilities(collectors.State(), needs));
        StartPendingPermissionRequest(requestStarts);
        degraded := degraded - {ConfigFile};
        return if retention then Continue else Failed;
    }

    method Heartbeat(beat: Beat, env: Env, now: nat) returns (outcome: Outcome)
      modifies this, collectors
      ensures Stepped(State(), outcome) == Beaten(old(State()), beat, env, now)
    {
      if beat.executableGone {
        return Finished;
      }
      if beat.pipelineFinished {
        collectors.Suspend(env);
        return Failed;
      }
      var supervised := true;
      if !paused && !suspended {
        supervised := collectors.Supervise(beat.permissions, env, now);
      }
      return if supervised && beat.published then Continue else Failed;
    }

    method OneTurn(t: Tick) returns (outcome: Outcome)
      modifies this, collectors
      ensures Stepped(State(), outcome) == Turn(old(State()), t)
    {
      if t.stop || t.stdin.Closed? {
        return Finished;
      }
      if t.stdin.Broken? {
        return Failed;
      }
      PollPermissionRequest(t.poll, t.requestStarts, t.pollEnv(EventTap).start, t.now);
      outcome := SyncStoreIntake(t.intake, t.intakeBeat, t.intakeEnv, t.now);
      if outcome.Continue? && t.pause.Some? {
        outcome := UpdatePauseState(PauseCells.Answer(t.pause.value), t.flushed, t.pauseEnv, t.now);
      }
      if outcome.Continue? && t.config.Some? {
        outcome := PollConfig(t.config.value);
      }
      if outcome.Continue? && !t.purged {
        return Failed;
      }
      if outcome.Continue? && t.beat.Some? {
        outcome := Heartbeat(t.beat.value, t.beatEnv, t.now);
      }
    }

    method RunLoop(ticks: seq<Tick>) returns (outcome: Outcome)
      requires Safe(State())
      modifies this, collectors
      ensures Stepped(State(), outcome) == Turns(old(State()), ticks)
      ensures Sound(Stepped(State(), outcome))
    {
      outcome := Continue;
      var i := 0;
      assert ticks[0..] == ticks;
      while i < |ticks| && outcome.Continue?
        invariant i <= |ticks|
        invariant Turns(old(State()), ticks) == if outcome.Continue? then Turns(State(), ticks[i..]) else Stepped(State(), outcome)
        invariant Sound(Stepped(State(), outcome))
        decreases |ticks| - i
      {
        TurnIsSound(State(), ticks[i]);
        assert ticks[i..][0] == ticks[i] && ticks[i..][1..] == ticks[i + 1..];
        outcome := OneTurn(ticks[i]);
        i := i + 1;
      }
    }

    method Open(o: Opening) returns (outcome: Outcome)
      modifies this, collectors
      ensures Stepped(State(), outcome) == Opened(old(State()), o)
    {
      if o.stop {
        return Finished;
      }
      var requested := PauseCells.Answer(o.pause);
      if requested.None? {
        return Failed;
      }
      paused := requested.value;
      if o.status.Denied? || o.status.StatusError? {
        collectors.gate := false;
      }
      if o.status.StatusError? {
        degraded := degraded + {Permissions};
      }
      if !paused {
        collectors.Start(o.env, o.now);
      }
      PollPermissionRequest(o.poll, o.requestStarts, o.pollEnv(EventTap).start, o.now);
      return if o.published then Continue else Failed;
    }

    /** A whole run from start to shutdown: nothing is left running, whichever way it ended. */
    method Run(o: Opening, ticks: seq<Tick>, c: Closing) returns (outcome: Outcome)
      requires Fresh(State())
      modifies this, collectors
      ensures outcome == Ran(old(State()), o, ticks).outcome
      ensures State() == ShutDown(Ran(old(State()), o, ticks).daemon, c)
      ensures NoneRuns(collectors.State()) && forall k :: !LeftRunning(collectors.calls, k)
    {
      OpenedIsSound(State(), o);
      ShutDownStopsEverything(State(), o, ticks, c);
      outcome := Open(o);
      if outcome.Continue? {
        outcome := RunLoop(ticks);
      }
      if c.pipelineFinished || c.intake != Some(true) {
        collectors.Suspend(c.env);
      } else {
        collectors.Stop(c.env);
      }
    }
  }
}
