/**
  The recorder's run loop: pause, store back-off, permission requests, filter reloads and
  supervision acting on one set of collectors, with the environment's answers as parameters.
 */
module Recorder {
  import opened Common
  import opened Supervisor
  import PauseCells

  datatype Component = StoreIntake | PermissionRequest | Permissions | ConfigFile

  /** `worker` is whether a permission request is in flight; `pending` the next one to make. */
  datatype Daemon = Daemon(collectors: SetState, paused: bool, suspended: bool, worker: bool,
                           pending: Option<set<Capability>>, degraded: set<Component>)

  datatype Outcome = Continue | Finished | Failed

  datatype Stepped = Stepped(daemon: Daemon, outcome: Outcome)

  function Checked(d: Daemon, ok: bool): Stepped {
    Stepped(d, if ok then Continue else Failed)
  }

  // ---------------------------------------------------------------- permission requests

  datatype Poll = Pending | Completed | TimedOut | RequestFailed | WorkerStopped

  function PendingStarted(d: Daemon, requestStarts: bool): Daemon {
    if d.worker || d.pending.None? then d
    else d.(pending := None, worker := requestStarts,
            degraded := if requestStarts then d.degraded else d.degraded + {PermissionRequest})
  }

  /** However the request ended, the gate opens, and EventTap starts if capture is on. */
  function RequestEnded(d: Daemon, poll: Poll, start: StartOutcome, now: nat): Daemon {
    var unlocked := d.collectors.(gate := true);
    d.(worker := false,
       degraded := if poll.Completed? then d.degraded - {PermissionRequest} else d.degraded + {PermissionRequest},
       collectors := if !d.paused && !d.suspended && MayStart(unlocked, EventTap)
                     then StartedIn(unlocked, EventTap, start, now, true) else unlocked)
  }

  function Polled(d: Daemon, poll: Poll, requestStarts: bool, start: StartOutcome, now: nat): Daemon {
    PendingStarted(if !d.worker || poll.Pending? then d else RequestEnded(d, poll, start, now), requestStarts)
  }

  function Queued(previous: set<Capability>, current: set<Capability>, pending: Option<set<Capability>>): Option<set<Capability>> {
    if !(current <= previous) then Some(current)
    else if current != previous then None
    else pending
  }

  // ---------------------------------------------------------------- store intake and pause

  /** `intake` is what the store's health says, or nothing if it cannot be read. */
  function Synced(d: Daemon, intake: Option<bool>, beat: bool, env: Env, now: nat): Stepped {
    if intake.None? then Stepped(d, Failed)
    else if !intake.value && !d.suspended then
      Checked(d.(collectors := StoppedFirst(d.collectors, |STOP_ORDER|, Discard, env), suspended := true,
                 degraded := d.degraded + {StoreIntake}), beat)
    else if intake.value && d.suspended then
      Checked(d.(collectors := if d.paused then d.collectors else StartedFirst(d.collectors, |START_ORDER|, env, now), suspended := false,
                 degraded := d.degraded - {StoreIntake}), beat)
    else Stepped(d, Continue)
  }

  /** `requested` is whether a pause is asked for, or nothing if that cannot be told. */
  function PauseUpdated(d: Daemon, requested: Option<bool>, flushed: bool, env: Env, now: nat): Stepped {
    if requested.None? then Stepped(d, Failed)
    else if requested.value && !d.paused then
      var stopped := d.(collectors := StoppedFirst(d.collectors, |STOP_ORDER|, Drain, env));
      if flushed then Stepped(stopped.(paused := true), Continue) else Stepped(stopped, Failed)
    else if !requested.value && d.paused then
      Stepped(d.(collectors := if d.suspended then d.collectors else StartedFirst(d.collectors, |START_ORDER|, env, now), paused := false), Continue)
    else Stepped(d, Continue)
  }

  // ---------------------------------------------------------------- configuration

  /**
    One look at the configuration file. `accepted` is whether the pipeline took the new filter,
    `retention` whether the retention step that follows succeeded.
   */
  datatype ConfigPoll =
    | Unchanged(retention: bool)
    | Unreadable
    | Reloaded(targets: set<Capability>, needs: Kind -> set<Capability>, accepted: bool, content: Option<bool>,
               exit: RelayExit, own: nat, requestStarts: bool, retention: bool)

  /** What a new filter that the pipeline has taken does, apart from its retention step. */
  function Refiltered(d: Daemon, poll: ConfigPoll): Daemon
    requires poll.Reloaded?
  {
    var filtered := WithFilter(d.collectors, poll.targets, poll.content, poll.exit, poll.own);
    var queued := Queued(RequiredCapabilities(d.collectors, poll.needs), RequiredCapabilities(filtered, poll.needs), d.pending);
    var asked := PendingStarted(d.(collectors := filtered, pending := queued), poll.requestStarts);
    asked.(degraded := asked.degraded - {ConfigFile})
  }

  function Reconfigured(d: Daemon, poll: ConfigPoll): Stepped {
    match poll
    case Unchanged(retention) => Checked(d, retention)
    case Unreadable => Stepped(d.(degraded := d.degraded + {ConfigFile}), Continue)
    case Reloaded(_, _, accepted, _, _, _, _, retention) =>
      if accepted then Checked(Refiltered(d, poll), retention) else Stepped(d, Failed)
  }

  // ---------------------------------------------------------------- heartbeat

  datatype Beat = Beat(executableGone: bool, pipelineFinished: bool, permissions: Option<Report>, published: bool)

  function Beaten(d: Daemon, beat: Beat, env: Env, now: nat): Stepped {
    if beat.executableGone then Stepped(d, Finished)
    else if beat.pipelineFinished then Stepped(d.(collectors := StoppedFirst(d.collectors, |STOP_ORDER|, Discard, env)), Failed)
    else if d.paused || d.suspended then Checked(d, beat.published)
    else
      var r := SupervisedFirst(d.collectors, |START_ORDER|, beat.permissions, env, now);
      Checked(d.(collectors := r.state), r.ok && beat.published)
  }

  // ---------------------------------------------------------------- the loop

  datatype Stdin = Open | Closed | Broken

  /** The environment's answers during one turn of the loop; a poll that is not yet due is absent. */
  datatype Tick = Tick(stop: bool, stdin: Stdin,
                       poll: Poll, requestStarts: bool, pollEnv: Env,
                       intake: Option<bool>, intakeBeat: bool, intakeEnv: Env,
                       pause: Option<PauseCells.PauseRead>, flushed: bool, pauseEnv: Env,
                       config: Option<ConfigPoll>, purged: bool,
                       beat: Option<Beat>, beatEnv: Env, now: nat)

  function AfterSync(d: Daemon, t: Tick): Stepped {
    Synced(Polled(d, t.poll, t.requestStarts, t.pollEnv(EventTap).start, t.now), t.intake, t.intakeBeat, t.intakeEnv, t.now)
  }

  function AfterPause(d: Daemon, t: Tick): Stepped {
    var r := AfterSync(d, t);
    if !r.outcome.Continue? || t.pause.None? then r else PauseUpdated(r.daemon, PauseCells.Answer(t.pause.value), t.flushed, t.pauseEnv, t.now)
  }

  function AfterConfig(d: Daemon, t: Tick): Stepped {
    var r := AfterPause(d, t);
    if !r.outcome.Continue? || t.config.None? then r else Reconfigured(r.daemon, t.config.value)
  }

  function AfterPurge(d: Daemon, t: Tick): Stepped {
    var r := AfterConfig(d, t);
    if r.outcome.Continue? then Checked(r.daemon, t.purged) else r
  }

  function Turn(d: Daemon, t: Tick): Stepped {
    if t.stop || t.stdin.Closed? then Stepped(d, Finished)
    else if t.stdin.Broken? then Stepped(d, Failed)
    else
      var r := AfterPurge(d, t);
      if !r.outcome.Continue? || t.beat.None? then r else Beaten(r.daemon, t.beat.value, t.beatEnv, t.now)
  }

  function Turns(d: Daemon, ticks: seq<Tick>): Stepped
    decreases |ticks|
  {
    if ticks == [] then Stepped(d, Continue)
    else
      var r := Turn(d, ticks[0]);
      if r.outcome.Continue? then Turns(r.daemon, ticks[1..]) else r
  }

  // ---------------------------------------------------------------- start and end of a run

  /** What is known about input monitoring when the run begins. */
  datatype InputStatus = NotAsked | Granted | Denied | StatusError

  function GateConfigured(d: Daemon, status: InputStatus): Daemon {
    d.(collectors := if status.Denied? || status.StatusError? then d.collectors.(gate := false) else d.collectors,
       degraded := if status.StatusError? then d.degraded + {Permissions} else d.degraded)
  }

  /** The answers before the loop is entered. */
  datatype Opening = Opening(stop: bool, pause: PauseCells.PauseRead, status: InputStatus, env: Env,
                             poll: Poll, requestStarts: bool, pollEnv: Env, published: bool, now: nat)

  function Opened(d: Daemon, o: Opening): Stepped {
    if o.stop then Stepped(d, Finished)
    else if PauseCells.Answer(o.pause).None? then Stepped(d, Failed)
    else
      var gated := GateConfigured(d.(paused := PauseCells.Answer(o.pause).value), o.status);
      var started := if gated.paused then gated else gated.(collectors := StartedFirst(gated.collectors, |START_ORDER|, o.env, o.now));
      Checked(Polled(started, o.poll, o.requestStarts, o.pollEnv(EventTap).start, o.now), o.published)
  }

  function Ran(d: Daemon, o: Opening, ticks: seq<Tick>): Stepped {
    var r := Opened(d, o);
    if r.outcome.Continue? then Turns(r.daemon, ticks) else r
  }

  /** The last answers: whether the pipeline has ended, and whether the store still takes events. */
  datatype Closing = Closing(pipelineFinished: bool, intake: Option<bool>, env: Env)

  function ShutDown(d: Daemon, c: Closing): Daemon {
    var mode := if c.pipelineFinished || c.intake != Some(true) then Discard else Drain;
    d.(collectors := StoppedFirst(d.collectors, |STOP_ORDER|, mode, c.env))
  }

  /** What the run is given: a new set of collectors, a permission request in flight, nothing else. */
  ghost predicate Fresh(d: Daemon) {
    && Good(d.collectors) && NoneRuns(d.collectors) && d.collectors.gate && d.collectors.calls == []
    && !d.paused && !d.suspended && d.worker && StoreIntake !in d.degraded
  }

  // ---------------------------------------------------------------- safety

  /** What no failure can break: capture is off when it must be, and gates and failed producers are respected. */
  ghost predicate Contained(d: Daemon) {
    && Gated(d.collectors) && Logged(d.collectors)
    && (d.paused || d.suspended ==> NoneRuns(d.collectors))
    && (!d.collectors.gate ==> d.worker)
    && (StoreIntake in d.degraded <==> d.suspended)
  }

  /** Between operations also: each collector runs exactly while it holds a relay. */
  ghost predicate Safe(d: Daemon) {
    Contained(d) && Paired(d.collectors)
  }

  ghost predicate Sound(r: Stepped) {
    Contained(r.daemon) && (r.outcome.Continue? ==> Safe(r.daemon))
  }

  /** An operation's result is sound, and it has not closed the gate. */
  ghost predicate SoundAfter(d: Daemon, r: Stepped) {
    Sound(r) && (d.collectors.gate ==> r.daemon.collectors.gate)
  }

  lemma PolledIsSafe(d: Daemon, poll: Poll, requestStarts: bool, start: StartOutcome, now: nat)
    requires Safe(d)
    ensures Safe(Polled(d, poll, requestStarts, start, now))
    ensures d.collectors.gate ==> Polled(d, poll, requestStarts, start, now).collectors.gate
  {
    if d.worker && !poll.Pending? {
      RequestEndedIsSafe(d, poll, start, now);
    }
  }

  lemma RequestEndedIsSafe(d: Daemon, poll: Poll, start: StartOutcome, now: nat)
    requires Safe(d)
    ensures Safe(RequestEnded(d, poll, start, now)) && RequestEnded(d, poll, start, now).collectors.gate
  {
    var unlocked := d.collectors.(gate := true);
    NothingLogged(d.collectors, unlocked);
    StartLogged(unlocked, EventTap, start, now, true);
  }

  lemma SyncedIsSound(d: Daemon, intake: Option<bool>, beat: bool, env: Env, now: nat)
    requires Safe(d)
    ensures SoundAfter(d, Synced(d, intake, beat, env, now))
  {
    StopLeavesNothing(d.collectors, Discard, env);
    StopRoundLogged(d.collectors, |STOP_ORDER|, Discard, env);
    StartKeepsGood(d.collectors, env, now);
    StartRoundLogged(d.collectors, |START_ORDER|, env, now);
  }

  lemma PauseUpdatedIsSound(d: Daemon, requested: Option<bool>, flushed: bool, env: Env, now: nat)
    requires Safe(d)
    ensures SoundAfter(d, PauseUpdated(d, requested, flushed, env, now))
  {
    StopLeavesNothing(d.collectors, Drain, env);
    StopRoundLogged(d.collectors, |STOP_ORDER|, Drain, env);
    StartKeepsGood(d.collectors, env, now);
    StartRoundLogged(d.collectors, |START_ORDER|, env, now);
  }

  /**
    One poll of the stored pause, with commands writing and time passing between its steps. While
    a live pause stands, even one that takes the place of another, the recorder is paused after the
    poll and nothing runs, unless the poll failed and ends the run; and the recorder resumes only
    if at some moment of the poll no live pause was stored.
   */
  lemma NeverResumesOverAPause(d: Daemon, p: PauseCells.Poll, steps: seq<PauseCells.Step>, deadlines: PauseCells.Deadlines,
                               n: nat, flushed: bool, env: Env, now: nat)
    requires Safe(d) && p.phase.Idle? && n <= |steps| && PauseCells.After(p, steps, deadlines, n).phase.Answered?
    ensures
      var r := PauseUpdated(d, PauseCells.After(p, steps, deadlines, n).phase.requested, flushed, env, now);
      && ((forall m :: 0 <= m <= n ==> PauseCells.LiveAfter(p, steps, deadlines, m)) ==>
            r.outcome.Failed? || (r.daemon.paused && NoneRuns(r.daemon.collectors)))
      && (d.paused && !r.daemon.paused ==> exists m :: 0 <= m <= n && !PauseCells.LiveAfter(p, steps, deadlines, m))
  {
    var answer := PauseCells.After(p, steps, deadlines, n).phase.requested;
    PauseUpdatedIsSound(d, answer, flushed, env, now);
    if answer == Some(false) {
      var at := PauseCells.ResumesOnlyWhenFree(p, steps, deadlines, n);
    }
  }

  lemma FilterIsSafe(s: SetState, targets: set<Capability>, content: Option<bool>, exit: RelayExit, own: nat)
    requires Good(s) && Logged(s)
    ensures
      var t := WithFilter(s, targets, content, exit, own);
      Good(t) && Logged(t) && t.gate == s.gate && (forall k :: Runs(t, k) ==> Runs(s, k)) && (NoneRuns(s) ==> NoneRuns(t))
  {
    FilterKeepsGood(s, targets, content, exit, own);
    FilterLogged(s, targets, content, exit, own);
    WithFilterIs(s, targets, content, exit, own);
  }

  lemma RefilteredIsSafe(d: Daemon, poll: ConfigPoll)
    requires Safe(d) && poll.Reloaded?
    ensures Safe(Refiltered(d, poll)) && Refiltered(d, poll).collectors.gate == d.collectors.gate
    ensures forall k :: Runs(Refiltered(d, poll).collectors, k) ==> Runs(d.collectors, k)
  {
    FilterIsSafe(d.collectors, poll.targets, poll.content, poll.exit, poll.own);
  }

  /**
    A configuration poll keeps the recorder sound. Only a filter the pipeline has taken reaches the
    collectors: when it refuses, the loop ends with the collectors as they were; and no filter
    makes a collector run that did not.
   */
  lemma ReconfiguredIsSound(d: Daemon, poll: ConfigPoll)
    requires Safe(d)
    ensures SoundAfter(d, Reconfigured(d, poll))
    ensures !poll.Reloaded? || !poll.accepted ==> Reconfigured(d, poll).daemon.collectors == d.collectors
    ensures poll.Reloaded? && !poll.accepted ==> Reconfigured(d, poll).outcome == Failed
    ensures forall k :: Runs(Reconfigured(d, poll).daemon.collectors, k) ==> Runs(d.collectors, k)
  {
    if poll.Reloaded? {
      RefilteredIsSafe(d, poll);
    }
  }

  /**
    A heartbeat keeps the recorder sound. It touches the collectors only while capture is on, unless
    the pipeline has ended: then nothing runs any more and the loop fails.
   */
  lemma BeatenIsSound(d: Daemon, beat: Beat, env: Env, now: nat)
    requires Safe(d)
    ensures SoundAfter(d, Beaten(d, beat, env, now))
    ensures beat.executableGone || (!beat.pipelineFinished && (d.paused || d.suspended)) ==>
      Beaten(d, beat, env, now).daemon.collectors == d.collectors
    ensures !beat.executableGone && beat.pipelineFinished ==>
      NoneRuns(Beaten(d, beat, env, now).daemon.collectors) && Beaten(d, beat, env, now).outcome == Failed
  {
    StopLeavesNothing(d.collectors, Discard, env);
    StopRoundLogged(d.collectors, |STOP_ORDER|, Discard, env);
    SupervisedFirstIs(d.collectors, |START_ORDER|, beat.permissions, env, now);
    SuperviseRoundLogged(d.collectors, |START_ORDER|, beat.permissions, env, now);
  }

  lemma AfterPauseIsSound(d: Daemon, t: Tick)
    requires Safe(d)
    ensures SoundAfter(d, AfterPause(d, t))
  {
    var polled := Polled(d, t.poll, t.requestStarts, t.pollEnv(EventTap).start, t.now);
    PolledIsSafe(d, t.poll, t.requestStarts, t.pollEnv(EventTap).start, t.now);
    SyncedIsSound(polled, t.intake, t.intakeBeat, t.intakeEnv, t.now);
    var r := AfterSync(d, t);
    if r.outcome.Continue? && t.pause.Some? {
      PauseUpdatedIsSound(r.daemon, PauseCells.Answer(t.pause.value), t.flushed, t.pauseEnv, t.now);
    }
  }

  lemma AfterConfigIsSound(d: Daemon, t: Tick)
    requires Safe(d)
    ensures SoundAfter(d, AfterConfig(d, t))
  {
    AfterPauseIsSound(d, t);
    var r := AfterPause(d, t);
    if r.outcome.Continue? && t.config.Some? {
      ReconfiguredIsSound(r.daemon, t.config.value);
    }
  }

  lemma TurnIsSound(d: Daemon, t: Tick)
    requires Safe(d)
    ensures SoundAfter(d, Turn(d, t))
  {
    AfterConfigIsSound(d, t);
    var r := AfterPurge(d, t);
    if r.outcome.Continue? && t.beat.Some? {
      BeatenIsSound(r.daemon, t.beat.value, t.beatEnv, t.now);
    }
  }

  /** However long the loop runs and whatever the environment answers, its state stays sound. */
  lemma {:induction false} TurnsAreSound(d: Daemon, ticks: seq<Tick>)
    requires Safe(d)
    ensures Sound(Turns(d, ticks)) && (d.collectors.gate ==> Turns(d, ticks).daemon.collectors.gate)
    decreases |ticks|
  {
    if ticks != [] {
      TurnIsSound(d, ticks[0]);
      var r := Turn(d, ticks[0]);
      if r.outcome.Continue? {
        TurnsAreSound(r.daemon, ticks[1..]);
      }
    }
  }

  lemma OpenedIsSound(d: Daemon, o: Opening)
    requires Fresh(d)
    ensures Sound(Opened(d, o))
  {
    if !o.stop && PauseCells.Answer(o.pause).Some? {
      var gated := GateConfigured(d.(paused := PauseCells.Answer(o.pause).value), o.status);
      NothingLogged(d.collectors, gated.collectors);
      StartKeepsGood(gated.collectors, o.env, o.now);
      StartRoundLogged(gated.collectors, |START_ORDER|, o.env, o.now);
      var started := if gated.paused then gated else gated.(collectors := StartedFirst(gated.collectors, |START_ORDER|, o.env, o.now));
      PolledIsSafe(started, o.poll, o.requestStarts, o.pollEnv(EventTap).start, o.now);
    }
  }

  /**
    Every run, under any order of pauses, back-offs, permission results, filter reloads, worker
    exits and failures: whenever it is paused or its intake is suspended no collector runs, and
    EventTap runs only behind an open gate. Cutting the ticks short gives every earlier state.
   */
  lemma EveryRunIsSound(d: Daemon, o: Opening, ticks: seq<Tick>)
    requires Fresh(d)
    ensures Sound(Ran(d, o, ticks))
  {
    OpenedIsSound(d, o);
    var r := Opened(d, o);
    if r.outcome.Continue? {
      TurnsAreSound(r.daemon, ticks);
    }
  }

  /** However the run ended, shutting down leaves no worker started, and every start has its stop. */
  lemma ShutDownStopsEverything(d: Daemon, o: Opening, ticks: seq<Tick>, c: Closing)
    requires Fresh(d)
    ensures
      var log := ShutDown(Ran(d, o, ticks).daemon, c).collectors.calls;
      && NoneRuns(ShutDown(Ran(d, o, ticks).daemon, c).collectors)
      && Alternates(log) && (forall k :: !LeftRunning(log, k))
  {
    EveryRunIsSound(d, o, ticks);
    var last := Ran(d, o, ticks).daemon.collectors;
    var mode := if c.pipelineFinished || c.intake != Some(true) then Discard else Drain;
    StopLeavesNothing(last, mode, c.env);
    StopRoundLogged(last, |STOP_ORDER|, mode, c.env);
  }

  // ---------------------------------------------------------------- capture comes back

  /** What a start attempt leaves: the collector runs, or its restart is on the clock. */
  predicate Tried(s: SetState, k: Kind) {
    k in s.managed && MayStart(s, k) ==>
      s.managed[k].running || s.managed[k].restart.nextAttempt.Some?
  }

  /**
    Capture comes back with whichever of pause and back-off is lifted last: then every collector
    that may start has been tried; while the other still holds, nothing starts.
   */
  lemma CaptureResumes(d: Daemon, env: Env, now: nat, beat: bool, flushed: bool, k: Kind)
    requires Safe(d)
    ensures d.suspended ==>
      var t := Synced(d, Some(true), beat, env, now).daemon;
      !t.suspended && (if d.paused then t.collectors == d.collectors else Tried(t.collectors, k))
    ensures d.paused ==>
      var t := PauseUpdated(d, Some(false), flushed, env, now).daemon;
      !t.paused && (if d.suspended then t.collectors == d.collectors else Tried(t.collectors, k))
  {
    StartedFirstIs(d.collectors, |START_ORDER|, env, now, k);
  }

  /** A closed gate always has a request in flight, which opens it however it ends; once open it stays open. */
  lemma GateOpensForGood(d: Daemon, ticks: seq<Tick>, poll: Poll, requestStarts: bool, start: StartOutcome, now: nat)
    requires Safe(d)
    ensures !poll.Pending? ==> Polled(d, poll, requestStarts, start, now).collectors.gate
    ensures d.collectors.gate ==> Turns(d, ticks).daemon.collectors.gate
  {
    RequestEndedIsSafe(d, poll, start, now);
    TurnsAreSound(d, ticks);
  }
}
