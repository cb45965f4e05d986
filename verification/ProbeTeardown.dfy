/**
 One run of the OpenCode compatibility probe: the probe itself, its deadline and the signal handlers
 share a once-only teardown. Every await is a point where another actor may run, so the run is a
 transition system over the events that resume them.
 */
module ProbeTeardowns {
  /** The setup closure, by what it awaits; `Settled` once its promise is. */
  datatype Setup = NotStarted | MakingRoot | RootOnDisk | MakingDirectories | AllocatingPort | Settled(ok: bool)

  /** The shared teardown, by what it awaits. */
  datatype Teardown = Idle | AwaitingSetup | StoppingServer | RemovingRoot | RootGone | Completed | Failed

  /** `probeOpenCode`, by what it awaits. */
  datatype Probe = ReadingVersions | AwaitingStart | Checking | Finishing(ok: bool) | Returned(ok: bool)

  /** The deadline branch of the race. */
  datatype Deadline = Armed | AwaitingTeardown | Rejected | Cancelled

  /** Calls that are still at work on the disk, and those that have ended there, well or not, but not settled. */
  datatype Calls = Calls(working: nat, made: nat, failed: nat) {
    function Count(): nat { working + made + failed }
  }

  const NO_CALLS := Calls(0, 0, 0)

  datatype State = State(
    probe: Probe,
    setup: Setup,
    teardown: Teardown,
    deadline: Deadline,
    active: bool,           // `activeProbeTeardown` is set
    aborted: bool,          // `abandoned` was aborted
    signalled: bool,        // a signal handler awaits the teardown
    exited: bool,           // the process called `exit`
    rootExists: bool,       // the temp root is on disk
    rootKnown: bool,        // `isolatedRoot` is assigned
    mkdirs: Calls,          // recursive `mkdir`s below the root that have not settled
    spawns: nat,            // servers ever spawned
    serverAlive: bool,
    stops: nat              // calls of `stopServer`
  )

  const INITIAL := State(
    ReadingVersions, NotStarted, Idle, Armed, false, false, false, false, false, false, NO_CALLS, 0, false, 0)

  const ALL_DIRECTORIES := Calls(4, 0, 0)

  // The events that resume each actor. `ok` is false when the awaited work fails or a check throws; it
  // is the environment's choice. `MkdirActs`, `MkdirEnds` and `RootDeleted` are what happens on the disk
  // before the call that does it settles. A recursive `mkdir` makes missing parents one by one and starts
  // over when one is gone again, so until its own directory is made it may create the root, even repeatedly.

  datatype ProbeEvent = VersionsRead(ok: bool) | StartObserved | ChecksDone(ok: bool) | TeardownObserved

  datatype SetupEvent =
    | TempRootCreated(ok: bool)
    | RootAssigned
    | MkdirActs
    | MkdirEnds(ok: bool)
    | MkdirDone(ok: bool)
    | PortAllocated(ok: bool, spawnOk: bool)

  datatype TeardownEvent = SetupSeenSettled | ServerStopped(ok: bool) | RootDeleted | RemovalDone | RemovalFailed

  datatype OutsideEvent =
    | DeadlineExpired
    | DeadlineSawTeardown
    | RaceWon
    | Signal
    | SignalSawTeardown
    | ServerDied

  datatype Event =
    | OfProbe(probe: ProbeEvent)
    | OfSetup(setup: SetupEvent)
    | OfTeardown(teardown: TeardownEvent)
    | FromOutside(outside: OutsideEvent)

  predicate Over(t: Teardown) { t.Completed? || t.Failed? }

  predicate ProbeEnabled(s: State, e: ProbeEvent) {
    match e
    case VersionsRead(_) => s.probe.ReadingVersions?
    case StartObserved => s.probe.AwaitingStart? && s.setup.Settled?
    case ChecksDone(_) => s.probe.Checking?
    case TeardownObserved => s.probe.Finishing? && Over(s.teardown)
  }

  predicate SetupEnabled(s: State, e: SetupEvent) {
    match e
    case TempRootCreated(_) => s.setup.MakingRoot?
    case RootAssigned => s.setup.RootOnDisk?
    case MkdirActs => s.mkdirs.working > 0
    case MkdirEnds(_) => s.mkdirs.working > 0
    case MkdirDone(ok) => if ok then s.mkdirs.made > 0 else s.mkdirs.failed > 0
    case PortAllocated(_, _) => s.setup.AllocatingPort?
  }

  predicate TeardownEnabled(s: State, e: TeardownEvent) {
    match e
    case SetupSeenSettled => s.teardown.AwaitingSetup? && s.setup.Settled?
    case ServerStopped(_) => s.teardown.StoppingServer?
    case RootDeleted => s.teardown.RemovingRoot?
    case RemovalDone => s.teardown.RootGone?
    case RemovalFailed => s.teardown.RemovingRoot?
  }

  predicate OutsideEnabled(s: State, e: OutsideEvent) {
    match e
    case DeadlineExpired => s.deadline.Armed?
    case DeadlineSawTeardown => s.deadline.AwaitingTeardown? && Over(s.teardown)
    case RaceWon => s.deadline.Armed? && s.probe.Returned?
    case Signal => true
    case SignalSawTeardown => s.signalled && Over(s.teardown)
    case ServerDied => s.serverAlive
  }

  predicate Enabled(s: State, e: Event) {
    !s.exited &&
    match e
    case OfProbe(p) => ProbeEnabled(s, p)
    case OfSetup(u) => SetupEnabled(s, u)
    case OfTeardown(t) => TeardownEnabled(s, t)
    case FromOutside(o) => OutsideEnabled(s, o)
  }

  /** Calling the `once` wrapper: the first call starts the work, later ones share it. */
  function TeardownCalled(s: State): State {
    if s.teardown.Idle? then s.(teardown := AwaitingSetup) else s
  }

  /** The `finally` block: the handle is cleared before the teardown is awaited. */
  function Finally(s: State, ok: bool): State {
    TeardownCalled(s.(probe := Finishing(ok), active := false))
  }

  function ProbeStep(s: State, e: ProbeEvent): State
    requires ProbeEnabled(s, e)
  {
    match e
    case VersionsRead(ok) =>
      if !ok || s.aborted then s.(probe := Returned(false))
      else s.(probe := AwaitingStart, setup := MakingRoot, active := true)
    case StartObserved => if s.setup.ok then s.(probe := Checking) else Finally(s, false)
    case ChecksDone(ok) => Finally(s, ok)
    case TeardownObserved => s.(probe := Returned(s.probe.ok && s.teardown.Completed?))
  }

  function SetupStep(s: State, e: SetupEvent): State
    requires SetupEnabled(s, e)
  {
    match e
    case TempRootCreated(ok) =>
      if ok then s.(setup := RootOnDisk, rootExists := true) else s.(setup := Settled(false))
    case RootAssigned => s.(setup := MakingDirectories, rootKnown := true, mkdirs := ALL_DIRECTORIES)
    case MkdirActs => s.(rootExists := true)
    case MkdirEnds(ok) =>
      var c := s.mkdirs;
      if ok then s.(rootExists := true, mkdirs := Calls(c.working - 1, c.made + 1, c.failed))
      else s.(mkdirs := Calls(c.working - 1, c.made, c.failed + 1))
    // The first failure settles setup; the other calls go on.
    case MkdirDone(ok) =>
      var c := s.mkdirs;
      s.(mkdirs := if ok then c.(made := c.made - 1) else c.(failed := c.failed - 1),
         setup := if !s.setup.MakingDirectories? then s.setup
                  else if !ok then Settled(false)
                  else if c.Count() == 1 then AllocatingPort else s.setup)
    case PortAllocated(ok, spawnOk) =>
      if !ok || s.aborted || !spawnOk then s.(setup := Settled(false))
      else s.(setup := Settled(true), spawns := s.spawns + 1, serverAlive := true)
  }

  /** After the server part of the teardown. */
  function RemoveRootIfKnown(s: State): State {
    s.(teardown := if s.rootKnown then RemovingRoot else Completed)
  }

  function TeardownStep(s: State, e: TeardownEvent): State
    requires TeardownEnabled(s, e)
  {
    match e
    case SetupSeenSettled =>
      if s.spawns > 0 then s.(teardown := StoppingServer, stops := s.stops + 1) else RemoveRootIfKnown(s)
    case ServerStopped(ok) =>
      if ok then RemoveRootIfKnown(s.(serverAlive := false)) else s.(teardown := Failed)
    case RootDeleted => s.(teardown := RootGone, rootExists := false)
    case RemovalDone => s.(teardown := Completed)
    case RemovalFailed => s.(teardown := Failed)
  }

  function OutsideStep(s: State, e: OutsideEvent): State
    requires OutsideEnabled(s, e)
  {
    match e
    case DeadlineExpired =>
      var t := s.(aborted := true);
      if s.active then TeardownCalled(t).(deadline := AwaitingTeardown) else t.(deadline := Rejected)
    case DeadlineSawTeardown => s.(deadline := Rejected)
    case RaceWon => s.(deadline := Cancelled)
    case Signal => if s.active then TeardownCalled(s).(signalled := true) else s.(exited := true)
    case SignalSawTeardown => s.(exited := true)
    case ServerDied => s.(serverAlive := false)
  }

  function Step(s: State, e: Event): State
    requires Enabled(s, e)
  {
    match e
    case OfProbe(p) => ProbeStep(s, p)
    case OfSetup(u) => SetupStep(s, u)
    case OfTeardown(t) => TeardownStep(s, t)
    case FromOutside(o) => OutsideStep(s, o)
  }

  // ----- runs

  predicate Legal(s: State, events: seq<Event>)
    decreases |events|
  {
    events == [] || (Enabled(s, events[0]) && Legal(Step(s, events[0]), events[1..]))
  }

  function Run(s: State, events: seq<Event>): State
    requires Legal(s, events)
    decreases |events|
  {
    if events == [] then s else Run(Step(s, events[0]), events[1..])
  }

  ghost predicate Reachable(s: State) {
    exists events :: Legal(INITIAL, events) && Run(INITIAL, events) == s
  }

  /** Some promise has settled and its continuation has not run yet. */
  predicate MicrotaskPending(s: State) {
    || ProbeEnabled(s, StartObserved) || ProbeEnabled(s, TeardownObserved) || TeardownEnabled(s, SetupSeenSettled)
    || OutsideEnabled(s, DeadlineSawTeardown) || OutsideEnabled(s, RaceWon) || OutsideEnabled(s, SignalSawTeardown)
  }

  predicate IsMicrotask(e: Event) {
    match e
    case OfProbe(p) => p.StartObserved? || p.TeardownObserved?
    case OfTeardown(t) => t.SetupSeenSettled?
    case FromOutside(o) => o.DeadlineSawTeardown? || o.RaceWon? || o.SignalSawTeardown?
    case OfSetup(_) => false
  }

  /** The event loop runs all pending continuations before it turns to a timer, a signal or a finished call. */
  predicate InLoopOrder(s: State, events: seq<Event>)
    requires Legal(s, events)
    decreases |events|
  {
    events == [] ||
    ((IsMicrotask(events[0]) || !MicrotaskPending(s)) && InLoopOrder(Step(s, events[0]), events[1..]))
  }

  ghost predicate LoopReachable(s: State) {
    exists events :: Legal(INITIAL, events) && InLoopOrder(INITIAL, events) && Run(INITIAL, events) == s
  }

  // ----- the invariant

  ghost predicate SetupInv(s: State) {
    && (s.setup.NotStarted? <==> s.probe.ReadingVersions? || (s.probe.Returned? && s.teardown.Idle?))
    && (s.setup.NotStarted? || s.setup.MakingRoot? ==> !s.rootExists && !s.rootKnown)
    && (s.setup.RootOnDisk? ==> s.rootExists && !s.rootKnown)
    && (s.setup.MakingDirectories? || s.setup.AllocatingPort? ==> s.rootExists && s.rootKnown)
    && (s.rootExists ==> s.rootKnown || s.setup.RootOnDisk?)
    && (s.mkdirs != NO_CALLS ==> s.rootKnown && (s.setup.MakingDirectories? || s.setup == Settled(false)))
    && (s.setup.MakingDirectories? ==> s.mkdirs != NO_CALLS)
    && (s.spawns > 0 <==> s.setup == Settled(true))
    && s.spawns <= 1
    && (s.serverAlive ==> s.spawns == 1)
  }

  ghost predicate TeardownInv(s: State) {
    && (s.teardown.Idle? || s.teardown.AwaitingSetup? ==> s.stops == 0)
    && (!s.teardown.Idle? && !s.teardown.AwaitingSetup? ==> s.setup.Settled? && s.stops == s.spawns)
    && (s.teardown.StoppingServer? ==> s.spawns == 1)
    && (s.teardown.RemovingRoot? || s.teardown.RootGone? ==> s.rootKnown && !s.serverAlive)
    && (s.teardown.RootGone? || s.teardown.Completed? ==>
          !s.serverAlive && (s.rootExists ==> s.rootKnown && s.setup == Settled(false)))
    && (s.setup.NotStarted? ==> s.teardown.Idle?)
  }

  ghost predicate ActorsInv(s: State) {
    && (s.active <==> s.probe.AwaitingStart? || s.probe.Checking?)
    && (s.probe.Checking? ==> s.setup == Settled(true))
    && (s.probe.Finishing? ==> s.setup.Settled? && !s.teardown.Idle?)
    && (s.probe.Returned? ==> s.setup.NotStarted? || Over(s.teardown))
    && (s.probe.Returned? && s.probe.ok ==> s.teardown.Completed?)
    && (s.deadline.AwaitingTeardown? || s.signalled ==> !s.teardown.Idle?)
    && (s.deadline.Armed? ==> !s.aborted)
    && (s.deadline.Cancelled? ==> s.probe.Returned?)
  }

  ghost predicate Inv(s: State) { SetupInv(s) && TeardownInv(s) && ActorsInv(s) }

  lemma ProbeKeepsInv(s: State, e: ProbeEvent)
    requires Inv(s) && ProbeEnabled(s, e)
    ensures Inv(ProbeStep(s, e))
  {
    hide Finally;
    match e
    case StartObserved => FinallyKeepsInv(s, false);
    case ChecksDone(ok) => FinallyKeepsInv(s, ok);
    case _ =>
  }

  lemma FinallyKeepsInv(s: State, ok: bool)
    requires Inv(s) && s.setup.Settled? && (s.probe.AwaitingStart? || s.probe.Checking?)
    ensures Inv(Finally(s, ok))
  {
  }

  lemma SetupKeepsInv(s: State, e: SetupEvent)
    requires Inv(s) && SetupEnabled(s, e)
    ensures Inv(SetupStep(s, e))
  {
    hide SetupStep, SetupInv, TeardownInv, ActorsInv;
    SetupKeepsSetup(s, e);
    SetupKeepsTeardown(s, e);
    SetupKeepsActors(s, e);
  }

  lemma SetupKeepsSetup(s: State, e: SetupEvent)
    requires Inv(s) && SetupEnabled(s, e)
    ensures SetupInv(SetupStep(s, e))
  {
    hide TeardownInv, ActorsInv;
    match e
    case MkdirEnds(ok) =>
    case MkdirDone(ok) =>
    case PortAllocated(ok, spawnOk) =>
    case _ =>
  }

  lemma SetupKeepsTeardown(s: State, e: SetupEvent)
    requires Inv(s) && SetupEnabled(s, e)
    ensures TeardownInv(SetupStep(s, e))
  {
    hide ActorsInv;
    match e
    case MkdirDone(ok) =>
    case _ =>
  }

  lemma SetupKeepsActors(s: State, e: SetupEvent)
    requires Inv(s) && SetupEnabled(s, e)
    ensures ActorsInv(SetupStep(s, e))
  {
    match e
    case MkdirDone(ok) =>
    case _ =>
  }

  lemma RemoveRootKeepsInv(s: State)
    requires SetupInv(s) && ActorsInv(s) && s.setup.Settled? && !s.teardown.Idle? && !Over(s.teardown)
    requires s.stops == s.spawns && !s.serverAlive
    ensures Inv(RemoveRootIfKnown(s))
  {
  }

  lemma TeardownKeepsInv(s: State, e: TeardownEvent)
    requires Inv(s) && TeardownEnabled(s, e)
    ensures Inv(TeardownStep(s, e))
  {
    match e
    case SetupSeenSettled =>
      if s.spawns == 0 {
        RemoveRootKeepsInv(s);
      }
    case ServerStopped(ok) =>
      if ok {
        RemoveRootKeepsInv(s.(serverAlive := false));
      }
    case _ =>
  }

  lemma OutsideKeepsInv(s: State, e: OutsideEvent)
    requires Inv(s) && OutsideEnabled(s, e)
    ensures Inv(OutsideStep(s, e))
  {
    OutsideKeepsSetup(s, e);
    OutsideKeepsTeardown(s, e);
    OutsideKeepsActors(s, e);
  }

  lemma OutsideKeepsSetup(s: State, e: OutsideEvent)
    requires SetupInv(s) && ActorsInv(s) && OutsideEnabled(s, e)
    ensures SetupInv(OutsideStep(s, e))
  {
  }

  lemma OutsideKeepsTeardown(s: State, e: OutsideEvent)
    requires TeardownInv(s) && SetupInv(s) && ActorsInv(s) && OutsideEnabled(s, e)
    ensures TeardownInv(OutsideStep(s, e))
  {
  }

  lemma OutsideKeepsActors(s: State, e: OutsideEvent)
    requires ActorsInv(s) && OutsideEnabled(s, e)
    ensures ActorsInv(OutsideStep(s, e))
  {
  }

  lemma StepKeepsInv(s: State, e: Event)
    requires Inv(s) && Enabled(s, e)
    ensures Inv(Step(s, e))
  {
    hide Inv, ProbeStep, SetupStep, TeardownStep, OutsideStep;
    match e
    case OfProbe(p) => ProbeKeepsInv(s, p);
    case OfSetup(u) => SetupKeepsInv(s, u);
    case OfTeardown(t) => TeardownKeepsInv(s, t);
    case FromOutside(o) => OutsideKeepsInv(s, o);
  }

  lemma {:induction false} RunKeepsInv(s: State, events: seq<Event>)
    requires Inv(s) && Legal(s, events)
    ensures Inv(Run(s, events))
    decreases |events|
  {
    if events != [] {
      StepKeepsInv(s, events[0]);
      RunKeepsInv(Step(s, events[0]), events[1..]);
    }
  }

  lemma ReachableInv(s: State)
    requires Reachable(s)
    ensures Inv(s)
  {
    var events :| Legal(INITIAL, events) && Run(INITIAL, events) == s;
    RunKeepsInv(INITIAL, events);
  }

  // ----- what every interleaving guarantees

  /**
   The teardown moves on only after setup has settled, and from then on nothing new is started. When it
   completes, no server is left, and no temp root either unless the setup failed.
   */
  lemma TeardownIsComplete(s: State)
    requires Reachable(s)
    ensures !s.teardown.Idle? && !s.teardown.AwaitingSetup? ==> s.setup.Settled?
    ensures Over(s.teardown) ==> forall e: SetupEvent | Enabled(s, OfSetup(e)) ::
      e.MkdirActs? || e.MkdirEnds? || e.MkdirDone?
    ensures s.teardown.Completed? ==> !s.serverAlive && (s.rootExists ==> s.setup == Settled(false))
  {
    ReachableInv(s);
  }

  /** At most one server is ever spawned, and it goes through `stopServer` exactly once. */
  lemma ServerStoppedOnce(s: State)
    requires Reachable(s)
    ensures s.stops <= s.spawns <= 1
    ensures Over(s.teardown) ==> s.stops == s.spawns
  {
    ReachableInv(s);
  }

  /** The probe's own promise settles only when there was nothing to tear down or the teardown is over. */
  lemma ProbeReturnsAfterTeardown(s: State)
    requires Reachable(s) && s.probe.Returned?
    ensures s.setup.NotStarted? || Over(s.teardown)
    ensures s.probe.ok ==> s.teardown.Completed?
  {
    ReachableInv(s);
  }

  /** Events keep an aborted run from spawning: nothing is spawned after the deadline expired. */
  lemma {:induction false} NoSpawnAfterAbort(s: State, events: seq<Event>)
    requires s.aborted && Legal(s, events)
    ensures Run(s, events).spawns == s.spawns && Run(s, events).aborted
    decreases |events|
  {
    hide Step;
    if events != [] {
      AbortStays(s, events[0]);
      NoSpawnAfterAbort(Step(s, events[0]), events[1..]);
    }
  }

  lemma AbortStays(s: State, e: Event)
    requires s.aborted && Enabled(s, e)
    ensures Step(s, e).spawns == s.spawns && Step(s, e).aborted
  {
    hide ProbeStep, SetupStep, TeardownStep, OutsideStep;
    match e
    case OfProbe(p) => ProbeSpawnsNothing(s, p);
    case OfSetup(u) => AbortedSetupSpawnsNothing(s, u);
    case OfTeardown(t) => TeardownSpawnsNothing(s, t);
    case FromOutside(o) => OutsideSpawnsNothing(s, o);
  }

  lemma ProbeSpawnsNothing(s: State, e: ProbeEvent)
    requires ProbeEnabled(s, e)
    ensures ProbeStep(s, e).spawns == s.spawns && ProbeStep(s, e).aborted == s.aborted
  {
    hide ProbeEnabled, Finally;
    match e
    case StartObserved => FinallySpawnsNothing(s, false);
    case ChecksDone(ok) => FinallySpawnsNothing(s, ok);
    case _ =>
  }

  lemma FinallySpawnsNothing(s: State, ok: bool)
    ensures Finally(s, ok).spawns == s.spawns && Finally(s, ok).aborted == s.aborted
  {
  }

  lemma AbortedSetupSpawnsNothing(s: State, e: SetupEvent)
    requires s.aborted && SetupEnabled(s, e)
    ensures SetupStep(s, e).spawns == s.spawns && SetupStep(s, e).aborted
  {
    hide SetupEnabled;
    match e
    case MkdirEnds(ok) =>
    case MkdirDone(ok) =>
    case _ =>
  }

  lemma TeardownSpawnsNothing(s: State, e: TeardownEvent)
    requires TeardownEnabled(s, e)
    ensures TeardownStep(s, e).spawns == s.spawns && TeardownStep(s, e).aborted == s.aborted
  {
    hide TeardownEnabled;
    match e
    case SetupSeenSettled =>
    case ServerStopped(ok) =>
    case _ =>
  }

  lemma OutsideSpawnsNothing(s: State, e: OutsideEvent)
    requires OutsideEnabled(s, e)
    ensures OutsideStep(s, e).spawns == s.spawns && (s.aborted ==> OutsideStep(s, e).aborted)
  {
    hide OutsideEnabled;
    match e
    case DeadlineExpired =>
    case Signal =>
    case _ =>
  }

  /** A deadline that expires before setup means that nothing is ever created. */
  lemma {:induction false} EarlyDeadlineCreatesNothing(s: State, events: seq<Event>)
    requires Inv(s) && s.aborted && s.setup.NotStarted? && Legal(s, events)
    ensures var t := Run(s, events); t.setup.NotStarted? && t.spawns == 0 && !t.rootExists
    decreases |events|
  {
    if events != [] {
      StepKeepsInv(s, events[0]);
      EarlyDeadlineCreatesNothing(Step(s, events[0]), events[1..]);
    }
  }

  /** No actor waits for another for ever: when only outside events can still come, all work is done. */
  lemma NoDeadlock(s: State)
    requires Reachable(s) && !s.exited
    requires forall e: ProbeEvent :: !ProbeEnabled(s, e)
    requires forall e: SetupEvent :: !SetupEnabled(s, e)
    requires forall e: TeardownEvent :: !TeardownEnabled(s, e)
    ensures s.probe.Returned? && (s.setup.NotStarted? || Over(s.teardown))
    ensures s.deadline.AwaitingTeardown? ==> OutsideEnabled(s, DeadlineSawTeardown)
    ensures s.signalled ==> OutsideEnabled(s, SignalSawTeardown)
  {
    ReachableInv(s);
    assert !ProbeEnabled(s, VersionsRead(true)) && !ProbeEnabled(s, StartObserved);
    assert !ProbeEnabled(s, ChecksDone(true)) && !ProbeEnabled(s, TeardownObserved);
    assert !SetupEnabled(s, TempRootCreated(true)) && !SetupEnabled(s, RootAssigned);
    assert !SetupEnabled(s, MkdirActs) && !SetupEnabled(s, MkdirDone(true)) && !SetupEnabled(s, MkdirDone(false));
    assert !SetupEnabled(s, PortAllocated(true, true));
    assert !TeardownEnabled(s, SetupSeenSettled);
    assert !TeardownEnabled(s, ServerStopped(true)) && !TeardownEnabled(s, RootDeleted);
    assert !TeardownEnabled(s, RemovalDone);
  }

  // ----- the late `mkdir`

  ghost predicate RootRemoved(s: State) {
    (s.teardown.RootGone? || s.teardown.Completed?) && !s.rootExists
  }

  lemma RootStaysRemovedStep(s: State, e: Event)
    requires Inv(s) && RootRemoved(s) && s.mkdirs.working == 0 && Enabled(s, e)
    ensures RootRemoved(Step(s, e)) && Step(s, e).mkdirs.working == 0
  {
    hide OutsideEnabled, ProbeEnabled, Finally;
    match e
    case OfProbe(p) => ProbeLeavesRoot(s, p);
    case OfSetup(_) =>
    case OfTeardown(_) =>
    case FromOutside(o) => OutsideLeavesRoot(s, o);
  }

  lemma ProbeLeavesRoot(s: State, e: ProbeEvent)
    requires ProbeEnabled(s, e) && s.setup.Settled? && !s.teardown.Idle?
    ensures var t := ProbeStep(s, e); t.teardown == s.teardown && t.rootExists == s.rootExists && t.mkdirs == s.mkdirs
  {
    match e
    case VersionsRead(_) =>
    case StartObserved =>
    case ChecksDone(_) =>
    case TeardownObserved =>
  }

  lemma OutsideLeavesRoot(s: State, e: OutsideEvent)
    requires OutsideEnabled(s, e) && !s.teardown.Idle?
    ensures var t := OutsideStep(s, e); t.teardown == s.teardown && t.rootExists == s.rootExists && t.mkdirs == s.mkdirs
  {
    match e
    case DeadlineExpired =>
    case Signal =>
    case _ =>
  }

  lemma {:induction false} RootStaysRemoved(s: State, events: seq<Event>)
    requires Inv(s) && RootRemoved(s) && s.mkdirs.working == 0 && Legal(s, events)
    ensures !Run(s, events).rootExists
    decreases |events|
  {
    hide Step, Inv;
    if events != [] {
      StepKeepsInv(s, events[0]);
      RootStaysRemovedStep(s, events[0]);
      RootStaysRemoved(Step(s, events[0]), events[1..]);
    }
  }

  ghost predicate CanRecreateRoot(s: State) {
    exists events :: Legal(s, events) && Run(s, events).rootExists
  }

  /** A removed root stays removed, whatever follows, exactly when no `mkdir` below it is still at work on the disk. */
  lemma RootStaysRemovedIff(s: State)
    requires Reachable(s) && !s.exited && RootRemoved(s)
    ensures CanRecreateRoot(s) <==> s.mkdirs.working > 0
    ensures s.setup == Settled(true) ==> s.mkdirs == NO_CALLS
  {
    ReachableInv(s);
    if s.mkdirs.working == 0 {
      if events :| Legal(s, events) && Run(s, events).rootExists {
        RootStaysRemoved(s, events);
        assert false;
      }
    } else {
      var events := [OfSetup(MkdirActs)];
      var t := Step(s, events[0]);
      assert events[1..] == [] && Legal(t, []) && Run(t, []) == t;
      assert Legal(s, events) && Run(s, events).rootExists;
    }
  }

  /**
   So one `mkdir` that fails while another hangs leaves a temp root behind: the probe has returned after a
   complete teardown when the other one creates the root again.
   */
  lemma LateMkdirRecreatesRoot() returns (s: State)
    ensures LoopReachable(s) && s.probe.Returned? && s.teardown.Completed? && s.rootExists
  {
    var a := DirectoriesStarted();
    var m := MAKING_DIRECTORIES;
    var f := m.(
      setup := Settled(false), mkdirs := Calls(3, 0, 0), active := false, probe := Finishing(false),
      teardown := RootGone, rootExists := false);
    var b := RootRemovedAfterFailure(f);
    s := f.(teardown := Completed, probe := Returned(false), deadline := Cancelled, rootExists := true);
    var c := RootRecreated(f, s);
    LeadsOn(INITIAL, a, m, b, f);
    LeadsOn(INITIAL, a + b, f, c, s);
  }

  lemma RootRemovedAfterFailure(f: State) returns (events: seq<Event>)
    requires f == MAKING_DIRECTORIES.(
      setup := Settled(false), mkdirs := Calls(3, 0, 0), active := false, probe := Finishing(false),
      teardown := RootGone, rootExists := false)
    ensures Leads(MAKING_DIRECTORIES, events, f)
  {
    hide Leads;
    var m := MAKING_DIRECTORIES;
    var failed := m.(setup := Settled(false), mkdirs := Calls(3, 0, 0));
    var finishing := failed.(active := false, probe := Finishing(false), teardown := AwaitingSetup);
    LeadsNowhere(f);
    events := [OfTeardown(RootDeleted)] + [];
    LeadsBy(finishing.(teardown := RemovingRoot), OfTeardown(RootDeleted), [], f);
    LeadsBy(finishing, OfTeardown(SetupSeenSettled), events, f);
    events := [OfTeardown(SetupSeenSettled)] + events;
    LeadsBy(failed, OfProbe(StartObserved), events, f);
    events := [OfProbe(StartObserved)] + events;
    LeadsBy(m.(mkdirs := Calls(3, 0, 1)), OfSetup(MkdirDone(false)), events, f);
    events := [OfSetup(MkdirDone(false))] + events;
    LeadsBy(m, OfSetup(MkdirEnds(false)), events, f);
    events := [OfSetup(MkdirEnds(false))] + events;
  }

  lemma RootRecreated(f: State, s: State) returns (events: seq<Event>)
    requires !f.exited && f.teardown.RootGone? && f.probe == Finishing(false) && f.deadline.Armed?
    requires f.mkdirs.working > 0
    requires !f.signalled
    requires s == f.(teardown := Completed, probe := Returned(false), deadline := Cancelled, rootExists := true)
    ensures Leads(f, events, s)
  {
    hide Leads;
    var completed := f.(teardown := Completed);
    var returned := completed.(probe := Returned(false));
    LeadsNowhere(s);
    events := [OfSetup(MkdirActs)] + [];
    LeadsBy(returned.(deadline := Cancelled), OfSetup(MkdirActs), [], s);
    LeadsBy(returned, FromOutside(RaceWon), events, s);
    events := [FromOutside(RaceWon)] + events;
    LeadsBy(completed, OfProbe(TeardownObserved), events, s);
    events := [OfProbe(TeardownObserved)] + events;
    LeadsBy(f, OfTeardown(RemovalDone), events, s);
    events := [OfTeardown(RemovalDone)] + events;
  }

  /** The probe is making its directories. */
  const MAKING_DIRECTORIES := State(
    AwaitingStart, MakingDirectories, Idle, Armed, true, false, false, false, true, true, ALL_DIRECTORIES, 0, false, 0)

  lemma DirectoriesStarted() returns (events: seq<Event>)
    ensures Leads(INITIAL, events, MAKING_DIRECTORIES)
  {
    hide Leads;
    var m := MAKING_DIRECTORIES;
    var onDisk := m.(setup := RootOnDisk, rootKnown := false, mkdirs := NO_CALLS);
    var making := onDisk.(setup := MakingRoot, rootExists := false);
    LeadsNowhere(m);
    events := [OfSetup(RootAssigned)] + [];
    LeadsBy(onDisk, OfSetup(RootAssigned), [], m);
    LeadsBy(making, OfSetup(TempRootCreated(true)), events, m);
    events := [OfSetup(TempRootCreated(true))] + events;
    LeadsBy(INITIAL, OfProbe(VersionsRead(true)), events, m);
    events := [OfProbe(VersionsRead(true))] + events;
  }

  // ----- the window in `finally`

  ghost predicate SomethingLeft(s: State) { s.serverAlive || s.rootExists }

  /**
   While something is left and the teardown has not failed, a signal exits the process at once exactly
   when the probe is in its `finally`, where the handle is already cleared, or has returned and a late
   `mkdir` has brought the root back.
   */
  lemma SignalExitsAtOnceIff(s: State)
    requires Reachable(s) && !s.exited && !s.teardown.Failed? && SomethingLeft(s)
    ensures OutsideStep(s, Signal).exited <==> s.probe.Finishing? || s.probe.Returned?
    ensures s.probe.Returned? ==> !s.serverAlive && s.setup == Settled(false)
  {
    ReachableInv(s);
  }

  /** Likewise for a deadline that rejects the race without waiting for the teardown. */
  lemma DeadlineRejectsAtOnceIff(s: State)
    requires Reachable(s) && OutsideEnabled(s, DeadlineExpired) && !s.teardown.Failed? && SomethingLeft(s)
    ensures OutsideStep(s, DeadlineExpired).deadline.Rejected? <==> s.probe.Finishing? || s.probe.Returned?
  {
    ReachableInv(s);
  }

  /** Outside that window a signal or deadline is answered only once the teardown is over. */
  lemma AnsweredAfterTeardown(s: State, e: OutsideEvent)
    requires Reachable(s) && OutsideEnabled(s, e) && (e.SignalSawTeardown? || e.DeadlineSawTeardown?)
    ensures Over(s.teardown)
    ensures s.teardown.Completed? ==> !s.serverAlive && (s.rootExists ==> s.setup == Settled(false))
  {
    ReachableInv(s);
  }

  /**
   When a signal or timer can find a server alive in that window, it has been told to stop: what such an
   exit cuts off is waiting for it, killing it if it does not stop, and removing the root.
   */
  lemma WindowHasStopCalled(s: State)
    requires Reachable(s) && !s.exited && !MicrotaskPending(s) && s.probe.Finishing? && s.serverAlive
    ensures s.teardown.Failed? || (s.teardown.StoppingServer? && s.stops == 1)
  {
    ReachableInv(s);
  }

  /** The window is real: a signal after the checks exits the process with the server alive and the root left. */
  lemma SignalInFinallyLeavesServer() returns (s: State)
    ensures LoopReachable(s) && s.exited && s.serverAlive && s.rootExists && s.stops == 1
  {
    var m := MAKING_DIRECTORIES;
    var checking := m.(mkdirs := NO_CALLS, setup := Settled(true), spawns := 1, serverAlive := true, probe := Checking);
    s := checking.(probe := Finishing(true), active := false, teardown := StoppingServer, stops := 1, exited := true);
    var a := DirectoriesStarted();
    var b := ServerStarted(checking);
    var c := ExitsWhileStopping(checking, s);
    LeadsOn(INITIAL, a, m, b, checking);
    LeadsOn(INITIAL, a + b, checking, c, s);
  }

  lemma ServerStarted(checking: State) returns (events: seq<Event>)
    requires checking
          == MAKING_DIRECTORIES.(
               mkdirs := NO_CALLS, setup := Settled(true), spawns := 1, serverAlive := true, probe := Checking)
    ensures Leads(MAKING_DIRECTORIES, events, checking)
  {
    hide Leads;
    var m := MAKING_DIRECTORIES;
    var allocating := m.(mkdirs := NO_CALLS, setup := AllocatingPort);
    LeadsNowhere(checking);
    events := [OfProbe(StartObserved)] + [];
    LeadsBy(checking.(probe := AwaitingStart), OfProbe(StartObserved), [], checking);
    LeadsBy(allocating, OfSetup(PortAllocated(true, true)), events, checking);
    events := [OfSetup(PortAllocated(true, true))] + events;
    var made := DirectoriesMade(4);
    LeadsOn(m, made, allocating, events, checking);
    events := made + events;
  }

  lemma {:induction false} DirectoriesMade(k: nat) returns (events: seq<Event>)
    requires k > 0
    ensures Leads(
      MAKING_DIRECTORIES.(mkdirs := Calls(k, 0, 0)), events,
      MAKING_DIRECTORIES.(mkdirs := NO_CALLS, setup := AllocatingPort))
  {
    hide Leads;
    var m, end := MAKING_DIRECTORIES, MAKING_DIRECTORIES.(mkdirs := NO_CALLS, setup := AllocatingPort);
    if k == 1 {
      LeadsNowhere(end);
      events := [];
    } else {
      events := DirectoriesMade(k - 1);
    }
    LeadsBy(m.(mkdirs := Calls(k - 1, 1, 0)), OfSetup(MkdirDone(true)), events, end);
    events := [OfSetup(MkdirDone(true))] + events;
    LeadsBy(m.(mkdirs := Calls(k, 0, 0)), OfSetup(MkdirEnds(true)), events, end);
    events := [OfSetup(MkdirEnds(true))] + events;
  }

  lemma ExitsWhileStopping(checking: State, s: State) returns (events: seq<Event>)
    requires !checking.exited && checking.probe.Checking? && checking.setup.Settled? && checking.teardown.Idle?
    requires checking.deadline.Armed? && !checking.signalled && checking.spawns == 1 && checking.stops == 0
    requires s == checking.(
      probe := Finishing(true), active := false, teardown := StoppingServer, stops := 1, exited := true)
    ensures Leads(checking, events, s)
  {
    hide Leads;
    var finishing := checking.(probe := Finishing(true), active := false, teardown := AwaitingSetup);
    LeadsNowhere(s);
    events := [FromOutside(Signal)] + [];
    LeadsBy(s.(exited := false), FromOutside(Signal), [], s);
    LeadsBy(finishing, OfTeardown(SetupSeenSettled), events, s);
    events := [OfTeardown(SetupSeenSettled)] + events;
    LeadsBy(checking, OfProbe(ChecksDone(true)), events, s);
    events := [OfProbe(ChecksDone(true))] + events;
  }

  // ----- runs, one event at a time

  ghost predicate Leads(s: State, events: seq<Event>, t: State) {
    Legal(s, events) && InLoopOrder(s, events) && Run(s, events) == t
  }

  lemma LeadsNowhere(s: State)
    ensures Leads(s, [], s)
  {
  }

  lemma LeadsBy(s: State, e: Event, rest: seq<Event>, t: State)
    requires Enabled(s, e) && (IsMicrotask(e) || !MicrotaskPending(s)) && Leads(Step(s, e), rest, t)
    ensures Leads(s, [e] + rest, t)
  {
    assert ([e] + rest)[1..] == rest;
  }

  lemma {:induction false} LeadsOn(s: State, a: seq<Event>, t: State, b: seq<Event>, u: State)
    requires Leads(s, a, t) && Leads(t, b, u)
    ensures Leads(s, a + b, u)
    decreases |a|
  {
    hide Step, Enabled, IsMicrotask, MicrotaskPending;
    if a == [] {
      assert a + b == b;
    } else {
      assert (a + b)[1..] == a[1..] + b;
      LeadsOn(Step(s, a[0]), a[1..], t, b, u);
    }
  }
}
