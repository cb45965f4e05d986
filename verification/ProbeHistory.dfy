/**
 What the events of a run of the compatibility probe tell of its end: every variable of the probe, its setup,
 its teardown and the two that may cut it short, read off the list of what happened. So it is said in terms of
 events alone when a run succeeds.
 */
module ProbeHistories {
  import opened ProbeTeardowns

  // ----- reading a list of events

  predicate Happened(es: seq<Event>, e: Event) { e in es }

  /** The versions were read before the deadline expired, so that the probe went on to its setup. */
  predicate Begun(es: seq<Event>) {
    es != [] &&
    var n := |es| - 1;
    Begun(es[..n]) || (es[n] == OfProbe(VersionsRead(true)) && !Happened(es[..n], FromOutside(DeadlineExpired)))
  }

  /** A port was found and the server spawned, again before the deadline expired. */
  predicate Spawned(es: seq<Event>) {
    es != [] &&
    var n := |es| - 1;
    || Spawned(es[..n])
    || (es[n] == OfSetup(PortAllocated(true, true)) && !Happened(es[..n], FromOutside(DeadlineExpired)))
  }

  predicate Ported(es: seq<Event>) { exists ok, spawnOk :: Happened(es, OfSetup(PortAllocated(ok, spawnOk))) }

  /** The checks are over, or the probe has seen its setup fail. */
  predicate InFinally(es: seq<Event>) {
    || Happened(es, OfProbe(ChecksDone(true)))
    || Happened(es, OfProbe(ChecksDone(false)))
    || (Happened(es, OfProbe(StartObserved)) && !Spawned(es))
  }

  /** There is a teardown for the deadline or a signal to call. */
  predicate Active(es: seq<Event>) { Begun(es) && !InFinally(es) }

  /** The event came while there was a teardown to call. */
  predicate Held(es: seq<Event>, e: Event) {
    es != [] &&
    var n := |es| - 1;
    Held(es[..n], e) || (es[n] == e && Active(es[..n]))
  }

  /** The event came while there was none. */
  predicate Unheld(es: seq<Event>, e: Event) {
    es != [] &&
    var n := |es| - 1;
    Unheld(es[..n], e) || (es[n] == e && !Active(es[..n]))
  }

  predicate Called(es: seq<Event>) {
    InFinally(es) || Held(es, FromOutside(DeadlineExpired)) || Held(es, FromOutside(Signal))
  }

  /** The last event that made or deleted the root made it. */
  predicate RootThere(es: seq<Event>) {
    es != [] &&
    var n := |es| - 1;
    || es[n] == OfSetup(TempRootCreated(true)) || es[n] == OfSetup(MkdirActs) || es[n] == OfSetup(MkdirEnds(true))
    || (es[n] != OfTeardown(RootDeleted) && RootThere(es[..n]))
  }

  /** The teardown has nothing left to do: the root is removed, or there was none to remove. */
  predicate TornDown(es: seq<Event>) {
    || Happened(es, OfTeardown(RemovalDone))
    || (Happened(es, OfTeardown(SetupSeenSettled)) && !Happened(es, OfSetup(RootAssigned)))
  }

  /** All four directories are made, and their calls have settled. */
  predicate AllMade(es: seq<Event>) { Count(es, OfSetup(MkdirDone(true))) == 4 }

  function Count(es: seq<Event>, e: Event): nat { multiset(es)[e] }

  // ----- the variables they determine

  function ProbeTold(es: seq<Event>): Probe {
    if !Happened(es, OfProbe(VersionsRead(true))) && !Happened(es, OfProbe(VersionsRead(false))) then ReadingVersions
    else if !Begun(es) then Returned(false)
    else if Happened(es, OfProbe(TeardownObserved)) then
      Returned(Happened(es, OfProbe(ChecksDone(true))) && TornDown(es))
    else if InFinally(es) then Finishing(Happened(es, OfProbe(ChecksDone(true))))
    else if Happened(es, OfProbe(StartObserved)) then Checking
    else AwaitingStart
  }

  function SetupTold(es: seq<Event>): Setup {
    if !Begun(es) then NotStarted
    else if Happened(es, OfSetup(TempRootCreated(false))) || Happened(es, OfSetup(MkdirDone(false))) then Settled(false)
    else if Ported(es) then Settled(Spawned(es))
    else if AllMade(es) then AllocatingPort
    else if Happened(es, OfSetup(RootAssigned)) then MakingDirectories
    else if Happened(es, OfSetup(TempRootCreated(true))) then RootOnDisk
    else MakingRoot
  }

  /** The calls that make the directories: each starts with the others, ends on the disk and then settles. */
  ghost predicate CallsTold(es: seq<Event>, c: Calls) {
    && c.working + Count(es, OfSetup(MkdirEnds(true))) + Count(es, OfSetup(MkdirEnds(false)))
       == (if Happened(es, OfSetup(RootAssigned)) then 4 else 0)
    && c.made + Count(es, OfSetup(MkdirDone(true))) == Count(es, OfSetup(MkdirEnds(true)))
    && c.failed + Count(es, OfSetup(MkdirDone(false))) == Count(es, OfSetup(MkdirEnds(false)))
    && (Happened(es, OfSetup(MkdirDone(false))) <==> Count(es, OfSetup(MkdirDone(false))) > 0)
  }

  function TeardownTold(es: seq<Event>): Teardown {
    if !Called(es) then Idle
    else if !Happened(es, OfTeardown(SetupSeenSettled)) then AwaitingSetup
    else if Happened(es, OfTeardown(ServerStopped(false))) || Happened(es, OfTeardown(RemovalFailed)) then Failed
    else if TornDown(es) then Completed
    else if Spawned(es) && !Happened(es, OfTeardown(ServerStopped(true))) then StoppingServer
    else if Happened(es, OfTeardown(RootDeleted)) then RootGone
    else RemovingRoot
  }

  function DeadlineTold(es: seq<Event>): Deadline {
    if Happened(es, FromOutside(RaceWon)) then Cancelled
    else if !Happened(es, FromOutside(DeadlineExpired)) then Armed
    else if Held(es, FromOutside(DeadlineExpired)) && !Happened(es, FromOutside(DeadlineSawTeardown))
    then AwaitingTeardown
    else Rejected
  }

  ghost predicate ProbePart(es: seq<Event>, s: State) {
    && s.probe == ProbeTold(es)
    && (s.active <==> Active(es))
    && (Begun(es) ==> Happened(es, OfProbe(VersionsRead(true))))
    && (Happened(es, OfProbe(StartObserved)) ==> Begun(es))
    && (Happened(es, OfProbe(ChecksDone(true))) || Happened(es, OfProbe(ChecksDone(false))) ==>
          Happened(es, OfProbe(StartObserved)) && Spawned(es))
    && (Happened(es, OfProbe(VersionsRead(true))) ==> !Happened(es, OfProbe(VersionsRead(false))))
    && (Happened(es, OfProbe(TeardownObserved)) ==> InFinally(es) && Happened(es, OfTeardown(SetupSeenSettled)))
  }

  ghost predicate SetupPart(es: seq<Event>, s: State) {
    && s.setup == SetupTold(es)
    && (s.rootKnown <==> Happened(es, OfSetup(RootAssigned)))
    && (s.rootExists <==> RootThere(es))
    && s.spawns == (if Spawned(es) then 1 else 0)
    && (s.serverAlive <==>
          && Spawned(es)
          && !Happened(es, FromOutside(ServerDied)) && !Happened(es, OfTeardown(ServerStopped(true))))
    && (Spawned(es) ==> Ported(es))
    && (Happened(es, FromOutside(ServerDied)) || Happened(es, OfTeardown(ServerStopped(true))) ==> Spawned(es))
    && (Happened(es, OfSetup(TempRootCreated(true))) || Happened(es, OfSetup(TempRootCreated(false))) ==> Begun(es))
    && (Happened(es, OfSetup(RootAssigned)) ==> Happened(es, OfSetup(TempRootCreated(true))))
    && (Ported(es) ==> AllMade(es))
    && (AllMade(es) || Happened(es, OfSetup(MkdirDone(false))) ==> Happened(es, OfSetup(RootAssigned)))
    && (Happened(es, OfSetup(TempRootCreated(false))) ==> !Happened(es, OfSetup(TempRootCreated(true))))
  }

  ghost predicate TeardownPart(es: seq<Event>, s: State) {
    && s.teardown == TeardownTold(es)
    && s.stops == (if Spawned(es) && Happened(es, OfTeardown(SetupSeenSettled)) then 1 else 0)
    && (Happened(es, OfTeardown(SetupSeenSettled)) ==> Called(es))
    && (Happened(es, OfTeardown(ServerStopped(true))) || Happened(es, OfTeardown(ServerStopped(false))) ==>
          Spawned(es) && Happened(es, OfTeardown(SetupSeenSettled)))
    && (Happened(es, OfTeardown(RootDeleted)) || Happened(es, OfTeardown(RemovalFailed)) ==>
          && Happened(es, OfTeardown(SetupSeenSettled)) && Happened(es, OfSetup(RootAssigned))
          && (Spawned(es) ==> Happened(es, OfTeardown(ServerStopped(true)))))
    && (Happened(es, OfTeardown(ServerStopped(false))) || Happened(es, OfTeardown(RemovalFailed)) ==> !TornDown(es))
    && (Happened(es, OfTeardown(RemovalDone)) ==> Happened(es, OfTeardown(RootDeleted)))
  }

  ghost predicate OutsidePart(es: seq<Event>, s: State) {
    && s.deadline == DeadlineTold(es)
    && (Happened(es, FromOutside(DeadlineSawTeardown)) ==> Held(es, FromOutside(DeadlineExpired)))
    && (Held(es, FromOutside(DeadlineExpired)) ==> Happened(es, FromOutside(DeadlineExpired)))
    && (s.aborted <==> Happened(es, FromOutside(DeadlineExpired)))
    && (s.signalled <==> Held(es, FromOutside(Signal)))
    && (s.exited <==> Unheld(es, FromOutside(Signal)) || Happened(es, FromOutside(SignalSawTeardown)))
  }

  ghost predicate Told(es: seq<Event>, s: State) {
    ProbePart(es, s) && SetupPart(es, s) && CallsTold(es, s.mkdirs) && TeardownPart(es, s) && OutsidePart(es, s)
  }

  // ----- one event more

  lemma Next(es: seq<Event>, e: Event)
    ensures forall x :: Happened(es + [e], x) <==> Happened(es, x) || x == e
    ensures forall x :: Held(es + [e], x) <==> Held(es, x) || (x == e && Active(es))
    ensures forall x :: Unheld(es + [e], x) <==> Unheld(es, x) || (x == e && !Active(es))
    ensures var early := !Happened(es, FromOutside(DeadlineExpired));
      && (Begun(es + [e]) <==> Begun(es) || (e == OfProbe(VersionsRead(true)) && early))
      && (Spawned(es + [e]) <==> Spawned(es) || (e == OfSetup(PortAllocated(true, true)) && early))
    ensures Ported(es + [e]) <==> Ported(es) || (e.OfSetup? && e.setup.PortAllocated?)
    ensures RootThere(es + [e])
       <==> || e == OfSetup(TempRootCreated(true)) || e == OfSetup(MkdirActs) || e == OfSetup(MkdirEnds(true))
            || (e != OfTeardown(RootDeleted) && RootThere(es))
  {
    var all := es + [e];
    assert all[..|all| - 1] == es;
    assert forall x :: Happened(all, x) <==> Happened(es, x) || x == e;
    if e.OfSetup? && e.setup.PortAllocated? {
      assert Happened(all, OfSetup(PortAllocated(e.setup.ok, e.setup.spawnOk)));
    }
  }

  lemma CountNext(es: seq<Event>, e: Event)
    ensures forall x :: Count(es + [e], x) == Count(es, x) + if x == e then 1 else 0
  {
  }

  lemma CallsNext(es: seq<Event>, s: State, u: SetupEvent)
    requires SetupPart(es, s) && CallsTold(es, s.mkdirs) && SetupInv(s) && SetupEnabled(s, u)
    ensures CallsTold(es + [OfSetup(u)], SetupStep(s, u).mkdirs)
    ensures AllMade(es + [OfSetup(u)])
       <==> AllMade(es) || (u == MkdirDone(true) && s.setup.MakingDirectories? && s.mkdirs.Count() == 1)
  {
    hide Happened, Count, Begun, Spawned, Ported, RootThere;
    Next(es, OfSetup(u));
    CountNext(es, OfSetup(u));
    match u
    case RootAssigned =>
    case MkdirEnds(_) =>
    case MkdirDone(_) =>
    case _ =>
  }

  lemma CallsStay(es: seq<Event>, c: Calls, e: Event)
    requires CallsTold(es, c) && !e.OfSetup?
    ensures CallsTold(es + [e], c) && (AllMade(es + [e]) <==> AllMade(es))
  {
    hide Happened, Count;
    Next(es, e);
    CountNext(es, e);
  }

  // ----- what an event leaves alone

  ghost predicate SameProbe(s: State, t: State) { t.probe == s.probe && t.active == s.active }

  ghost predicate SameSetup(s: State, e: Event, t: State) {
    && t.setup == s.setup && t.mkdirs == s.mkdirs && t.rootKnown == s.rootKnown && t.spawns == s.spawns
    && (t.rootExists <==> s.rootExists && e != OfTeardown(RootDeleted))
    && (t.serverAlive <==> s.serverAlive && e != OfTeardown(ServerStopped(true)) && e != FromOutside(ServerDied))
  }

  ghost predicate SameTeardown(s: State, t: State) { t.teardown == s.teardown && t.stops == s.stops }

  ghost predicate SameOutside(s: State, t: State) {
    && t.deadline == s.deadline && t.aborted == s.aborted && t.signalled == s.signalled && t.exited == s.exited
  }

  lemma FinallyLeaves(s: State, ok: bool)
    ensures var t := Finally(s, ok); t == s.(probe := t.probe, active := t.active, teardown := t.teardown)
  {
  }

  lemma ProbeLeaves(s: State, p: ProbeEvent)
    requires ProbeEnabled(s, p) && !p.VersionsRead?
    ensures var t := ProbeStep(s, p); t == s.(probe := t.probe, active := t.active, teardown := t.teardown)
  {
    hide ProbeEnabled, Finally;
    match p
    case StartObserved => FinallyLeaves(s, false);
    case ChecksDone(ok) => FinallyLeaves(s, ok);
    case TeardownObserved =>
  }

  lemma SetupLeaves(s: State, u: SetupEvent)
    requires SetupEnabled(s, u)
    ensures var t := SetupStep(s, u);
      t == s.(setup := t.setup, mkdirs := t.mkdirs, rootKnown := t.rootKnown, rootExists := t.rootExists,
              spawns := t.spawns, serverAlive := t.serverAlive)
  {
    hide SetupEnabled;
    match u
    case TempRootCreated(_) =>
    case RootAssigned =>
    case MkdirActs =>
    case MkdirEnds(_) =>
    case MkdirDone(_) =>
    case PortAllocated(_, _) =>
  }

  lemma TeardownLeaves(s: State, t: TeardownEvent)
    requires TeardownEnabled(s, t)
    ensures var u := TeardownStep(s, t);
      && u == s.(teardown := u.teardown, stops := u.stops, rootExists := u.rootExists, serverAlive := u.serverAlive)
      && u.rootExists == (s.rootExists && t != RootDeleted)
      && u.serverAlive == (s.serverAlive && t != ServerStopped(true))
  {
    hide TeardownEnabled;
    match t
    case SetupSeenSettled =>
    case ServerStopped(_) =>
    case RootDeleted =>
    case RemovalDone =>
    case RemovalFailed =>
  }

  lemma OutsideLeaves(s: State, o: OutsideEvent)
    requires OutsideEnabled(s, o)
    ensures var t := OutsideStep(s, o);
      && t == s.(teardown := t.teardown, deadline := t.deadline, aborted := t.aborted, signalled := t.signalled,
                 exited := t.exited, serverAlive := t.serverAlive)
      && t.serverAlive == (s.serverAlive && o != ServerDied)
  {
    hide OutsideEnabled;
    match o
    case DeadlineExpired =>
    case Signal =>
    case _ =>
  }

  // ----- each part of what is told, one event on

  lemma ProbeStays(es: seq<Event>, s: State, e: Event, t: State)
    requires Told(es, s) && Inv(s) && Enabled(s, e) && !e.OfProbe? && SameProbe(s, t)
    ensures ProbePart(es + [e], t)
  {
    hide Happened, Count, Held, Unheld, Begun, Spawned, Ported, RootThere, AllMade, CallsTold;
    hide OutsidePart, DeadlineTold;
    Next(es, e);
    match e
    case OfSetup(u) =>
    case OfTeardown(_) =>
    case FromOutside(_) =>
  }

  lemma SetupStays(es: seq<Event>, s: State, e: Event, t: State)
    requires Told(es, s) && Inv(s) && Enabled(s, e) && !e.OfSetup? && SameSetup(s, e, t)
    requires e.OfProbe? ==> !e.probe.VersionsRead?
    ensures SetupPart(es + [e], t)
  {
    hide Happened, Count, Held, Unheld, Begun, Spawned, Ported, RootThere, AllMade, CallsTold;
    hide OutsidePart, TeardownPart, ProbePart, ActorsInv;
    CallsStay(es, s.mkdirs, e);
    Next(es, e);
  }

  lemma OutsideStays(es: seq<Event>, s: State, e: Event, t: State)
    requires OutsidePart(es, s) && !e.FromOutside? && SameOutside(s, t)
    ensures OutsidePart(es + [e], t)
  {
    hide Happened, Count, Held, Unheld, Begun, Spawned, Ported, RootThere, AllMade, CallsTold;
    hide Active;
    Next(es, e);
  }

  lemma ProbeEventTold(es: seq<Event>, s: State, p: ProbeEvent)
    requires Told(es, s) && Inv(s) && ProbeEnabled(s, p)
    ensures ProbePart(es + [OfProbe(p)], ProbeStep(s, p))
  {
    hide Happened, Count, Held, Unheld, Begun, Spawned, Ported, RootThere, AllMade, CallsTold;
    hide DeadlineTold;
    Next(es, OfProbe(p));
    match p
    case VersionsRead(_) =>
    case StartObserved =>
    case ChecksDone(_) =>
    case TeardownObserved =>
  }

  lemma SetupEventTold(es: seq<Event>, s: State, u: SetupEvent)
    requires Told(es, s) && Inv(s) && SetupEnabled(s, u)
    ensures SetupPart(es + [OfSetup(u)], SetupStep(s, u))
  {
    hide Happened, Count, Held, Unheld, Begun, Spawned, Ported, RootThere, AllMade, CallsTold;
    hide TeardownPart, ProbePart, TeardownInv;
    Next(es, OfSetup(u));
    CallsNext(es, s, u);
    match u
    case MkdirEnds(_) =>
    case MkdirDone(_) =>
    case PortAllocated(_, _) =>
    case _ =>
  }

  lemma VersionsReadTold(es: seq<Event>, s: State, ok: bool)
    requires Told(es, s) && Inv(s) && s.probe.ReadingVersions?
    ensures var e := OfProbe(VersionsRead(ok));
      var t := ProbeStep(s, VersionsRead(ok));
      SetupPart(es + [e], t) && TeardownPart(es + [e], t) && SameOutside(s, t) && t.mkdirs == s.mkdirs
  {
    hide Happened, Count, Held, Unheld, Begun, Spawned, Ported, RootThere, AllMade, CallsTold;
    Next(es, OfProbe(VersionsRead(ok)));
    CallsStay(es, s.mkdirs, OfProbe(VersionsRead(ok)));
  }

  lemma ProbeEventTellsTeardown(es: seq<Event>, s: State, p: ProbeEvent)
    requires Told(es, s) && Inv(s) && ProbeEnabled(s, p) && !p.VersionsRead?
    ensures TeardownPart(es + [OfProbe(p)], ProbeStep(s, p))
  {
    hide Happened, Count, Held, Unheld, Begun, Spawned, Ported, RootThere, AllMade, CallsTold;
    hide DeadlineTold;
    Next(es, OfProbe(p));
    match p
    case StartObserved =>
    case ChecksDone(_) =>
    case TeardownObserved =>
  }

  lemma SetupEventLeavesTeardown(es: seq<Event>, s: State, u: SetupEvent, t: State)
    requires Told(es, s) && Inv(s) && SetupEnabled(s, u) && SameTeardown(s, t)
    ensures TeardownPart(es + [OfSetup(u)], t)
  {
    hide Happened, Count, Held, Unheld, Begun, Spawned, Ported, RootThere, AllMade, CallsTold;
    hide OutsidePart, DeadlineTold;
    Next(es, OfSetup(u));
  }

  lemma TeardownEventTold(es: seq<Event>, s: State, t: TeardownEvent)
    requires Told(es, s) && Inv(s) && TeardownEnabled(s, t)
    ensures TeardownPart(es + [OfTeardown(t)], TeardownStep(s, t))
  {
    hide Happened, Count, Held, Unheld, Begun, Spawned, Ported, RootThere, AllMade, CallsTold;
    hide OutsidePart, DeadlineTold, ProbePart;
    Next(es, OfTeardown(t));
    match t
    case SetupSeenSettled =>
    case ServerStopped(_) =>
    case _ =>
  }

  lemma CallTells(es: seq<Event>, e: Event)
    requires e.FromOutside? && (Happened(es, OfTeardown(SetupSeenSettled)) ==> Called(es))
    ensures TeardownTold(es + [e])
         == if !Called(es) && Active(es) && (e.outside.DeadlineExpired? || e.outside.Signal?) then AwaitingSetup
            else TeardownTold(es)
    ensures TeardownTold(es) == Idle <==> !Called(es)
    ensures Called(es) ==> Called(es + [e])
  {
    hide Happened, Held, Spawned, InFinally, Active;
    Next(es, e);
    InFinallyStays(es, e);
  }

  lemma OutsideEventTellsTeardown(es: seq<Event>, s: State, o: OutsideEvent)
    requires (s.active <==> Active(es)) && TeardownPart(es, s) && OutsideEnabled(s, o)
    ensures TeardownPart(es + [FromOutside(o)], OutsideStep(s, o))
  {
    hide Happened, Held, Spawned, RootThere, TornDown, Active, Called, TeardownTold;
    Next(es, FromOutside(o));
    CallTells(es, FromOutside(o));
    TornDownStays(es, FromOutside(o));
    match o
    case DeadlineExpired =>
    case Signal =>
    case _ =>
  }

  lemma TornDownStays(es: seq<Event>, e: Event)
    requires e.FromOutside?
    ensures TornDown(es + [e]) <==> TornDown(es)
  {
    hide Happened;
    Next(es, e);
  }

  lemma InFinallyStays(es: seq<Event>, e: Event)
    requires e.FromOutside?
    ensures InFinally(es + [e]) <==> InFinally(es)
  {
    hide Spawned, Happened;
    Next(es, e);
  }

  lemma OutsideEventTold(es: seq<Event>, s: State, o: OutsideEvent)
    requires ProbePart(es, s) && OutsidePart(es, s) && Inv(s) && OutsideEnabled(s, o)
    ensures OutsidePart(es + [FromOutside(o)], OutsideStep(s, o))
  {
    hide Happened, Count, Held, Unheld, Begun, Spawned, Ported, RootThere, AllMade, CallsTold;
    hide ProbeTold, Active;
    Next(es, FromOutside(o));
    match o
    case DeadlineExpired =>
    case Signal =>
    case _ =>
  }

  lemma ProbeEventTellsAll(es: seq<Event>, s: State, p: ProbeEvent)
    requires Told(es, s) && Inv(s) && Enabled(s, OfProbe(p))
    ensures Told(es + [OfProbe(p)], ProbeStep(s, p))
  {
    hide ProbePart, SetupPart, TeardownPart, OutsidePart, CallsTold, ProbeStep, Inv, AllMade;
    var e, t := OfProbe(p), ProbeStep(s, p);
    ProbeEventTold(es, s, p);
    CallsStay(es, s.mkdirs, e);
    if p.VersionsRead? {
      VersionsReadTold(es, s, p.ok);
    } else {
      ProbeLeaves(s, p);
      SetupStays(es, s, e, t);
      ProbeEventTellsTeardown(es, s, p);
    }
    OutsideStays(es, s, e, t);
  }

  lemma SetupEventTellsAll(es: seq<Event>, s: State, u: SetupEvent)
    requires Told(es, s) && Inv(s) && Enabled(s, OfSetup(u))
    ensures Told(es + [OfSetup(u)], SetupStep(s, u))
  {
    hide ProbePart, SetupPart, TeardownPart, OutsidePart, CallsTold, SetupStep, AllMade;
    SetupEventTold(es, s, u);
    CallsNext(es, s, u);
    SetupLeaves(s, u);
    ProbeStays(es, s, OfSetup(u), SetupStep(s, u));
    SetupEventLeavesTeardown(es, s, u, SetupStep(s, u));
    OutsideStays(es, s, OfSetup(u), SetupStep(s, u));
  }

  lemma TeardownEventTellsAll(es: seq<Event>, s: State, t: TeardownEvent)
    requires Told(es, s) && Inv(s) && Enabled(s, OfTeardown(t))
    ensures Told(es + [OfTeardown(t)], TeardownStep(s, t))
  {
    hide ProbePart, SetupPart, TeardownPart, OutsidePart, CallsTold, TeardownStep, Inv, AllMade;
    var e, u := OfTeardown(t), TeardownStep(s, t);
    TeardownEventTold(es, s, t);
    CallsStay(es, s.mkdirs, e);
    TeardownLeaves(s, t);
    ProbeStays(es, s, e, u);
    SetupStays(es, s, e, u);
    OutsideStays(es, s, e, u);
  }

  lemma OutsideEventTellsAll(es: seq<Event>, s: State, o: OutsideEvent)
    requires Told(es, s) && Inv(s) && Enabled(s, FromOutside(o))
    ensures Told(es + [FromOutside(o)], OutsideStep(s, o))
  {
    hide SetupPart, TeardownPart, OutsidePart, CallsTold, OutsideStep, Inv, AllMade, Active, ProbeTold;
    var e, t := FromOutside(o), OutsideStep(s, o);
    OutsideEventTold(es, s, o);
    OutsideEventTellsTeardown(es, s, o);
    hide ProbePart;
    CallsStay(es, s.mkdirs, e);
    OutsideLeaves(s, o);
    ProbeStays(es, s, e, t);
    SetupStays(es, s, e, t);
  }

  lemma ToldNext(es: seq<Event>, s: State, e: Event)
    requires Told(es, s) && Inv(s) && Enabled(s, e)
    ensures Told(es + [e], Step(s, e))
  {
    hide Told, Inv, ProbeStep, SetupStep, TeardownStep, OutsideStep;
    match e
    case OfProbe(p) => ProbeEventTellsAll(es, s, p);
    case OfSetup(u) => SetupEventTellsAll(es, s, u);
    case OfTeardown(t) => TeardownEventTellsAll(es, s, t);
    case FromOutside(o) => OutsideEventTellsAll(es, s, o);
  }

  lemma NothingTold(es: seq<Event>)
    requires es == []
    ensures ProbePart(es, INITIAL) && TeardownPart(es, INITIAL)
    ensures OutsidePart(es, INITIAL)
  {
    hide Happened, Count, Held, Unheld, Begun, Spawned, Ported, RootThere, AllMade;
    NothingHappened();
  }

  lemma NothingToldOfSetup(es: seq<Event>)
    requires es == []
    ensures SetupPart(es, INITIAL) && CallsTold(es, INITIAL.mkdirs)
  {
    hide Happened, Count, Begun, Spawned, Ported, RootThere, AllMade;
    NothingHappened();
  }

  lemma NothingHappened()
    ensures forall e :: !Happened([], e) && Count([], e) == 0 && !Held([], e) && !Unheld([], e)
    ensures !Begun([]) && !Spawned([]) && !Ported([]) && !RootThere([]) && !AllMade([])
  {
  }

  // ----- whole runs

  lemma {:induction false} RunNext(s: State, es: seq<Event>)
    requires es != [] && Legal(s, es)
    ensures var n := |es| - 1;
      && Legal(s, es[..n]) && Enabled(Run(s, es[..n]), es[n])
      && Run(s, es) == Step(Run(s, es[..n]), es[n])
    decreases |es|
  {
    hide Step, Enabled;
    var n := |es| - 1;
    if n > 0 {
      RunNext(Step(s, es[0]), es[1..]);
      assert es[1..][..n - 1] == es[..n][1..];
    }
  }

  /** In every run, in whatever order its events come, every variable is what the events say. */
  lemma {:induction false} RunTells(es: seq<Event>)
    requires Legal(INITIAL, es)
    ensures Told(es, Run(INITIAL, es))
    decreases |es|
  {
    hide Step, Enabled, Inv, ProbePart, SetupPart, TeardownPart, OutsidePart;
    if es == [] {
      NothingTold(es);
      NothingToldOfSetup(es);
    } else {
      var n := |es| - 1;
      RunNext(INITIAL, es);
      RunTells(es[..n]);
      RunKeepsInv(INITIAL, es[..n]);
      ToldNext(es[..n], Run(INITIAL, es[..n]), es[n]);
      assert es[..n] + [es[n]] == es;
    }
  }

  /**
   The probe returns exactly when it found no versions in time, or has seen its teardown end; and it returns
   successfully exactly when its checks passed and the teardown then removed the root.
   */
  lemma ProbeSucceedsIff(es: seq<Event>)
    requires Legal(INITIAL, es)
    ensures var s := Run(INITIAL, es);
      && (s.probe.Returned? <==>
            || Happened(es, OfProbe(TeardownObserved))
            || Happened(es, OfProbe(VersionsRead(false)))
            || (Happened(es, OfProbe(VersionsRead(true))) && !Begun(es)))
      && (s.probe.Returned? ==>
            (s.probe.ok <==>
               && Happened(es, OfProbe(ChecksDone(true)))
               && Happened(es, OfTeardown(ServerStopped(true))) && Happened(es, OfTeardown(RemovalDone)))
            && (s.probe.ok <==> Happened(es, OfProbe(ChecksDone(true))) && s.teardown.Completed?))
  {
    RunTells(es);
    RunKeepsInv(INITIAL, es);
  }
}
