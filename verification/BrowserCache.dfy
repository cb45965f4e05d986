/**
 The private browser cache: any number of processes prepare WebKit revisions in one directory, under a
 lock that is a directory, and publish each build by renaming a link. Processes may fail or die between
 any two steps.
 */
module BrowserCaches {
  import opened Prelude

  type Revision = string
  type Stamp = string

  /** What `webkit-<revision>` is: a link to a generation, a link into the shared cache, or a legacy directory. */
  datatype Entry = ToGeneration(generation: nat) | ToShared | RealDirectory(stamp: Option<Stamp>)

  /** Where a process is in `preparePrivateBrowsers`; `id` names its staging directory and generation. */
  datatype Phase =
    | Waiting
    | Entered
    | Building(id: nat)
    | Stamped(id: nat)
    | Cleared(id: nat)
    | Renamed(id: nat)
    | Pointed(id: nat)
    | Prepared
    | Finished
    | Died(holdingLock: bool)

  datatype Process = Process(revision: Revision, wanted: Stamp, force: bool, prune: bool, phase: Phase)

  /**
   The directory: `staging` holds copies being built and, once complete, their stamp; `generations` the
   published builds. Random names are never drawn twice, so names are numbers from a counter.
   */
  datatype State = State(
    lock: bool,
    processes: seq<Process>,
    entries: map<Revision, Entry>,
    staging: map<nat, Option<Stamp>>,
    generations: map<nat, Stamp>,
    pointers: map<nat, nat>,
    nextId: nat
  )

  datatype Step =
    | Acquire
    | CheckStamp
    | FinishBuild
    | ClearLegacy
    | RenameStaging
    | CreatePointer
    | SwitchEntry
    | PruneGeneration(generation: nat)
    | PruneEntry(revision: Revision)
    | PruneStaging(id: nat)
    | LinkShared(revision: Revision)
    | Release
    | Fail
    | Die
    | OperatorUnlocks

  predicate Inside(phase: Phase) { !phase.Waiting? && !phase.Finished? && !phase.Died? }

  predicate HoldsLock(phase: Phase) { Inside(phase) || (phase.Died? && phase.holdingLock) }

  /** The stamp the entry's directory carries, if it resolves to one with a stamp. */
  function StampOf(s: State, r: Revision): Option<Stamp> {
    if r !in s.entries then None
    else match s.entries[r]
      case ToGeneration(g) => if g in s.generations then Some(s.generations[g]) else None
      case RealDirectory(stamp) => stamp
      case ToShared => None
  }

  predicate IsCurrent(s: State, r: Revision, g: nat) { r in s.entries && s.entries[r] == ToGeneration(g) }

  predicate Enabled(s: State, p: nat, step: Step) {
    p < |s.processes| &&
    var me := s.processes[p];
    match step
    case Acquire => me.phase.Waiting? && !s.lock
    case CheckStamp => me.phase.Entered?
    case FinishBuild => me.phase.Building?
    case ClearLegacy => me.phase.Stamped?
    case RenameStaging => me.phase.Cleared? && me.phase.id in s.staging && s.staging[me.phase.id].Some?
    case CreatePointer => me.phase.Renamed?
    case SwitchEntry => me.phase.Pointed? && me.phase.id in s.pointers
    case PruneGeneration(g) => me.phase.Prepared? && me.prune && !IsCurrent(s, me.revision, g)
    case PruneEntry(r) =>
      me.phase.Prepared? && me.prune && r != me.revision && r in s.entries
      && (s.entries[r].ToGeneration? ==> !IsCurrent(s, me.revision, s.entries[r].generation))
    case PruneStaging(_) => me.phase.Prepared? && me.prune
    case LinkShared(r) =>
      me.phase.Prepared? && r != me.revision
      && (r in s.entries ==> !s.entries[r].RealDirectory? && StampOf(s, r).None?)
    case Release => me.phase.Prepared?
    case Fail => Inside(me.phase)
    case Die => !me.phase.Finished? && !me.phase.Died?
    // The documented recovery: the lock of a dead process is removed by hand.
    case OperatorUnlocks => me.phase == Died(true)
  }

  function At(s: State, p: nat, phase: Phase): State
    requires p < |s.processes|
  {
    s.(processes := s.processes[p := s.processes[p].(phase := phase)])
  }

  /** The `finally` blocks: own staging directory and pointer go, and so does the lock. */
  function Unwound(s: State, p: nat): State
    requires p < |s.processes|
  {
    var phase := s.processes[p].phase;
    var t := At(s, p, Finished).(lock := false);
    if phase.Building? || phase.Stamped? || phase.Cleared? || phase.Renamed? || phase.Pointed? then
      t.(staging := t.staging - {phase.id}, pointers := t.pointers - {phase.id})
    else t
  }

  function Next(s: State, p: nat, step: Step): State
    requires Enabled(s, p, step)
  {
    var me := s.processes[p];
    match step
    case Acquire => At(s, p, Entered).(lock := true)
    case CheckStamp =>
      if !me.force && StampOf(s, me.revision) == Some(me.wanted) then At(s, p, Prepared)
      else At(s, p, Building(s.nextId)).(staging := s.staging[s.nextId := None], nextId := s.nextId + 1)
    case FinishBuild => At(s, p, Stamped(me.phase.id)).(staging := s.staging[me.phase.id := Some(me.wanted)])
    case ClearLegacy =>
      var legacy := me.revision in s.entries && s.entries[me.revision].RealDirectory?;
      if legacy && !me.prune then Unwound(s, p)
      else At(s, p, Cleared(me.phase.id)).(entries := if legacy then s.entries - {me.revision} else s.entries)
    case RenameStaging =>
      var id := me.phase.id;
      At(s, p, Renamed(id)).(staging := s.staging - {id}, generations := s.generations[id := s.staging[id].value])
    case CreatePointer => At(s, p, Pointed(me.phase.id)).(pointers := s.pointers[me.phase.id := me.phase.id])
    case SwitchEntry =>
      var id := me.phase.id;
      At(s, p, Prepared).(
        entries := s.entries[me.revision := ToGeneration(s.pointers[id])], pointers := s.pointers - {id})
    case PruneGeneration(g) => s.(generations := s.generations - {g})
    case PruneEntry(r) => s.(entries := s.entries - {r})
    case PruneStaging(id) => s.(staging := s.staging - {id}, pointers := s.pointers - {id})
    case LinkShared(r) => s.(entries := s.entries[r := ToShared])
    case Release => At(s, p, Finished).(lock := false)
    case Fail => Unwound(s, p)
    case Die => At(s, p, Died(HoldsLock(me.phase)))
    case OperatorUnlocks => At(s, p, Died(false)).(lock := false)
  }

  // ----- invariant

  /** The process's own files are as far as its phase says. */
  ghost predicate OwnFiles(s: State, me: Process) {
    match me.phase
    case Building(id) => id < s.nextId && id in s.staging && id !in s.generations
    case Stamped(id) => id < s.nextId && id !in s.generations && id in s.staging && s.staging[id] == Some(me.wanted)
    case Cleared(id) => id < s.nextId && id !in s.generations && id in s.staging && s.staging[id] == Some(me.wanted)
    case Renamed(id) => id < s.nextId && id !in s.staging && id in s.generations && s.generations[id] == me.wanted
    case Pointed(id) =>
      && id < s.nextId && id !in s.staging && id in s.generations && s.generations[id] == me.wanted
      && id in s.pointers && s.pointers[id] == id
    case _ => true
  }

  ghost predicate Inv(s: State) {
    && (s.lock <==> exists p :: 0 <= p < |s.processes| && HoldsLock(s.processes[p].phase))
    && (forall p, q | 0 <= p < q < |s.processes| ::
          !(HoldsLock(s.processes[p].phase) && HoldsLock(s.processes[q].phase)))
    && (forall p | 0 <= p < |s.processes| :: OwnFiles(s, s.processes[p]))
    && (forall id | id in s.generations || id in s.staging || id in s.pointers :: id < s.nextId)
    && (forall r | r in s.entries && s.entries[r].ToGeneration? :: s.entries[r].generation < s.nextId)
  }

  /** A step moves one process, and changes the lock only together with that process's hold on it. */
  lemma OnlyOneMoves(s: State, p: nat, step: Step)
    requires Enabled(s, p, step)
    ensures p < |s.processes|
    ensures var t := Next(s, p, step);
      && |t.processes| == |s.processes|
      && (forall q | 0 <= q < |s.processes| && q != p :: t.processes[q] == s.processes[q])
    ensures var t := Next(s, p, step);
      var was, now := HoldsLock(s.processes[p].phase), HoldsLock(t.processes[p].phase);
      || (t.lock == s.lock && was == now)
      || (!s.lock && t.lock && now)
      || (was && !t.lock && !now)
  {
    hide StampOf, IsCurrent, Unwound;
    UnwoundMovesOne(s, p);
    match step
    case CheckStamp =>
    case ClearLegacy =>
    case Fail =>
    case Die =>
    case _ =>
  }

  lemma UnwoundMovesOne(s: State, p: nat)
    requires p < |s.processes|
    ensures var t := Unwound(s, p);
      && |t.processes| == |s.processes| && t.processes[p].phase == Finished && !t.lock
      && (forall q | 0 <= q < |s.processes| && q != p :: t.processes[q] == s.processes[q])
  {
  }

  lemma LockKept(s: State, p: nat, step: Step)
    requires Inv(s) && Enabled(s, p, step)
    ensures var t := Next(s, p, step);
      && (t.lock <==> exists q :: 0 <= q < |t.processes| && HoldsLock(t.processes[q].phase))
      && (forall a, b | 0 <= a < b < |t.processes| ::
            !(HoldsLock(t.processes[a].phase) && HoldsLock(t.processes[b].phase)))
  {
    hide Next, Enabled, OwnFiles, HoldsLock;
    OnlyOneMoves(s, p, step);
    var t := Next(s, p, step);
    if HoldsLock(s.processes[p].phase) {
      assert forall q | 0 <= q < |s.processes| && q != p :: !HoldsLock(s.processes[q].phase);
    }
  }

  predicate Builds(step: Step) {
    step.CheckStamp? || step.FinishBuild? || step.ClearLegacy? || step.RenameStaging? || step.CreatePointer?
  }

  lemma FilesKept(s: State, p: nat, step: Step)
    requires Inv(s) && Enabled(s, p, step)
    ensures |Next(s, p, step).processes| == |s.processes|
    ensures OwnFiles(Next(s, p, step), Next(s, p, step).processes[p])
  {
    hide Next, Enabled;
    OnlyOneMoves(s, p, step);
    assert OwnFiles(s, s.processes[p]);
    if Builds(step) {
      BuildKeepsFiles(s, p, step);
    } else {
      RestOwnsNothing(s, p, step);
    }
  }

  lemma BuildKeepsFiles(s: State, p: nat, step: Step)
    requires Enabled(s, p, step) && OwnFiles(s, s.processes[p]) && Builds(step)
    requires forall id | id in s.generations || id in s.staging :: id < s.nextId
    ensures |Next(s, p, step).processes| == |s.processes|
    ensures OwnFiles(Next(s, p, step), Next(s, p, step).processes[p])
  {
    hide StampOf, IsCurrent, HoldsLock, Unwound;
    UnwoundMovesOne(s, p);
    match step
    case CheckStamp =>
    case FinishBuild =>
    case ClearLegacy =>
    case RenameStaging =>
    case CreatePointer =>
  }

  /** Every other step leaves its process in a phase that needs no files of its own. */
  lemma RestOwnsNothing(s: State, p: nat, step: Step)
    requires Enabled(s, p, step) && !Builds(step)
    ensures |Next(s, p, step).processes| == |s.processes|
    ensures OwnFiles(Next(s, p, step), Next(s, p, step).processes[p])
  {
    hide StampOf, IsCurrent, HoldsLock, Unwound;
    UnwoundMovesOne(s, p);
  }

  /** Every name in the directory was drawn before the next one. */
  lemma NamesKept(s: State, p: nat, step: Step)
    requires Inv(s) && Enabled(s, p, step)
    ensures var t := Next(s, p, step);
      && (forall id | id in t.generations || id in t.staging || id in t.pointers :: id < t.nextId)
      && (forall r | r in t.entries && t.entries[r].ToGeneration? :: t.entries[r].generation < t.nextId)
  {
    hide StampOf, IsCurrent, HoldsLock, Unwound;
    assert OwnFiles(s, s.processes[p]);
    UnwoundKeepsNames(s, p);
  }

  lemma UnwoundKeepsNames(s: State, p: nat)
    requires p < |s.processes|
    ensures var t := Unwound(s, p);
      && t.staging.Keys <= s.staging.Keys && t.pointers.Keys <= s.pointers.Keys
      && t.generations == s.generations && t.entries == s.entries && t.nextId == s.nextId
  {
  }

  lemma StepKeepsInv(s: State, p: nat, step: Step)
    requires Inv(s) && Enabled(s, p, step)
    ensures Inv(Next(s, p, step))
  {
    var t := Next(s, p, step);
    hide Next, Enabled, OwnFiles, HoldsLock;
    OnlyOneMoves(s, p, step);
    LockKept(s, p, step);
    FilesKept(s, p, step);
    NamesKept(s, p, step);
    forall q | 0 <= q < |t.processes| && q != p
      ensures OwnFiles(t, t.processes[q])
    {
      OthersKeepFiles(s, p, q, step);
    }
  }

  /** A process that is not inside owns no files that matter; one that is inside is alone. */
  lemma OthersKeepFiles(s: State, p: nat, q: nat, step: Step)
    requires Inv(s) && Enabled(s, p, step) && q < |s.processes| && q != p
    ensures OwnFiles(Next(s, p, step), s.processes[q])
  {
    assert OwnFiles(s, s.processes[q]);
    if Inside(s.processes[q].phase) {
      assert HoldsLock(s.processes[q].phase) && s.lock;
      assert !HoldsLock(s.processes[p].phase);
      assert step.Die?;
    }
  }

  // ----- what the protocol promises

  /** At most one process is inside, and none while a dead one's lock remains. */
  lemma MutualExclusion(s: State, p: nat, q: nat)
    requires Inv(s) && p < |s.processes| && q < |s.processes| && p != q
    ensures !(Inside(s.processes[p].phase) && HoldsLock(s.processes[q].phase))
  {
  }

  /** The entry resolves to a complete, stamped build. */
  predicate Ready(s: State, r: Revision) { StampOf(s, r).Some? }

  /**
   In one step an entry either keeps resolving as it did, or starts to resolve to a complete generation
   stamped for a process that wants that very revision. The exceptions need `--prune`: replacing a legacy
   directory, or retiring another revision than the process's own.
   */
  lemma EntriesChangeAtomically(s: State, p: nat, step: Step, r: Revision)
    requires Inv(s) && Enabled(s, p, step) && Ready(s, r)
    ensures var t := Next(s, p, step);
      || (t.entries[r := s.entries[r]] == t.entries && StampOf(t, r) == StampOf(s, r))
      || (step.SwitchEntry? && r == s.processes[p].revision && StampOf(t, r) == Some(s.processes[p].wanted))
      || (s.processes[p].prune && step.ClearLegacy? && r == s.processes[p].revision && s.entries[r].RealDirectory?)
      || (s.processes[p].prune && (step.PruneEntry? || step.PruneGeneration?) && r != s.processes[p].revision)
  {
    assert OwnFiles(s, s.processes[p]);
  }

  /** Publishing is what a process sets out to do: its own revision ends up complete, with the stamp it wants. */
  lemma PreparedIsReady(s: State, p: nat, step: Step)
    requires Inv(s) && Enabled(s, p, step) && !s.processes[p].phase.Prepared?
    requires Next(s, p, step).processes[p].phase.Prepared?
    ensures StampOf(Next(s, p, step), s.processes[p].revision) == Some(s.processes[p].wanted)
  {
    assert OwnFiles(s, s.processes[p]);
  }

  /** Pruning and linking keep the process's own revision as it is. */
  lemma PruningKeepsCurrent(s: State, p: nat, step: Step)
    requires Inv(s) && Enabled(s, p, step)
    requires step.PruneGeneration? || step.PruneEntry? || step.PruneStaging? || step.LinkShared?
    ensures var r := s.processes[p].revision;
      StampOf(Next(s, p, step), r) == StampOf(s, r)
      && (r in s.entries ==> r in Next(s, p, step).entries && Next(s, p, step).entries[r] == s.entries[r])
  {
  }

  /** A build is published once, under its own name with the stamp it is for, and removed only by pruning. */
  lemma GenerationsMove(s: State, p: nat, step: Step)
    requires Inv(s) && Enabled(s, p, step)
    ensures Next(s, p, step).generations
         == match step
            case RenameStaging => s.generations[s.processes[p].phase.id := s.processes[p].wanted]
            case PruneGeneration(g) => s.generations - {g}
            case _ => s.generations
  {
    hide StampOf, HoldsLock;
    assert OwnFiles(s, s.processes[p]);
  }

  /**
   An entry is switched to the published build, removed for it or by pruning, or linked to the shared cache;
   and linking replaces neither a real directory nor a prepared build.
   */
  lemma EntriesMove(s: State, p: nat, step: Step)
    requires Inv(s) && Enabled(s, p, step)
    ensures var me := s.processes[p];
      Next(s, p, step).entries
      == match step
         case SwitchEntry => s.entries[me.revision := ToGeneration(me.phase.id)]
         case ClearLegacy =>
           if me.revision in s.entries && s.entries[me.revision].RealDirectory? && me.prune
           then s.entries - {me.revision} else s.entries
         case PruneEntry(r) => s.entries - {r}
         case LinkShared(r) => s.entries[r := ToShared]
         case _ => s.entries
    ensures step.LinkShared? && step.revision in s.entries ==>
      !s.entries[step.revision].RealDirectory? && !Ready(s, step.revision)
  {
    hide HoldsLock;
    assert OwnFiles(s, s.processes[p]);
  }

  /**
   The lock is taken on the way in and given back by whoever gets through, fails, or is refused because of a
   legacy directory; the lock of a dead process stays until it is removed by hand.
   */
  lemma LockMoves(s: State, p: nat, step: Step)
    requires Inv(s) && Enabled(s, p, step)
    ensures var (me, t) := (s.processes[p], Next(s, p, step));
      var legacy := me.revision in s.entries && s.entries[me.revision].RealDirectory?;
      var refused := step.ClearLegacy? && legacy && !me.prune;
      && |t.processes| == |s.processes|
      && (t.processes[p].phase.Finished? <==> step.Release? || step.Fail? || refused)
      && (t.processes[p].phase.Died? <==> step.Die? || step.OperatorUnlocks?)
      && t.lock == (step.Acquire? || (s.lock && !step.OperatorUnlocks? && !t.processes[p].phase.Finished?))
  {
    hide StampOf, IsCurrent, Unwound, OwnFiles;
    UnwoundMovesOne(s, p);
    assert HoldsLock(s.processes[p].phase) ==> s.lock;
    match step
    case CheckStamp =>
    case ClearLegacy =>
    case _ =>
  }

  /** Whoever waits or is inside can die at any moment: everything stays as it was, the lock too. */
  lemma DeathLeavesEverything(s: State, p: nat)
    requires p < |s.processes|
    ensures Enabled(s, p, Die) <==> !s.processes[p].phase.Finished? && !s.processes[p].phase.Died?
    ensures Enabled(s, p, Die) ==>
      Next(s, p, Die)
      == s.(processes := s.processes[p := s.processes[p].(phase := Died(!s.processes[p].phase.Waiting?))])
  {
  }

  // ----- what is left behind

  /** The name that a build at work owns. */
  function OwnName(phase: Phase): set<nat> {
    match phase
    case Building(id) => {id}
    case Stamped(id) => {id}
    case Cleared(id) => {id}
    case Renamed(id) => {id}
    case Pointed(id) => {id}
    case _ => {}
  }

  ghost predicate Owned(s: State, id: nat) {
    exists p :: 0 <= p < |s.processes| && id in OwnName(s.processes[p].phase)
  }

  /** Staging directories and pointers of no build at work. */
  ghost function Leftovers(s: State): set<nat> {
    set id | id in Unfinished(s) && !Owned(s, id)
  }

  /** Everything that is being built, or was. */
  function Unfinished(s: State): set<nat> { s.staging.Keys + s.pointers.Keys }

  /** What one step does to all of it, apart from what its own process works on. */
  lemma NamesMove(s: State, p: nat, step: Step)
    requires Inv(s) && Enabled(s, p, step)
    ensures p < |s.processes| && |Next(s, p, step).processes| == |s.processes|
    ensures var t := Next(s, p, step);
      Unfinished(t) - OwnName(t.processes[p].phase)
      == if step.Die? then Unfinished(s)
         else Unfinished(s) - OwnName(s.processes[p].phase) - (if step.PruneStaging? then {step.id} else {})
    ensures step.Die? ==> OwnName(Next(s, p, step).processes[p].phase) == {}
  {
    hide StampOf, IsCurrent, HoldsLock;
    OnlyOneMoves(s, p, step);
    assert OwnFiles(s, s.processes[p]);
    if step.CheckStamp? {
      CheckMovesNames(s, p);
    } else if step.ClearLegacy? {
      ClearMovesNames(s, p);
    } else if Builds(step) {
      BuildMovesNames(s, p, step);
    } else if step.Fail? {
      UnwoundDropsNames(s, p);
    }
  }

  lemma UnwoundDropsNames(s: State, p: nat)
    requires p < |s.processes|
    ensures Unfinished(Unwound(s, p)) == Unfinished(s) - OwnName(s.processes[p].phase)
    ensures |Unwound(s, p).processes| == |s.processes| && Unwound(s, p).processes[p].phase == Finished
  {
  }

  lemma CheckMovesNames(s: State, p: nat)
    requires Enabled(s, p, CheckStamp) && s.nextId !in Unfinished(s)
    ensures |Next(s, p, CheckStamp).processes| == |s.processes|
    ensures var t := Next(s, p, CheckStamp); Unfinished(t) - OwnName(t.processes[p].phase) == Unfinished(s)
  {
    hide StampOf;
    var t := Next(s, p, CheckStamp);
    if t.processes[p].phase.Building? {
      assert t.staging.Keys == s.staging.Keys + {s.nextId};
    }
  }

  lemma ClearMovesNames(s: State, p: nat)
    requires Enabled(s, p, ClearLegacy)
    ensures |Next(s, p, ClearLegacy).processes| == |s.processes|
    ensures var t := Next(s, p, ClearLegacy);
      Unfinished(t) - OwnName(t.processes[p].phase) == Unfinished(s) - OwnName(s.processes[p].phase)
  {
    hide Unwound;
    UnwoundDropsNames(s, p);
  }

  lemma BuildMovesNames(s: State, p: nat, step: Step)
    requires Enabled(s, p, step) && (step.FinishBuild? || step.RenameStaging? || step.CreatePointer?)
    ensures |Next(s, p, step).processes| == |s.processes|
    ensures var t := Next(s, p, step);
      Unfinished(t) - OwnName(t.processes[p].phase) == Unfinished(s) - OwnName(s.processes[p].phase)
  {
    hide StampOf, IsCurrent, HoldsLock, Unwound;
    var t, id := Next(s, p, step), s.processes[p].phase.id;
    match step
    case FinishBuild => assert t.staging.Keys == s.staging.Keys + {id};
    case RenameStaging => assert t.staging.Keys == s.staging.Keys - {id};
    case CreatePointer => assert t.pointers.Keys == s.pointers.Keys + {id};
  }

  /** While another process builds, this one can only die. */
  lemma AloneOrDying(s: State, p: nat, step: Step, id: nat)
    requires Inv(s) && Enabled(s, p, step) && p < |s.processes| && OwnedByOther(s, p, id)
    ensures step.Die? && OwnName(s.processes[p].phase) == {}
  {
    var q :| 0 <= q < |s.processes| && q != p && id in OwnName(s.processes[q].phase);
    assert HoldsLock(s.processes[q].phase) && s.lock;
    assert !HoldsLock(s.processes[p].phase);
  }

  /**
   Only a process that dies leaves a staging directory or a pointer behind, and only pruning takes away what
   was left: whoever finishes or fails cleans up after itself, and nobody touches the files of others.
   */
  lemma OnlyDeathsLeaveFiles(s: State, p: nat, step: Step)
    requires Inv(s) && Enabled(s, p, step)
    ensures var own := OwnName(s.processes[p].phase) * Unfinished(s);
      Leftovers(Next(s, p, step))
      == if step.Die? then Leftovers(s) + own
         else if step.PruneStaging? then Leftovers(s) - {step.id} else Leftovers(s)
  {
    hide Inv, Next, Enabled, OwnName, OwnFiles, HoldsLock, Unfinished, Owned, OwnedByOther;
    var t := Next(s, p, step);
    NamesMove(s, p, step);
    OnlyOneMoves(s, p, step);
    forall id
      ensures Owned(t, id) <==> id in OwnName(t.processes[p].phase) || OwnedByOther(s, p, id)
      ensures Owned(s, id) <==> id in OwnName(s.processes[p].phase) || OwnedByOther(s, p, id)
      ensures OwnedByOther(s, p, id) ==> step.Die? && OwnName(s.processes[p].phase) == {}
      ensures id in Unfinished(t) - OwnName(t.processes[p].phase)
         <==> if step.Die? then id in Unfinished(s)
              else id in Unfinished(s) && id !in OwnName(s.processes[p].phase) && !(step.PruneStaging? && id == step.id)
      ensures step.Die? ==> OwnName(t.processes[p].phase) == {}
    {
      OwnedByOneOrOther(s, p, id);
      OwnedByOneOrOther(t, p, id);
      SameOthers(s, t, p, id);
      if OwnedByOther(s, p, id) {
        AloneOrDying(s, p, step, id);
      }
    }
  }

  lemma SameOthers(s: State, t: State, p: nat, id: nat)
    requires |t.processes| == |s.processes|
    requires forall q | 0 <= q < |s.processes| && q != p :: t.processes[q] == s.processes[q]
    ensures OwnedByOther(t, p, id) <==> OwnedByOther(s, p, id)
  {
  }

  ghost predicate OwnedByOther(s: State, p: nat, id: nat) {
    exists q :: 0 <= q < |s.processes| && q != p && id in OwnName(s.processes[q].phase)
  }

  lemma OwnedByOneOrOther(s: State, p: nat, id: nat)
    requires p < |s.processes|
    ensures Owned(s, id) <==> id in OwnName(s.processes[p].phase) || OwnedByOther(s, p, id)
  {
  }

  // ----- runs

  datatype Event = Event(process: nat, step: Step)

  ghost predicate Legal(s: State, events: seq<Event>)
    decreases |events|
  {
    events == [] ||
    (Enabled(s, events[0].process, events[0].step) &&
     Legal(Next(s, events[0].process, events[0].step), events[1..]))
  }

  ghost function Run(s: State, events: seq<Event>): State
    requires Legal(s, events)
    decreases |events|
  {
    if events == [] then s else Run(Next(s, events[0].process, events[0].step), events[1..])
  }

  /** In a run in which nobody dies nothing is left behind that was not there before. */
  lemma {:induction false} NothingLeftBehind(s: State, events: seq<Event>)
    requires Inv(s) && Legal(s, events) && forall e | e in events :: !e.step.Die?
    ensures Leftovers(Run(s, events)) <= Leftovers(s)
    decreases |events|
  {
    hide Inv, Next, Enabled, Leftovers;
    if events != [] {
      var p, step := events[0].process, events[0].step;
      StepKeepsInv(s, p, step);
      OnlyDeathsLeaveFiles(s, p, step);
      NothingLeftBehind(Next(s, p, step), events[1..]);
    }
  }

  /** Mutual exclusion, the files of every builder and the origin of every name hold in every run. */
  lemma {:induction false} RunKeepsInv(s: State, events: seq<Event>)
    requires Inv(s) && Legal(s, events)
    ensures Inv(Run(s, events)) && |Run(s, events).processes| == |s.processes|
    decreases |events|
  {
    hide Inv, Next, Enabled;
    if events != [] {
      StepKeepsInv(s, events[0].process, events[0].step);
      OnlyOneMoves(s, events[0].process, events[0].step);
      RunKeepsInv(Next(s, events[0].process, events[0].step), events[1..]);
    }
  }

  /** In no run, whoever prunes, fails or dies in it, are two processes inside, or one beside a dead one's lock. */
  lemma NeverTwoInside(s: State, events: seq<Event>, p: nat, q: nat)
    requires Inv(s) && Legal(s, events) && p < |s.processes| && q < |s.processes| && p != q
    ensures var t := Run(s, events);
      && |t.processes| == |s.processes|
      && !(Inside(t.processes[p].phase) && HoldsLock(t.processes[q].phase))
  {
    RunKeepsInv(s, events);
    MutualExclusion(Run(s, events), p, q);
  }

  predicate UpToDate(s: State, me: Process) { !me.force && StampOf(s, me.revision) == Some(me.wanted) }

  predicate IsLegacy(s: State, r: Revision) { r in s.entries && s.entries[r].RealDirectory? }

  /**
   The process is not there to retire the revision: it does not prune, or it prunes for this revision and
   has no legacy directory to replace.
   */
  predicate Harmless(s: State, me: Process, r: Revision) {
    me.prune ==>
      && me.revision == r
      && (IsLegacy(s, r) ==> UpToDate(s, me) && !me.phase.Building? && !me.phase.Stamped? && !me.phase.Cleared?)
  }

  ghost predicate Protected(s: State, r: Revision) {
    Ready(s, r) && forall p | 0 <= p < |s.processes| :: Harmless(s, s.processes[p], r)
  }

  /**
   A revision that was ever prepared stays prepared: in every interleaving, whatever fails or dies, its
   entry resolves to a complete, stamped build from then on, also while processes prune for it.
   */
  lemma {:induction false} PreparedForGood(s: State, events: seq<Event>, r: Revision)
    requires Inv(s) && Legal(s, events) && Protected(s, r)
    ensures Inv(Run(s, events)) && Protected(Run(s, events), r)
    decreases |events|
  {
    hide Inv, Next, Enabled, Protected;
    if events != [] {
      var p, step := events[0].process, events[0].step;
      StepKeepsInv(s, p, step);
      ProtectionStays(s, p, step, r);
      PreparedForGood(Next(s, p, step), events[1..], r);
    }
  }

  lemma ProtectionStays(s: State, p: nat, step: Step, r: Revision)
    requires Inv(s) && Enabled(s, p, step) && Protected(s, r)
    ensures Protected(Next(s, p, step), r)
  {
    hide Inv, Next;
    OnlyOneMoves(s, p, step);
    OptionsStay(s, p, step);
    EntriesChangeAtomically(s, p, step, r);
    LegacyStays(s, p, step, r);
    var t := Next(s, p, step);
    assert Harmless(s, s.processes[p], r);
    forall q | 0 <= q < |t.processes|
      ensures Harmless(t, t.processes[q], r)
    {
      assert Harmless(s, s.processes[q], r);
    }
  }

  lemma OptionsStay(s: State, p: nat, step: Step)
    requires Enabled(s, p, step)
    ensures var t := Next(s, p, step);
      && p < |s.processes| && |t.processes| == |s.processes|
      && t.processes[p] == s.processes[p].(phase := t.processes[p].phase)
  {
    hide StampOf, IsCurrent;
  }

  /** No step makes a legacy directory, and a process that finds its own up to date starts no build. */
  lemma LegacyStays(s: State, p: nat, step: Step, r: Revision)
    requires Enabled(s, p, step) && Ready(s, r) && Harmless(s, s.processes[p], r)
    ensures var t := Next(s, p, step);
      && (IsLegacy(t, r) ==> IsLegacy(s, r) && StampOf(t, r) == StampOf(s, r))
      && |t.processes| == |s.processes|
      && (IsLegacy(t, r) && s.processes[p].prune ==>
            !t.processes[p].phase.Building? && !t.processes[p].phase.Stamped? && !t.processes[p].phase.Cleared?)
  {
    hide IsCurrent;
  }

  // ----- the protection is needed

  ghost predicate Leads(s: State, events: seq<Event>, t: State) { Legal(s, events) && Run(s, events) == t }

  lemma LeadsNowhere(s: State)
    ensures Leads(s, [], s)
  {
  }

  lemma LeadsBy(s: State, p: nat, step: Step, rest: seq<Event>, t: State)
    requires Enabled(s, p, step) && Leads(Next(s, p, step), rest, t)
    ensures Leads(s, [Event(p, step)] + rest, t)
  {
    assert ([Event(p, step)] + rest)[1..] == rest;
  }

  lemma {:induction false} LeadsOn(s: State, a: seq<Event>, t: State, b: seq<Event>, u: State)
    requires Leads(s, a, t) && Leads(t, b, u)
    ensures Leads(s, a + b, u)
    decreases |a|
  {
    hide Next, Enabled;
    if a == [] {
      assert a + b == b;
    } else {
      assert (a + b)[1..] == a[1..] + b;
      LeadsOn(Next(s, a[0].process, a[0].step), a[1..], t, b, u);
    }
  }

  /** A process that has just published its build: `id` names it. */
  function Published(s: State, p: nat): State
    requires p < |s.processes|
  {
    var me, id := s.processes[p], s.nextId;
    s.(lock := true,
       processes := s.processes[p := me.(phase := Prepared)],
       entries := s.entries[me.revision := ToGeneration(id)],
       staging := s.staging - {id},
       generations := s.generations[id := me.wanted],
       pointers := s.pointers - {id},
       nextId := id + 1)
  }

  /** While nobody holds the lock, a waiting process can get through: at once, or by a whole build. */
  lemma CanPrepare(s: State, p: nat) returns (events: seq<Event>, t: State)
    requires Inv(s) && !s.lock && p < |s.processes| && s.processes[p].phase.Waiting?
    requires IsLegacy(s, s.processes[p].revision) ==> UpToDate(s, s.processes[p]) || s.processes[p].prune
    ensures Leads(s, events, t)
    ensures t == if UpToDate(s, s.processes[p]) then At(s, p, Prepared).(lock := true) else Published(s, p)
  {
    hide Leads, Inv;
    var me := s.processes[p];
    var entered := At(s, p, Entered).(lock := true);
    if UpToDate(s, me) {
      t := At(s, p, Prepared).(lock := true);
      assert Next(entered, p, CheckStamp).processes == t.processes;
      LeadsNowhere(t);
      LeadsBy(entered, p, CheckStamp, [], t);
      events := [Event(p, CheckStamp)] + [];
    } else {
      t := Published(s, p);
      events := CanBuild(s, p, entered);
    }
    assert Next(s, p, Acquire) == entered;
    LeadsBy(s, p, Acquire, events, t);
    events := [Event(p, Acquire)] + events;
  }

  /** A process whose build is stamped and whose revision has no legacy directory any more. */
  function ClearedFor(s: State, p: nat): State
    requires p < |s.processes|
  {
    var me, id := s.processes[p], s.nextId;
    s.(lock := true,
       processes := s.processes[p := me.(phase := Cleared(id))],
       staging := s.staging[id := Some(me.wanted)],
       entries := if IsLegacy(s, me.revision) then s.entries - {me.revision} else s.entries,
       nextId := id + 1)
  }

  lemma CanClear(s: State, p: nat, entered: State) returns (events: seq<Event>)
    requires p < |s.processes|
    requires !UpToDate(s, s.processes[p]) && (IsLegacy(s, s.processes[p].revision) ==> s.processes[p].prune)
    requires entered == At(s, p, Entered).(lock := true)
    ensures Leads(entered, events, ClearedFor(s, p))
  {
    hide Leads;
    var me, id, t := s.processes[p], s.nextId, ClearedFor(s, p);
    var building := At(entered, p, Building(id)).(staging := s.staging[id := None], nextId := id + 1);
    var stamped := At(building, p, Stamped(id)).(staging := building.staging[id := Some(me.wanted)]);
    assert stamped.staging == t.staging && Next(stamped, p, ClearLegacy) == t;
    LeadsNowhere(t);
    LeadsBy(stamped, p, ClearLegacy, [], t);
    events := [Event(p, ClearLegacy)] + [];
    LeadsBy(building, p, FinishBuild, events, t);
    events := [Event(p, FinishBuild)] + events;
    LeadsBy(entered, p, CheckStamp, events, t);
    events := [Event(p, CheckStamp)] + events;
  }

  lemma CanBuild(s: State, p: nat, entered: State) returns (events: seq<Event>)
    requires p < |s.processes|
    requires !UpToDate(s, s.processes[p]) && (IsLegacy(s, s.processes[p].revision) ==> s.processes[p].prune)
    requires entered == At(s, p, Entered).(lock := true)
    ensures Leads(entered, events, Published(s, p))
  {
    hide Leads, ClearedFor, Published, UpToDate, IsLegacy, At;
    var a := CanClear(s, p, entered);
    var b := CanPublish(s, p);
    LeadsOn(entered, a, ClearedFor(s, p), b, Published(s, p));
    events := a + b;
  }

  lemma CanPublish(s: State, p: nat) returns (events: seq<Event>)
    requires p < |s.processes|
    ensures Leads(ClearedFor(s, p), events, Published(s, p))
  {
    hide Leads, StampOf, IsCurrent, HoldsLock, IsLegacy;
    var cleared, t := ClearedFor(s, p), Published(s, p);
    var renamed := Next(cleared, p, RenameStaging);
    var pointed := Next(renamed, p, CreatePointer);
    assert Next(pointed, p, SwitchEntry) == t;
    LeadsNowhere(t);
    LeadsBy(pointed, p, SwitchEntry, [], t);
    events := [Event(p, SwitchEntry)] + [];
    LeadsBy(renamed, p, CreatePointer, events, t);
    events := [Event(p, CreatePointer)] + events;
    LeadsBy(cleared, p, RenameStaging, events, t);
    events := [Event(p, RenameStaging)] + events;
  }

  ghost predicate CanLose(s: State, r: Revision) { exists events :: Legal(s, events) && !Ready(Run(s, events), r) }

  /** No other entry is a link to the same generation. */
  ghost predicate Unshared(s: State, r: Revision) {
    r in s.entries && s.entries[r].ToGeneration? ==>
      forall q | q in s.entries && q != r :: s.entries[q] != s.entries[r]
  }

  /** A process that waits to prune for one revision can retire any other that is prepared. */
  lemma OtherPrunerRetires(s: State, p: nat, r: Revision)
    requires Inv(s) && !s.lock && p < |s.processes| && s.processes[p].phase.Waiting? && Unshared(s, r)
    requires s.processes[p].prune && s.processes[p].revision != r
    ensures CanLose(s, r)
  {
    hide Leads;
    var events, t := CanPrepare(s, p);
    if Ready(t, r) {
      var u := Next(t, p, PruneEntry(r));
      LeadsNowhere(u);
      LeadsBy(t, p, PruneEntry(r), [], u);
      LeadsOn(s, events, t, [Event(p, PruneEntry(r))] + [], u);
      LeadsLoses(s, events + ([Event(p, PruneEntry(r))] + []), u, r);
    } else {
      LeadsLoses(s, events, t, r);
    }
  }

  lemma LeadsLoses(s: State, events: seq<Event>, t: State, r: Revision)
    requires Leads(s, events, t) && !Ready(t, r)
    ensures CanLose(s, r)
  {
  }

  /** A process that waits to replace a legacy directory of its revision can leave none behind. */
  lemma MigrationRetires(s: State, p: nat, r: Revision)
    requires Inv(s) && !s.lock && p < |s.processes| && s.processes[p].phase.Waiting?
    requires s.processes[p].prune && s.processes[p].revision == r && IsLegacy(s, r) && !UpToDate(s, s.processes[p])
    ensures CanLose(s, r)
  {
    hide Leads;
    var entered, t := At(s, p, Entered).(lock := true), ClearedFor(s, p);
    var events := CanClear(s, p, entered);
    LeadsBy(s, p, Acquire, events, t);
    LeadsLoses(s, [Event(p, Acquire)] + events, t, r);
  }

  /**
   A prepared revision stays prepared in every run of processes that wait now exactly if none of them is
   there to retire it.
   */
  lemma PreparedForGoodIff(s: State, r: Revision)
    requires Inv(s) && Ready(s, r) && Unshared(s, r)
    requires !s.lock && forall p | 0 <= p < |s.processes| :: s.processes[p].phase.Waiting?
    ensures CanLose(s, r) <==> !Protected(s, r)
  {
    hide Inv, Ready, Unshared, IsLegacy, UpToDate;
    if Protected(s, r) {
      if events :| Legal(s, events) && !Ready(Run(s, events), r) {
        PreparedForGood(s, events, r);
        assert false;
      }
    } else {
      var p :| 0 <= p < |s.processes| && !Harmless(s, s.processes[p], r);
      if s.processes[p].revision != r {
        OtherPrunerRetires(s, p, r);
      } else {
        MigrationRetires(s, p, r);
      }
    }
  }

  /**
   Any directory nobody is working on is a state the results above start from, with whatever entries,
   legacy directories and leftovers it has.
   */
  lemma QuiescentDirectory(s: State)
    requires !s.lock && forall p | 0 <= p < |s.processes| :: s.processes[p].phase.Waiting?
    requires forall id | id in s.generations || id in s.staging || id in s.pointers :: id < s.nextId
    requires forall r | r in s.entries && s.entries[r].ToGeneration? :: s.entries[r].generation < s.nextId
    ensures Inv(s)
  {
  }
}
