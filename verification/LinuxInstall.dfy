/** The Linux installer's swap of four files: promotion, rollback and cleanup. */
module LinuxInstalls {
  import opened Prelude
  import opened FileSlots

  class StagedReplacement {
    const paths: Paths
    var hadPreviousTarget: bool
    var promoted: bool

    constructor (paths: Paths)
      ensures this.paths == paths && !hadPreviousTarget && !promoted
    {
      this.paths := paths;
      hadPreviousTarget, promoted := false, false;
    }
  }

  /** What the two flags of a replacement say about the disk. */
  ghost predicate Tracks(had: bool, promoted: bool, now: Slot, was: Slot) {
    && (had ==> was.target.Some?)
    && now.backup == (if had then was.target else None)
    && (!promoted ==> now.target == if had then None else was.target)
    && (promoted ==> had == was.target.Some?)
  }

  ghost predicate Owns(rs: seq<StagedReplacement>, ps: seq<Paths>) {
    && |rs| == |ps|
    && (forall i | 0 <= i < |rs| :: rs[i].paths == ps[i])
    && (forall i, j | 0 <= i < j < |rs| :: rs[i] != rs[j])
  }

  ghost predicate AllTracked(rs: seq<StagedReplacement>, ps: seq<Paths>, now: Files, was: Files)
    requires Owns(rs, ps)
    reads rs
  {
    forall i | 0 <= i < |rs| ::
      Tracks(rs[i].hadPreviousTarget, rs[i].promoted, SlotOf(now, ps[i]), SlotOf(was, ps[i]))
  }

  method PromoteReplacement(disk: Disk, rs: seq<StagedReplacement>, i: nat, ghost ps: seq<Paths>, ghost was: Files)
    returns (ok: bool)
    requires Owns(rs, ps) && Separate(ps) && i < |rs| && AllKept(disk.files, was, ps)
    requires !rs[i].hadPreviousTarget && !rs[i].promoted
    requires Tracks(false, false, SlotOf(disk.files, ps[i]), SlotOf(was, ps[i]))
    requires SlotOf(disk.files, ps[i]).staged == SlotOf(was, ps[i]).staged != None
    modifies disk, rs[i]
    ensures Tracks(rs[i].hadPreviousTarget, rs[i].promoted, SlotOf(disk.files, ps[i]), SlotOf(was, ps[i]))
    ensures ok ==> SlotOf(disk.files, ps[i]).target == SlotOf(was, ps[i]).staged
    ensures Only(PathSet(ps[i]), disk.files, old(disk.files))
    ensures old(disk.history) <= disk.history && KeptSince(disk.history, |old(disk.history)|, was, ps)
    ensures disk.failures == old(disk.failures) + if ok then 0 else 1
    ensures AllKept(disk.files, was, ps)
  {
    var r := rs[i];
    var found := disk.Stat(r.paths.target);
    if found.Done? {
      found := disk.Rename(r.paths.target, r.paths.backup);
      AllStayKept(ps, i, disk.files, old(disk.files), was);
      if found.Done? {
        r.hadPreviousTarget := true;
      }
    }
    if found.Refused? {
      return false;
    }
    ghost var before := disk.files;
    var placed := disk.Rename(r.paths.staged, r.paths.target);
    AllStayKept(ps, i, disk.files, before, was);
    if !placed.Done? {
      return false;
    }
    r.promoted := true;
    return true;
  }

  method RollbackReplacement(disk: Disk, rs: seq<StagedReplacement>, i: nat, ghost ps: seq<Paths>, ghost was: Files)
    returns (ok: bool)
    requires Owns(rs, ps) && Separate(ps) && i < |rs| && AllKept(disk.files, was, ps)
    requires Tracks(rs[i].hadPreviousTarget, rs[i].promoted, SlotOf(disk.files, ps[i]), SlotOf(was, ps[i]))
    modifies disk, rs[i]
    ensures Tracks(rs[i].hadPreviousTarget, rs[i].promoted, SlotOf(disk.files, ps[i]), SlotOf(was, ps[i]))
    ensures ok ==> SlotOf(disk.files, ps[i]).target == SlotOf(was, ps[i]).target
    ensures Only(PathSet(ps[i]), disk.files, old(disk.files))
    ensures old(disk.history) <= disk.history && KeptSince(disk.history, |old(disk.history)|, was, ps)
    ensures disk.failures == old(disk.failures) + if ok then 0 else 1
    ensures AllKept(disk.files, was, ps)
  {
    var r := rs[i];
    if r.promoted {
      var removed := disk.Remove(r.paths.target);
      AllStayKept(ps, i, disk.files, old(disk.files), was);
      if !removed {
        return false;
      }
      r.promoted := false;
    }
    if r.hadPreviousTarget {
      ghost var before := disk.files;
      var moved := disk.Rename(r.paths.backup, r.paths.target);
      AllStayKept(ps, i, disk.files, before, was);
      if !moved.Done? {
        return false;
      }
      r.hadPreviousTarget := false;
    }
    return true;
  }

  ghost predicate NothingBeside(files: Files, ps: seq<Paths>) {
    forall i | 0 <= i < |ps| :: ps[i].staged !in files && ps[i].backup !in files
  }

  ghost predicate TargetsSame(ps: seq<Paths>, now: Files, before: Files) {
    forall i | 0 <= i < |ps| :: Lookup(now, ps[i].target) == Lookup(before, ps[i].target)
  }

  lemma BesideTargets(ps: seq<Paths>, i: nat, path: Path, now: Files, before: Files)
    requires Separate(ps) && i < |ps| && path in {ps[i].staged, ps[i].backup} && Only({path}, now, before)
    ensures TargetsSame(ps, now, before)
  {
    forall j | 0 <= j < |ps|
      ensures ps[j].target != path
    {
      assert path in PathSet(ps[i]) && ps[j].target in PathSet(ps[j]);
      assert j != i ==> PathSet(ps[i]) !! PathSet(ps[j]);
    }
  }

  /** The files of the swap that still have something beside their targets. */
  ghost function Untidy(files: Files, ps: seq<Paths>): set<nat> {
    set i | 0 <= i < |ps| && (ps[i].staged in files || ps[i].backup in files)
  }

  /**
   Removes the first staging directories. One that cannot be removed does not stop the others, so that no
   more of them remain than removals failed.
   */
  method CleanupReplacements(disk: Disk, ps: seq<Paths>, count: nat) returns (clean: bool)
    requires Separate(ps) && count <= |ps|
    modifies disk
    ensures TargetsSame(ps, disk.files, old(disk.files))
    ensures clean ==> NothingBeside(disk.files, ps[..count])
    ensures |Untidy(disk.files, ps[..count])| <= disk.failures - old(disk.failures)
    ensures clean <==> disk.failures == old(disk.failures)
    ensures disk.files.Keys <= old(disk.files.Keys)
    ensures old(disk.history) <= disk.history
    ensures forall k | |old(disk.history)| <= k < |disk.history| :: TargetsSame(ps, disk.history[k], old(disk.files))
  {
    clean := true;
    ghost var left: set<nat> := {};
    for i := 0 to count
      invariant TargetsSame(ps, disk.files, old(disk.files))
      invariant forall j | 0 <= j < i && j !in left :: ps[j].staged !in disk.files && ps[j].backup !in disk.files
      invariant |left| <= disk.failures - old(disk.failures) && (forall j | j in left :: j < i)
      invariant clean <==> disk.failures == old(disk.failures)
      invariant clean ==> left == {}
      invariant disk.files.Keys <= old(disk.files.Keys)
      invariant old(disk.history) <= disk.history
      invariant forall k | |old(disk.history)| <= k < |disk.history| ::
        TargetsSame(ps, disk.history[k], old(disk.files))
    {
      ghost var before := disk.files;
      var stagedGone := disk.Remove(ps[i].staged);
      BesideTargets(ps, i, ps[i].staged, disk.files, before);
      before := disk.files;
      var backupGone := disk.Remove(ps[i].backup);
      BesideTargets(ps, i, ps[i].backup, disk.files, before);
      clean := clean && stagedGone && backupGone;
      if !stagedGone || !backupGone {
        left := left + {i};
      }
    }
    SubsetIsSmaller(Untidy(disk.files, ps[..count]), left);
  }

  method PromoteAll(disk: Disk, rs: seq<StagedReplacement>, ghost ps: seq<Paths>, ghost was: Files)
    returns (ok: bool)
    requires Owns(rs, ps) && Separate(ps) && Staged(was, ps) && disk.files == was
    requires forall i | 0 <= i < |rs| :: !rs[i].hadPreviousTarget && !rs[i].promoted
    modifies disk, rs
    ensures AllTracked(rs, ps, disk.files, was) && AllKept(disk.files, was, ps)
    ensures ok ==> forall i | 0 <= i < |ps| :: SlotOf(disk.files, ps[i]).target == SlotOf(was, ps[i]).staged
    ensures old(disk.history) <= disk.history && KeptSince(disk.history, |old(disk.history)|, was, ps)
    ensures disk.failures == old(disk.failures) + if ok then 0 else 1
  {
    for i := 0 to |rs|
      invariant AllTracked(rs, ps, disk.files, was) && AllKept(disk.files, was, ps)
      invariant forall j | i <= j < |rs| :: !rs[j].hadPreviousTarget && !rs[j].promoted
      invariant forall j | i <= j < |ps| :: SlotOf(disk.files, ps[j]) == SlotOf(was, ps[j])
      invariant forall j | 0 <= j < i :: SlotOf(disk.files, ps[j]).target == SlotOf(was, ps[j]).staged
      invariant old(disk.history) <= disk.history && KeptSince(disk.history, |old(disk.history)|, was, ps)
      invariant disk.failures == old(disk.failures)
    {
      ghost var before := disk.files;
      ok := PromoteReplacement(disk, rs, i, ps, was);
      OthersUnchanged(ps, i, disk.files, before);
      if !ok {
        return false;
      }
    }
    return true;
  }

  /**
   Rolls every file back, in reverse. One that cannot be rolled back does not stop the others, so that no
   more targets differ from before than errors were met.
   */
  method RollbackAll(disk: Disk, rs: seq<StagedReplacement>, ghost ps: seq<Paths>, ghost was: Files)
    returns (errors: nat)
    requires Owns(rs, ps) && Separate(ps) && AllTracked(rs, ps, disk.files, was) && AllKept(disk.files, was, ps)
    modifies disk, rs
    ensures AllKept(disk.files, was, ps)
    ensures |Changed(disk.files, was, ps)| <= errors
    ensures errors == 0 ==> AllAsBefore(disk.files, was, ps)
    ensures old(disk.history) <= disk.history && KeptSince(disk.history, |old(disk.history)|, was, ps)
    ensures disk.failures == old(disk.failures) + errors
  {
    hide SlotOf, Kept, AllKept, Tracks;
    errors := 0;
    ghost var failed: set<nat> := {};
    var i := |rs|;
    while i > 0
      invariant 0 <= i <= |rs|
      invariant AllTracked(rs, ps, disk.files, was) && AllKept(disk.files, was, ps)
      invariant |failed| == errors && forall j | j in failed :: i <= j
      invariant forall j | i <= j < |ps| && j !in failed ::
        SlotOf(disk.files, ps[j]).target == SlotOf(was, ps[j]).target
      invariant old(disk.history) <= disk.history && KeptSince(disk.history, |old(disk.history)|, was, ps)
      invariant disk.failures == old(disk.failures) + errors
    {
      i := i - 1;
      ghost var before := disk.files;
      var ok := RollbackReplacement(disk, rs, i, ps, was);
      OthersUnchanged(ps, i, disk.files, before);
      if !ok {
        errors := errors + 1;
        failed := failed + {i};
      }
    }
    SubsetIsSmaller(Changed(disk.files, was, ps), failed);
  }

  /** The versions are staged beside untouched targets. */
  ghost predicate StagedFor(now: Files, origin: Files, ps: seq<Paths>, versions: seq<Content>)
    requires |versions| == |ps|
  {
    && TargetsSame(ps, now, origin)
    && forall i | 0 <= i < |ps| ::
         SlotOf(now, ps[i]).staged == Some(versions[i]) && SlotOf(now, ps[i]).backup.None?
  }

  /** Stages one version beside its target. */
  method StageReplacement(disk: Disk, ps: seq<Paths>, i: nat, version: Content)
    returns (r: Option<StagedReplacement>)
    requires Separate(ps) && i < |ps|
    modifies disk
    ensures TargetsSame(ps, disk.files, old(disk.files))
    ensures forall j | 0 <= j < |ps| && j != i :: SlotOf(disk.files, ps[j]) == SlotOf(old(disk.files), ps[j])
    ensures r.Some? ==>
      && fresh(r.value) && r.value.paths == ps[i] && !r.value.hadPreviousTarget && !r.value.promoted
      && SlotOf(disk.files, ps[i]).staged == Some(version)
      && SlotOf(disk.files, ps[i]).backup == SlotOf(old(disk.files), ps[i]).backup
    ensures disk.failures == old(disk.failures) + if r.Some? then 0 else 1
    ensures disk.history == old(disk.history) + [disk.files]
  {
    ghost var before := disk.files;
    var staged := disk.Create(ps[i].staged, version);
    BesideTargets(ps, i, ps[i].staged, disk.files, before);
    assert Only(PathSet(ps[i]), disk.files, before);
    OthersUnchanged(ps, i, disk.files, before);
    if staged {
      var replacement := new StagedReplacement(ps[i]);
      return Some(replacement);
    }
    return None;
  }

  method StageAll(disk: Disk, ps: seq<Paths>, versions: seq<Content>)
    returns (rs: seq<StagedReplacement>, ok: bool)
    requires Separate(ps) && |versions| == |ps| && NothingBeside(disk.files, ps)
    modifies disk
    ensures fresh(rs) && TargetsSame(ps, disk.files, old(disk.files))
    ensures ok ==> Owns(rs, ps) && StagedFor(disk.files, old(disk.files), ps, versions)
    ensures ok ==> forall i | 0 <= i < |rs| :: !rs[i].hadPreviousTarget && !rs[i].promoted
    ensures !ok ==> |rs| < |ps| && forall i | |rs| < i < |ps| ::
      ps[i].staged !in disk.files && ps[i].backup !in disk.files
    ensures disk.failures == old(disk.failures) + if ok then 0 else 1
    ensures old(disk.history) <= disk.history
    ensures forall k | |old(disk.history)| <= k < |disk.history| :: TargetsSame(ps, disk.history[k], old(disk.files))
  {
    rs := [];
    for i := 0 to |ps|
      invariant |rs| == i && fresh(rs) && TargetsSame(ps, disk.files, old(disk.files))
      invariant forall j | 0 <= j < i :: rs[j].paths == ps[j] && !rs[j].hadPreviousTarget && !rs[j].promoted
      invariant forall j, k | 0 <= j < k < i :: rs[j] != rs[k]
      invariant forall j | 0 <= j < i ::
        SlotOf(disk.files, ps[j]).staged == Some(versions[j]) && SlotOf(disk.files, ps[j]).backup.None?
      invariant forall j | i <= j < |ps| ::
        SlotOf(disk.files, ps[j]).staged.None? && SlotOf(disk.files, ps[j]).backup.None?
      invariant disk.failures == old(disk.failures)
      invariant old(disk.history) <= disk.history
      invariant forall k | |old(disk.history)| <= k < |disk.history| ::
        TargetsSame(ps, disk.history[k], old(disk.files))
    {
      var r := StageReplacement(disk, ps, i, versions[i]);
      if r.None? {
        return rs, false;
      }
      rs := rs + [r.value];
    }
    return rs, true;
  }

  /** Touching nothing but what lies beside the targets keeps a safe state safe. */
  lemma SafeWithSameTargets(ps: seq<Paths>, now: Files, before: Files, origin: Files, versions: seq<Content>)
    requires TargetsSame(ps, now, before)
    requires AllAsBefore(before, origin, ps) || AllNew(before, versions, ps)
    ensures Safe(now, origin, ps, versions)
    ensures AllAsBefore(before, origin, ps) ==> AllAsBefore(now, origin, ps)
    ensures AllNew(before, versions, ps) ==> AllNew(now, versions, ps)
  {
    if AllAsBefore(before, origin, ps) {
      forall i | 0 <= i < |ps|
        ensures SlotOf(now, ps[i]).target == SlotOf(origin, ps[i]).target
      {
        assert SlotOf(before, ps[i]).target == SlotOf(origin, ps[i]).target;
      }
    } else {
      forall i | 0 <= i < |ps|
        ensures SlotOf(now, ps[i]).target == Some(versions[i])
      {
        assert SlotOf(before, ps[i]).target == Some(versions[i]);
      }
    }
  }

  lemma SafeWhileTargetsSame(
    ps: seq<Paths>, history: seq<Files>, mark: nat, before: Files, origin: Files, versions: seq<Content>)
    requires forall k | mark <= k < |history| :: TargetsSame(ps, history[k], before)
    requires AllAsBefore(before, origin, ps) || AllNew(before, versions, ps)
    ensures SafeSince(history, mark, origin, ps, versions)
  {
    forall k | mark <= k < |history|
      ensures Safe(history[k], origin, ps, versions)
    {
      SafeWithSameTargets(ps, history[k], before, origin, versions);
    }
  }

  /** A cleanup of untouched or fully replaced targets, with what it means for the whole history. */
  method CleanupSafely(disk: Disk, ps: seq<Paths>, count: nat, ghost origin: Files, ghost versions: seq<Content>)
    returns (clean: bool)
    requires Separate(ps) && count <= |ps|
    requires AllAsBefore(disk.files, origin, ps) || AllNew(disk.files, versions, ps)
    modifies disk
    ensures old(AllAsBefore(disk.files, origin, ps)) ==> AllAsBefore(disk.files, origin, ps)
    ensures old(AllNew(disk.files, versions, ps)) ==> AllNew(disk.files, versions, ps)
    ensures clean ==> NothingBeside(disk.files, ps[..count])
    ensures |Untidy(disk.files, ps[..count])| <= disk.failures - old(disk.failures)
    ensures clean <==> disk.failures == old(disk.failures)
    ensures disk.files.Keys <= old(disk.files.Keys)
    ensures old(disk.history) <= disk.history
    ensures SafeSince(disk.history, |old(disk.history)|, origin, ps, versions)
  {
    ghost var before, mark := disk.files, |disk.history|;
    clean := CleanupReplacements(disk, ps, count);
    SafeWithSameTargets(ps, disk.files, before, origin, versions);
    SafeWhileTargetsSame(ps, disk.history, mark, before, origin, versions);
  }

  /** What is kept relative to the staged disk is kept relative to the original one. */
  lemma KeptFromOrigin(ps: seq<Paths>, now: Files, was: Files, origin: Files)
    requires TargetsSame(ps, was, origin)
    ensures AllKept(now, was, ps) <==> AllKept(now, origin, ps)
    ensures AllAsBefore(now, was, ps) <==> AllAsBefore(now, origin, ps)
    ensures Changed(now, was, ps) == Changed(now, origin, ps)
  {
    assert forall i | 0 <= i < |ps| :: SlotOf(was, ps[i]).target == SlotOf(origin, ps[i]).target;
    assert forall i | 0 <= i < |ps| ::
      Kept(SlotOf(now, ps[i]), SlotOf(was, ps[i])) <==> Kept(SlotOf(now, ps[i]), SlotOf(origin, ps[i]));
  }

  /** `Incomplete` is the error that says recovery files remain beside the targets. */
  datatype Install = Installed | Unchanged | Incomplete

  /** The swap of staged replacements: all of them, or none, or the report that neither was possible. */
  method Swap(disk: Disk, rs: seq<StagedReplacement>, ps: seq<Paths>, ghost origin: Files, ghost versions: seq<Content>)
    returns (result: Install)
    requires Owns(rs, ps) && Separate(ps) && |versions| == |ps| && StagedFor(disk.files, origin, ps, versions)
    requires forall i | 0 <= i < |rs| :: !rs[i].hadPreviousTarget && !rs[i].promoted
    modifies disk, rs
    ensures result.Installed? ==> AllNew(disk.files, versions, ps)
    ensures result.Unchanged? ==> AllAsBefore(disk.files, origin, ps)
    ensures disk.failures >= old(disk.failures)
    ensures result.Installed? <==> disk.failures == old(disk.failures)
    ensures result.Unchanged? <==> disk.failures == old(disk.failures) + 1
    ensures !result.Installed? ==> |Changed(disk.files, origin, ps)| <= disk.failures - old(disk.failures) - 1
    ensures AllKept(disk.files, origin, ps)
    ensures old(disk.history) <= disk.history && KeptSince(disk.history, |old(disk.history)|, origin, ps)
  {
    ghost var was, mark := disk.files, |disk.history|;
    var ok := PromoteAll(disk, rs, ps, was);
    result := Installed;
    if !ok {
      var errors := RollbackAll(disk, rs, ps, was);
      result := if errors > 0 then Incomplete else Unchanged;
    }
    KeptFromOrigin(ps, disk.files, was, origin);
    forall k | mark <= k < |disk.history|
      ensures AllKept(disk.history[k], origin, ps)
    {
      KeptFromOrigin(ps, disk.history[k], was, origin);
    }
  }

  /**
   For every way its operations may fail, the installer either puts every new version in place, or
   leaves every target as it was, or says that it could do neither; and at no moment, whatever the
   outcome, is an old version gone before every new one is in place. With no failure it installs and
   cleans up, and one failure alone never leaves it between the two. When it does not install, no more
   targets differ from before than operations failed after the first failure; and unless it is incomplete,
   no more files have something left beside them than operations failed, that first one not counted.
   */
  method InstallLinuxBundle(disk: Disk, ps: seq<Paths>, versions: seq<Content>)
    returns (result: Install, clean: bool)
    requires Separate(ps) && |versions| == |ps| && NothingBeside(disk.files, ps)
    modifies disk
    ensures result.Installed? ==> AllNew(disk.files, versions, ps)
    ensures result.Unchanged? ==> AllAsBefore(disk.files, old(disk.files), ps)
    ensures result.Incomplete? ==> AllKept(disk.files, old(disk.files), ps)
    ensures disk.failures >= old(disk.failures)
    ensures disk.failures == old(disk.failures) <==> result.Installed? && clean
    ensures disk.failures == old(disk.failures) + 1 ==> !result.Incomplete?
    ensures !result.Installed? ==>
      |Changed(disk.files, old(disk.files), ps)| <= disk.failures - old(disk.failures) - 1
    ensures !result.Incomplete? ==>
      |Untidy(disk.files, ps)| <= disk.failures - old(disk.failures) - if result.Installed? then 0 else 1
    ensures clean ==> !result.Incomplete? && NothingBeside(disk.files, ps)
    ensures old(disk.history) <= disk.history
    ensures SafeSince(disk.history, |old(disk.history)|, old(disk.files), ps, versions)
  {
    hide SlotOf, Kept;
    ghost var origin, mark := disk.files, |disk.history|;
    var rs, ok := StageAll(disk, ps, versions);
    assert AllAsBefore(origin, origin, ps);
    SafeWhileTargetsSame(ps, disk.history, mark, origin, origin, versions);
    SafeWithSameTargets(ps, disk.files, origin, origin, versions);
    if !ok {
      ghost var staged := disk.files;
      clean := CleanupSafely(disk, ps, |rs| + 1, origin, versions);
      assert forall i | |rs| < i < |ps| :: ps[i].staged !in staged && ps[i].backup !in staged;
      assert Untidy(disk.files, ps) == Untidy(disk.files, ps[..|rs| + 1]);
      assert Changed(disk.files, origin, ps) == {};
      return Unchanged, clean;
    }
    result := Swap(disk, rs, ps, origin, versions);
    if result.Incomplete? {
      return result, false;
    }
    clean := CleanupSafely(disk, ps, |ps|, origin, versions);
    assert ps[..|ps|] == ps;
    assert result.Unchanged? ==> Changed(disk.files, origin, ps) == {};
  }
}
