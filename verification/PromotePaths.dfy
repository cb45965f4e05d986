/** The agent downloader's promotion: back everything up, then move everything in, or undo both. */
module PromotePaths {
  import opened Prelude
  import opened FileSlots

  /** Set aside, in loop order, but not yet replaced. */
  ghost predicate SetAside(now: Slot, was: Slot) {
    now == Slot(None, was.staged, was.target)
  }

  ghost predicate InPlace(now: Slot, was: Slot) {
    now == Slot(was.staged, None, was.target)
  }

  ghost predicate Exactly(now: Files, was: Files, ps: seq<Paths>) {
    forall i | 0 <= i < |ps| :: SlotOf(now, ps[i]) == SlotOf(was, ps[i])
  }

  /** After the undo of the first phase reached item `i`: nothing lost, and perhaps nothing changed. */
  ghost predicate HalfUndone(now: Slot, was: Slot, undone: bool) {
    && now.backup == was.target
    && (undone ==> SetAside(now, was))
    && (!undone ==> InPlace(now, was))
  }

  /** The files that are not exactly as before. */
  ghost function Displaced(now: Files, was: Files, ps: seq<Paths>): set<nat> {
    set i | 0 <= i < |ps| && SlotOf(now, ps[i]) != SlotOf(was, ps[i])
  }

  method BackUpAll(disk: Disk, ps: seq<Paths>, ghost was: Files) returns (existed: seq<bool>, ok: bool)
    requires Separate(ps) && Staged(was, ps) && disk.files == was
    modifies disk
    ensures |existed| <= |ps| && (ok ==> |existed| == |ps|)
    ensures forall i | 0 <= i < |existed| ::
      SetAside(SlotOf(disk.files, ps[i]), SlotOf(was, ps[i])) && existed[i] == SlotOf(was, ps[i]).target.Some?
    ensures forall i | |existed| <= i < |ps| :: SlotOf(disk.files, ps[i]) == SlotOf(was, ps[i])
    ensures AllKept(disk.files, was, ps)
    ensures old(disk.history) <= disk.history && KeptSince(disk.history, |old(disk.history)|, was, ps)
    ensures disk.failures == old(disk.failures) + if ok then 0 else 1
  {
    existed := [];
    for i := 0 to |ps|
      invariant |existed| == i
      invariant forall j | 0 <= j < i ::
        SetAside(SlotOf(disk.files, ps[j]), SlotOf(was, ps[j])) && existed[j] == SlotOf(was, ps[j]).target.Some?
      invariant forall j | i <= j < |ps| :: SlotOf(disk.files, ps[j]) == SlotOf(was, ps[j])
      invariant AllKept(disk.files, was, ps)
      invariant old(disk.history) <= disk.history && KeptSince(disk.history, |old(disk.history)|, was, ps)
      invariant disk.failures == old(disk.failures)
    {
      ghost var before := disk.files;
      var moved := disk.Rename(ps[i].target, ps[i].backup);
      AllStayKept(ps, i, disk.files, before, was);
      OthersUnchanged(ps, i, disk.files, before);
      if moved.Refused? {
        return existed, false;
      }
      existed := existed + [moved.Done?];
    }
    return existed, true;
  }

  method MoveAllIn(disk: Disk, ps: seq<Paths>, ghost was: Files) returns (promoted: nat)
    requires Separate(ps) && Staged(was, ps) && AllKept(disk.files, was, ps)
    requires forall i | 0 <= i < |ps| :: SetAside(SlotOf(disk.files, ps[i]), SlotOf(was, ps[i]))
    modifies disk
    ensures promoted <= |ps| && AllKept(disk.files, was, ps)
    ensures forall i | 0 <= i < promoted :: InPlace(SlotOf(disk.files, ps[i]), SlotOf(was, ps[i]))
    ensures forall i | promoted <= i < |ps| :: SetAside(SlotOf(disk.files, ps[i]), SlotOf(was, ps[i]))
    ensures old(disk.history) <= disk.history && KeptSince(disk.history, |old(disk.history)|, was, ps)
    ensures disk.failures == old(disk.failures) + if promoted == |ps| then 0 else 1
  {
    promoted := 0;
    while promoted < |ps|
      invariant promoted <= |ps| && AllKept(disk.files, was, ps)
      invariant forall i | 0 <= i < promoted :: InPlace(SlotOf(disk.files, ps[i]), SlotOf(was, ps[i]))
      invariant forall i | promoted <= i < |ps| :: SetAside(SlotOf(disk.files, ps[i]), SlotOf(was, ps[i]))
      invariant old(disk.history) <= disk.history && KeptSince(disk.history, |old(disk.history)|, was, ps)
      invariant disk.failures == old(disk.failures)
    {
      ghost var before := disk.files;
      var moved := disk.Rename(ps[promoted].staged, ps[promoted].target);
      AllStayKept(ps, promoted, disk.files, before, was);
      OthersUnchanged(ps, promoted, disk.files, before);
      if !moved.Done? {
        return;
      }
      promoted := promoted + 1;
    }
  }

  method MoveBackOne(disk: Disk, ps: seq<Paths>, k: nat, ghost was: Files) returns (moved: bool)
    requires Separate(ps) && Staged(was, ps) && k < |ps| && AllKept(disk.files, was, ps)
    requires InPlace(SlotOf(disk.files, ps[k]), SlotOf(was, ps[k]))
    modifies disk
    ensures HalfUndone(SlotOf(disk.files, ps[k]), SlotOf(was, ps[k]), moved)
    ensures forall j | 0 <= j < |ps| && j != k :: SlotOf(disk.files, ps[j]) == old(SlotOf(disk.files, ps[j]))
    ensures AllKept(disk.files, was, ps)
    ensures old(disk.history) <= disk.history && KeptSince(disk.history, |old(disk.history)|, was, ps)
    ensures disk.failures == old(disk.failures) + if moved then 0 else 1
  {
    ghost var before := disk.files;
    var outcome := disk.Rename(ps[k].target, ps[k].staged);
    AllStayKept(ps, k, disk.files, before, was);
    OthersUnchanged(ps, k, disk.files, before);
    return outcome.Done?;
  }

  /**
   Moves promoted files back to where they were staged. A failure is ignored and only noted here: it does
   not stop the others, so that exactly as many files stay in place as renames failed.
   */
  method MoveBack(disk: Disk, ps: seq<Paths>, count: nat, promoted: nat, ghost was: Files)
    returns (ghost stuck: set<nat>)
    requires Separate(ps) && Staged(was, ps) && promoted <= count <= |ps| && AllKept(disk.files, was, ps)
    requires forall i | 0 <= i < promoted :: InPlace(SlotOf(disk.files, ps[i]), SlotOf(was, ps[i]))
    requires forall i | promoted <= i < count :: SetAside(SlotOf(disk.files, ps[i]), SlotOf(was, ps[i]))
    modifies disk
    ensures AllKept(disk.files, was, ps)
    ensures forall i | 0 <= i < count :: HalfUndone(SlotOf(disk.files, ps[i]), SlotOf(was, ps[i]), i !in stuck)
    ensures forall i | count <= i < |ps| :: SlotOf(disk.files, ps[i]) == old(SlotOf(disk.files, ps[i]))
    ensures old(disk.history) <= disk.history && KeptSince(disk.history, |old(disk.history)|, was, ps)
    ensures disk.failures == old(disk.failures) + |stuck| && forall i | i in stuck :: i < count
  {
    hide SlotOf, Kept, AllKept;
    stuck := {};
    var k := promoted;
    while k > 0
      invariant 0 <= k <= promoted && AllKept(disk.files, was, ps)
      invariant forall i | 0 <= i < k :: InPlace(SlotOf(disk.files, ps[i]), SlotOf(was, ps[i]))
      invariant forall i | k <= i < count :: HalfUndone(SlotOf(disk.files, ps[i]), SlotOf(was, ps[i]), i !in stuck)
      invariant forall i | count <= i < |ps| :: SlotOf(disk.files, ps[i]) == old(SlotOf(disk.files, ps[i]))
      invariant old(disk.history) <= disk.history && KeptSince(disk.history, |old(disk.history)|, was, ps)
      invariant disk.failures == old(disk.failures) + |stuck| && forall i | i in stuck :: k <= i < count
    {
      k := k - 1;
      var moved := MoveBackOne(disk, ps, k, was);
      stuck := if moved then stuck else stuck + {k};
    }
  }

  method PutBackOne(disk: Disk, ps: seq<Paths>, k: nat, existed: bool, ghost moved: bool, ghost was: Files)
    returns (ghost back: bool)
    requires Separate(ps) && Staged(was, ps) && k < |ps| && AllKept(disk.files, was, ps)
    requires HalfUndone(SlotOf(disk.files, ps[k]), SlotOf(was, ps[k]), moved)
    requires existed == SlotOf(was, ps[k]).target.Some?
    modifies disk
    ensures moved && back <==> SlotOf(disk.files, ps[k]) == SlotOf(was, ps[k])
    ensures forall j | 0 <= j < |ps| && j != k :: SlotOf(disk.files, ps[j]) == old(SlotOf(disk.files, ps[j]))
    ensures AllKept(disk.files, was, ps)
    ensures old(disk.history) <= disk.history && KeptSince(disk.history, |old(disk.history)|, was, ps)
    ensures disk.failures == old(disk.failures) + if back then 0 else 1
  {
    back := true;
    if existed {
      ghost var before := disk.files;
      var outcome := disk.Rename(ps[k].backup, ps[k].target);
      AllStayKept(ps, k, disk.files, before, was);
      OthersUnchanged(ps, k, disk.files, before);
      back := outcome.Done?;
    }
  }

  /**
   Puts the backups back, again without stopping at a failure. The disk is as before exactly where both
   undo renames succeeded.
   */
  method PutBack(disk: Disk, ps: seq<Paths>, existed: seq<bool>, ghost stuck: set<nat>, ghost was: Files)
    requires Separate(ps) && Staged(was, ps) && |existed| <= |ps| && AllKept(disk.files, was, ps)
    requires forall i | 0 <= i < |existed| ::
      && HalfUndone(SlotOf(disk.files, ps[i]), SlotOf(was, ps[i]), i !in stuck)
      && existed[i] == SlotOf(was, ps[i]).target.Some?
    requires forall i | |existed| <= i < |ps| :: SlotOf(disk.files, ps[i]) == SlotOf(was, ps[i])
    requires forall i | i in stuck :: i < |existed|
    modifies disk
    ensures disk.failures >= old(disk.failures)
    ensures Displaced(disk.files, was, ps) == {} <==> stuck == {} && disk.failures == old(disk.failures)
    ensures |Displaced(disk.files, was, ps)| <= |stuck| + disk.failures - old(disk.failures)
    ensures AllKept(disk.files, was, ps)
    ensures old(disk.history) <= disk.history && KeptSince(disk.history, |old(disk.history)|, was, ps)
  {
    hide SlotOf, Kept, AllKept, HalfUndone;
    ghost var lost: set<nat> := {};
    var k := |existed|;
    while k > 0
      invariant 0 <= k <= |existed| && AllKept(disk.files, was, ps)
      invariant forall i | 0 <= i < k :: HalfUndone(SlotOf(disk.files, ps[i]), SlotOf(was, ps[i]), i !in stuck)
      invariant forall i | k <= i < |ps| ::
        SlotOf(disk.files, ps[i]) == SlotOf(was, ps[i]) <==> i !in stuck && i !in lost
      invariant disk.failures == old(disk.failures) + |lost| && forall i | i in lost :: k <= i < |existed|
      invariant old(disk.history) <= disk.history && KeptSince(disk.history, |old(disk.history)|, was, ps)
    {
      k := k - 1;
      ghost var back := PutBackOne(disk, ps, k, existed[k], k !in stuck, was);
      lost := if back then lost else lost + {k};
    }
    DisplacedAre(disk.files, was, ps, lost, stuck);
  }

  lemma NoneDisplacedIff(now: Files, was: Files, ps: seq<Paths>)
    ensures Displaced(now, was, ps) == {} <==> Exactly(now, was, ps)
  {
    if Displaced(now, was, ps) == {} {
      forall i: nat | i < |ps|
        ensures SlotOf(now, ps[i]) == SlotOf(was, ps[i])
      {
        assert i !in Displaced(now, was, ps);
      }
    }
  }

  lemma DisplacedAre(now: Files, was: Files, ps: seq<Paths>, lost: set<nat>, stuck: set<nat>)
    requires forall i | i in lost || i in stuck :: i < |ps|
    requires forall i | 0 <= i < |ps| :: SlotOf(now, ps[i]) == SlotOf(was, ps[i]) <==> i !in stuck && i !in lost
    ensures Displaced(now, was, ps) == lost + stuck
    ensures |Displaced(now, was, ps)| <= |lost| + |stuck|
  {
  }

  method RemoveBackups(disk: Disk, ps: seq<Paths>, existed: seq<bool>, ghost was: Files, ghost versions: seq<Content>)
    returns (clean: bool)
    requires Separate(ps) && |existed| == |versions| == |ps|
    requires forall i | 0 <= i < |ps| ::
      && SlotOf(disk.files, ps[i]).target == Some(versions[i]) && SlotOf(disk.files, ps[i]).staged.None?
      && (!existed[i] ==> SlotOf(disk.files, ps[i]).backup.None?)
    modifies disk
    ensures AllNew(disk.files, versions, ps)
    ensures disk.failures == old(disk.failures) + if clean then 0 else 1
    ensures clean ==> forall i | 0 <= i < |ps| :: SlotOf(disk.files, ps[i]) == Slot(Some(versions[i]), None, None)
    ensures old(disk.history) <= disk.history && SafeSince(disk.history, |old(disk.history)|, was, ps, versions)
  {
    for i := 0 to |ps|
      invariant forall j | 0 <= j < |ps| ::
        && SlotOf(disk.files, ps[j]).target == Some(versions[j]) && SlotOf(disk.files, ps[j]).staged.None?
        && (!existed[j] || j < i ==> SlotOf(disk.files, ps[j]).backup.None?)
      invariant disk.failures == old(disk.failures)
      invariant old(disk.history) <= disk.history && SafeSince(disk.history, |old(disk.history)|, was, ps, versions)
    {
      if existed[i] {
        ghost var before := disk.files;
        var removed := disk.Remove(ps[i].backup);
        assert Only(PathSet(ps[i]), disk.files, before);
        OthersUnchanged(ps, i, disk.files, before);
        assert AllNew(disk.files, versions, ps);
        if !removed {
          return false;
        }
      }
    }
    return true;
  }

  /**
   For every way its renames may fail: with no failure every destination holds its source and no
   backup remains; after the failure that makes it undo everything, the paths are exactly as before,
   sources included, if and only if nothing else failed, that is, every rename of the undo succeeded;
   no more of them are not as before than renames of the undo failed; and at no moment is an old
   file lost before all new ones are in.
   */
  method Promote(disk: Disk, ps: seq<Paths>, ghost versions: seq<Content>)
    returns (ok: bool, clean: bool)
    requires Separate(ps) && Staged(disk.files, ps) && |versions| == |ps|
    requires forall i | 0 <= i < |ps| :: SlotOf(disk.files, ps[i]).staged == Some(versions[i])
    modifies disk
    ensures ok ==> AllNew(disk.files, versions, ps)
    ensures ok && clean ==>
      forall i | 0 <= i < |ps| :: SlotOf(disk.files, ps[i]) == Slot(Some(versions[i]), None, None)
    ensures disk.failures >= old(disk.failures)
    ensures disk.failures == old(disk.failures) <==> ok && clean
    ensures !ok ==> (disk.failures == old(disk.failures) + 1 <==> Exactly(disk.files, old(disk.files), ps))
    ensures !ok ==> |Displaced(disk.files, old(disk.files), ps)| <= disk.failures - old(disk.failures) - 1
    ensures !ok ==> AllKept(disk.files, old(disk.files), ps) && !clean
    ensures old(disk.history) <= disk.history
    ensures SafeSince(disk.history, |old(disk.history)|, old(disk.files), ps, versions)
  {
    ghost var was := disk.files;
    clean := false;
    var existed, backedUp := BackUpAll(disk, ps, was);
    var promoted := 0;
    if backedUp {
      promoted := MoveAllIn(disk, ps, was);
      if promoted == |ps| {
        clean := RemoveBackups(disk, ps, existed, was, versions);
        return true, clean;
      }
    }
    ghost var stuck := MoveBack(disk, ps, |existed|, promoted, was);
    PutBack(disk, ps, existed, stuck, was);
    NoneDisplacedIff(disk.files, was, ps);
    return false, false;
  }
}
