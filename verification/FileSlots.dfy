/**
 The part of a filesystem that a multi-file swap touches. Every operation may fail, as the
 environment chooses; `history` records every state the disk went through and `failures` counts the
 operations that failed.
 */
module FileSlots {
  import opened Prelude

  type Path = string
  type Content = string
  type Files = map<Path, Content>

  /** Where one file of the swap lives: its target, the new version, and the old one once set aside. */
  datatype Paths = Paths(target: Path, staged: Path, backup: Path)

  /** What is found there. */
  datatype Slot = Slot(target: Option<Content>, staged: Option<Content>, backup: Option<Content>)

  function Lookup(files: Files, path: Path): Option<Content> {
    if path in files then Some(files[path]) else None
  }

  function SlotOf(files: Files, p: Paths): Slot {
    Slot(Lookup(files, p.target), Lookup(files, p.staged), Lookup(files, p.backup))
  }

  function PathSet(p: Paths): set<Path> { {p.target, p.staged, p.backup} }

  /** All the paths of the swap are different. */
  ghost predicate Separate(ps: seq<Paths>) {
    && (forall i | 0 <= i < |ps| ::
          ps[i].target != ps[i].staged && ps[i].target != ps[i].backup && ps[i].staged != ps[i].backup)
    && (forall i, j | 0 <= i < j < |ps| :: PathSet(ps[i]) !! PathSet(ps[j]))
  }

  /** The new version is staged and nothing is set aside yet. */
  ghost predicate Staged(was: Files, ps: seq<Paths>) {
    forall i | 0 <= i < |ps| :: SlotOf(was, ps[i]).staged.Some? && SlotOf(was, ps[i]).backup.None?
  }

  /** The old content, if there was any, is still at the target or set aside. */
  predicate Kept(now: Slot, was: Slot) {
    was.target.Some? ==> now.target == was.target || now.backup == was.target
  }

  predicate AllKept(now: Files, was: Files, ps: seq<Paths>) {
    forall i | 0 <= i < |ps| :: Kept(SlotOf(now, ps[i]), SlotOf(was, ps[i]))
  }

  /** Every target holds its new version. */
  predicate AllNew(now: Files, versions: seq<Content>, ps: seq<Paths>) {
    |versions| == |ps| && forall i | 0 <= i < |ps| :: SlotOf(now, ps[i]).target == Some(versions[i])
  }

  predicate AllAsBefore(now: Files, was: Files, ps: seq<Paths>) {
    forall i | 0 <= i < |ps| :: SlotOf(now, ps[i]).target == SlotOf(was, ps[i]).target
  }

  /** The files of the swap whose targets are not as before. */
  ghost function Changed(now: Files, was: Files, ps: seq<Paths>): set<nat> {
    set i | 0 <= i < |ps| && SlotOf(now, ps[i]).target != SlotOf(was, ps[i]).target
  }

  lemma {:induction false} SubsetIsSmaller(a: set<nat>, b: set<nat>)
    requires a <= b
    ensures |a| <= |b|
  {
    if a != {} {
      var x :| x in a;
      SubsetIsSmaller(a - {x}, b - {x});
    }
  }

  /** No state loses data: every old content is still somewhere, or every new one is in place. */
  predicate Safe(now: Files, was: Files, ps: seq<Paths>, versions: seq<Content>) {
    AllKept(now, was, ps) || AllNew(now, versions, ps)
  }

  /** Only these paths differ. */
  ghost predicate Only(paths: set<Path>, now: Files, was: Files) {
    forall p | p !in paths :: Lookup(now, p) == Lookup(was, p)
  }

  /** A swap of one file leaves the others alone. */
  lemma OthersUnchanged(ps: seq<Paths>, i: nat, now: Files, was: Files)
    requires Separate(ps) && i < |ps| && Only(PathSet(ps[i]), now, was)
    ensures forall j | 0 <= j < |ps| && j != i :: SlotOf(now, ps[j]) == SlotOf(was, ps[j])
  {
    forall j | 0 <= j < |ps| && j != i
      ensures SlotOf(now, ps[j]) == SlotOf(was, ps[j])
    {
      assert PathSet(ps[i]) !! PathSet(ps[j]);
      assert ps[j].target in PathSet(ps[j]) && ps[j].staged in PathSet(ps[j]) && ps[j].backup in PathSet(ps[j]);
    }
  }

  /** While one file is swapped and stays kept, all of them do. */
  lemma AllStayKept(ps: seq<Paths>, i: nat, now: Files, before: Files, was: Files)
    requires Separate(ps) && i < |ps| && Only(PathSet(ps[i]), now, before)
    requires AllKept(before, was, ps) && Kept(SlotOf(now, ps[i]), SlotOf(was, ps[i]))
    ensures AllKept(now, was, ps)
  {
    OthersUnchanged(ps, i, now, before);
  }

  ghost predicate KeptSince(history: seq<Files>, mark: nat, was: Files, ps: seq<Paths>) {
    forall k | mark <= k < |history| :: AllKept(history[k], was, ps)
  }

  ghost predicate SafeSince(history: seq<Files>, mark: nat, was: Files, ps: seq<Paths>, versions: seq<Content>) {
    forall k | mark <= k < |history| :: Safe(history[k], was, ps, versions)
  }

  /** `NoEntry` is ENOENT, which is only reported when the source is missing. */
  datatype Outcome = Done | NoEntry | Refused

  class Disk {
    var files: Files
    ghost var history: seq<Files>
    ghost var failures: nat

    method Rename(from: Path, to: Path) returns (outcome: Outcome)
      requires from != to
      modifies this
      ensures outcome.NoEntry? ==> from !in old(files)
      ensures outcome.Done? ==> from in old(files) && files == old(files)[to := old(files)[from]] - {from}
      ensures !outcome.Done? ==> files == old(files)
      ensures history == old(history) + [files]
      ensures failures == old(failures) + if outcome.Refused? then 1 else 0
    {
      var refused: bool := *;
      outcome := if refused then Refused else if from in files then Done else NoEntry;
      if outcome.Done? {
        files := files[to := files[from]] - {from};
      }
      history := history + [files];
      failures := failures + if refused then 1 else 0;
    }

    method Stat(path: Path) returns (outcome: Outcome)
      modifies this`failures
      ensures outcome.NoEntry? ==> path !in files
      ensures outcome.Done? ==> path in files
      ensures failures == old(failures) + if outcome.Refused? then 1 else 0
    {
      var refused: bool := *;
      outcome := if refused then Refused else if path in files then Done else NoEntry;
      failures := failures + if refused then 1 else 0;
    }

    /** Creates a staged version; a failed attempt may leave part of it. */
    method Create(path: Path, content: Content) returns (done: bool)
      modifies this
      ensures done ==> files == old(files)[path := content]
      ensures Only({path}, files, old(files))
      ensures history == old(history) + [files]
      ensures failures == old(failures) + if done then 0 else 1
    {
      done := *;
      var partly: bool := *;
      if done {
        files := files[path := content];
      } else if partly {
        var part: Content := *;
        files := files[path := part];
      }
      history := history + [files];
      failures := failures + if done then 0 else 1;
    }

    /** `rm` with `recursive` and `force`. A failed one may have removed part of the tree. */
    method Remove(path: Path) returns (done: bool)
      modifies this
      ensures done ==> files == old(files) - {path}
      ensures !done ==> Only({path}, files, old(files))
      ensures files.Keys <= old(files.Keys)
      ensures history == old(history) + [files]
      ensures failures == old(failures) + if done then 0 else 1
    {
      done := *;
      var partly: bool := *;
      if done {
        files := files - {path};
      } else if partly && path in files {
        var rest: Content := *;
        files := files[path := rest];
      }
      history := history + [files];
      failures := failures + if done then 0 else 1;
    }
  }
}
