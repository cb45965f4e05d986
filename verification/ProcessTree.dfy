/** The search for the descendants of a process: breadth first, with no set of visited processes. */
module ProcessTrees {
  type Pid = int

  /** A line of `ps`: a process and its parent. */
  datatype Row = Row(child: Pid, parent: Pid)

  ghost predicate OneRowEach(rows: seq<Row>) {
    forall i, j | 0 <= i < j < |rows| :: rows[i].child != rows[j].child
  }

  /** `ancestor` is `steps` parents above `pid`. */
  ghost predicate Below(rows: seq<Row>, pid: Pid, ancestor: Pid, steps: nat)
    decreases steps
  {
    steps > 0 && exists row | row in rows ::
      row.child == pid && if steps == 1 then row.parent == ancestor else Below(rows, row.parent, ancestor, steps - 1)
  }

  ghost predicate IsDescendant(rows: seq<Row>, pid: Pid, ancestor: Pid) {
    exists steps: nat :: Below(rows, pid, ancestor, steps)
  }

  function ChildrenOf(rows: seq<Row>, parent: Pid): seq<Pid> {
    if rows == [] then []
    else
      ChildrenOf(rows[..|rows| - 1], parent)
      + if rows[|rows| - 1].parent == parent then [rows[|rows| - 1].child] else []
  }

  ghost predicate Distinct(s: seq<Pid>) { forall i, j | 0 <= i < j < |s| :: s[i] != s[j] }

  lemma {:induction false} ChildrenAre(rows: seq<Row>, parent: Pid, c: Pid)
    ensures c in ChildrenOf(rows, parent) <==> Row(c, parent) in rows
  {
    if rows != [] {
      var n := |rows| - 1;
      ChildrenAre(rows[..n], parent, c);
      assert rows == rows[..n] + [rows[n]];
    }
  }

  lemma {:induction false} ChildrenDistinct(rows: seq<Row>, parent: Pid)
    requires OneRowEach(rows)
    ensures Distinct(ChildrenOf(rows, parent))
  {
    if rows != [] {
      var n := |rows| - 1;
      ChildrenDistinct(rows[..n], parent);
      forall i | 0 <= i < |ChildrenOf(rows[..n], parent)|
        ensures ChildrenOf(rows[..n], parent)[i] != rows[n].child
      {
        ChildrenAre(rows[..n], parent, ChildrenOf(rows[..n], parent)[i]);
      }
    }
  }

  /** A child of a descendant, or of the process itself, is a descendant. */
  lemma ChildIsDescendant(rows: seq<Row>, c: Pid, parent: Pid, pid: Pid)
    requires Row(c, parent) in rows && (parent == pid || IsDescendant(rows, parent, pid))
    ensures IsDescendant(rows, c, pid)
  {
    var row := Row(c, parent);
    if parent == pid {
      assert Below(rows, c, pid, 1);
    } else {
      var steps: nat :| Below(rows, parent, pid, steps);
      assert row in rows && row.child == c;
      assert Below(rows, c, pid, steps + 1);
    }
  }

  // ----- invariants of the search

  ghost predicate HasParentIn(rows: seq<Row>, c: Pid, among: seq<Pid>) {
    exists p :: p in among && Row(c, p) in rows
  }

  /** What has been found so far: `done` were searched, `queue` waits, in the order they were found. */
  ghost predicate Searched(rows: seq<Row>, pid: Pid, found: seq<Pid>, done: seq<Pid>, queue: seq<Pid>) {
    && [pid] + found == done + queue
    && Distinct([pid] + found)
    && (forall c, p :: p in done && Row(c, p) in rows ==> c in found)
    && (forall i | 0 <= i < |found| ::
          && IsDescendant(rows, found[i], pid)
          && HasParentIn(rows, found[i], done)
          && HasParentIn(rows, found[i], [pid] + found[..i]))
  }

  /** A child of the next process to search was not found before, and is not the root. */
  lemma ChildIsNew(rows: seq<Row>, pid: Pid, found: seq<Pid>, done: seq<Pid>, queue: seq<Pid>, c: Pid)
    requires OneRowEach(rows) && !IsDescendant(rows, pid, pid)
    requires Searched(rows, pid, found, done, queue) && queue != [] && Row(c, queue[0]) in rows
    ensures c != pid && c !in found && IsDescendant(rows, c, pid)
  {
    hide IsDescendant;
    var parent := queue[0];
    assert ([pid] + found)[|done|] == parent;
    assert parent == pid || parent in found;
    ChildIsDescendant(rows, c, parent, pid);
    if c in found {
      assert forall d | 0 <= d < |done| :: done[d] == ([pid] + found)[d] != parent;
      var k :| 0 <= k < |found| && found[k] == c;
      var p :| p in done && Row(c, p) in rows;
      SameParent(rows, c, p, parent);
    }
  }

  lemma SameParent(rows: seq<Row>, c: Pid, p: Pid, q: Pid)
    requires OneRowEach(rows) && Row(c, p) in rows && Row(c, q) in rows
    ensures p == q
  {
  }

  lemma DistinctConcat(a: seq<Pid>, b: seq<Pid>)
    requires Distinct(a) && Distinct(b) && forall x | x in b :: x !in a
    ensures Distinct(a + b)
  {
    forall i, j | 0 <= i < j < |a + b|
      ensures (a + b)[i] != (a + b)[j]
    {
      assert j >= |a| ==> (a + b)[j] in b;
      assert i < |a| ==> (a + b)[i] in a;
    }
  }

  lemma SearchedNext(rows: seq<Row>, pid: Pid, found: seq<Pid>, done: seq<Pid>, queue: seq<Pid>)
    requires OneRowEach(rows) && !IsDescendant(rows, pid, pid)
    requires Searched(rows, pid, found, done, queue) && queue != []
    ensures var more := ChildrenOf(rows, queue[0]);
      Searched(rows, pid, found + more, done + [queue[0]], queue[1..] + more)
  {
    hide IsDescendant, HasParentIn, Distinct;
    var parent, more := queue[0], ChildrenOf(rows, queue[0]);
    var all, searched := found + more, done + [parent];
    forall c
      ensures c in more <==> Row(c, parent) in rows
      ensures c in more ==> c !in [pid] + found && IsDescendant(rows, c, pid)
    {
      ChildrenAre(rows, parent, c);
      if Row(c, parent) in rows {
        ChildIsNew(rows, pid, found, done, queue, c);
      }
    }
    ChildrenDistinct(rows, parent);
    DistinctConcat([pid] + found, more);
    assert [pid] + all == ([pid] + found) + more == searched + (queue[1..] + more);
    assert ([pid] + found)[|done|] == parent;
    forall i | 0 <= i < |all|
      ensures IsDescendant(rows, all[i], pid)
      ensures HasParentIn(rows, all[i], searched) && HasParentIn(rows, all[i], [pid] + all[..i])
    {
      if i < |found| {
        assert all[..i] == found[..i];
        ParentStays(rows, found[i], done, searched);
      } else {
        assert all[i] == more[i - |found|];
        assert parent in [pid] + found && [pid] + found <= [pid] + all[..i];
        ParentIsIn(rows, all[i], parent, searched);
        ParentIsIn(rows, all[i], parent, [pid] + all[..i]);
      }
    }
  }

  lemma ParentStays(rows: seq<Row>, c: Pid, among: seq<Pid>, more: seq<Pid>)
    requires HasParentIn(rows, c, among) && among <= more
    ensures HasParentIn(rows, c, more)
  {
    var p :| p in among && Row(c, p) in rows;
    assert p in more;
  }

  lemma ParentIsIn(rows: seq<Row>, c: Pid, p: Pid, among: seq<Pid>)
    requires p in among && Row(c, p) in rows
    ensures HasParentIn(rows, c, among)
  {
  }

  /** Nothing can be found more often than there are rows. */
  lemma FoundFits(rows: seq<Row>, pid: Pid, found: seq<Pid>, done: seq<Pid>, queue: seq<Pid>)
    requires Searched(rows, pid, found, done, queue)
    ensures |found| <= |rows|
  {
    var children := set row | row in rows :: row.child;
    assert forall i | 0 <= i < |found| :: found[i] == ([pid] + found)[i + 1];
    DistinctSize(found);
    var distinct := set c | c in found;
    assert distinct <= children;
    SubsetSize(distinct, children);
    ChildrenSize(rows);
  }

  lemma SubsetSize(a: set<Pid>, b: set<Pid>)
    requires a <= b
    ensures |a| <= |b|
  {
    assert b == a + (b - a);
  }

  lemma {:induction false} DistinctSize(s: seq<Pid>)
    requires Distinct(s)
    ensures |set c | c in s| == |s|
  {
    if s != [] {
      DistinctSize(s[1..]);
      assert (set c | c in s) == {s[0]} + (set c | c in s[1..]);
    }
  }

  lemma {:induction false} ChildrenSize(rows: seq<Row>)
    ensures |set row | row in rows :: row.child| <= |rows|
  {
    if rows != [] {
      ChildrenSize(rows[1..]);
      assert (set row | row in rows :: row.child) == {rows[0].child} + (set row | row in rows[1..] :: row.child);
    }
  }

  lemma {:induction false} AllFound(rows: seq<Row>, pid: Pid, found: seq<Pid>, c: Pid, steps: nat)
    requires Searched(rows, pid, found, [pid] + found, []) && Below(rows, c, pid, steps)
    ensures c in found
    decreases steps
  {
    var row :| row in rows && row.child == c
      && if steps == 1 then row.parent == pid else Below(rows, row.parent, pid, steps - 1);
    if steps > 1 {
      AllFound(rows, pid, found, row.parent, steps - 1);
    }
    assert row == Row(c, row.parent) && row.parent in [pid] + found;
  }

  /**
   The search terminates whenever the process is not its own ancestor, and then returns every
   descendant exactly once, each after its parent.
   */
  method Descendants(rows: seq<Row>, pid: Pid) returns (found: seq<Pid>)
    requires OneRowEach(rows) && !IsDescendant(rows, pid, pid)
    ensures Distinct(found)
    ensures forall c :: c in found <==> IsDescendant(rows, c, pid)
    ensures forall i | 0 <= i < |found| :: HasParentIn(rows, found[i], [pid] + found[..i])
  {
    hide Searched, IsDescendant;
    found := [];
    var queue := [pid];
    ghost var done := [];
    SearchStarts(rows, pid);
    while |queue| > 0
      invariant Searched(rows, pid, found, done, queue)
      decreases |rows| - |found|, |queue|
    {
      var parent := queue[0];
      ghost var found0, queue0 := found, queue;
      SearchedNext(rows, pid, found, done, queue);
      FoundFits(rows, pid, found + ChildrenOf(rows, parent), done + [parent], queue[1..] + ChildrenOf(rows, parent));
      queue := queue[1..];
      for k := 0 to |rows|
        invariant found == found0 + ChildrenOf(rows[..k], parent)
        invariant queue == queue0[1..] + ChildrenOf(rows[..k], parent)
      {
        assert rows[..k + 1][..k] == rows[..k];
        if rows[k].parent == parent {
          found := found + [rows[k].child];
          queue := queue + [rows[k].child];
        }
      }
      assert rows[..|rows|] == rows;
      done := done + [parent];
    }
    SearchEnds(rows, pid, found, done, queue);
  }

  lemma SearchStarts(rows: seq<Row>, pid: Pid)
    ensures Searched(rows, pid, [], [], [pid])
  {
  }

  lemma SearchEnds(rows: seq<Row>, pid: Pid, found: seq<Pid>, done: seq<Pid>, queue: seq<Pid>)
    requires Searched(rows, pid, found, done, queue) && queue == []
    ensures Distinct(found)
    ensures forall c :: c in found <==> IsDescendant(rows, c, pid)
    ensures forall i | 0 <= i < |found| :: HasParentIn(rows, found[i], [pid] + found[..i])
  {
    assert done == [pid] + found;
    assert forall i | 0 <= i < |found| :: found[i] == ([pid] + found)[i + 1];
    forall c | IsDescendant(rows, c, pid)
      ensures c in found
    {
      var steps: nat :| Below(rows, c, pid, steps);
      AllFound(rows, pid, found, c, steps);
    }
  }

  // ----- without the condition

  /** The queue after so many turns of the loop. */
  ghost function QueueAfter(rows: seq<Row>, queue: seq<Pid>, turns: nat): seq<Pid>
    decreases turns
  {
    if turns == 0 || queue == [] then queue
    else QueueAfter(rows, queue[1..] + ChildrenOf(rows, queue[0]), turns - 1)
  }

  /** Some process that waits leads down to `pid`. */
  ghost predicate LeadsTo(rows: seq<Row>, queue: seq<Pid>, pid: Pid) {
    exists x :: x in queue && IsDescendant(rows, pid, x)
  }

  lemma {:induction false} FirstStepDown(rows: seq<Row>, pid: Pid, x: Pid, steps: nat) returns (d: Pid)
    requires Below(rows, pid, x, steps)
    ensures Row(d, x) in rows && (d == pid || IsDescendant(rows, pid, d))
    decreases steps
  {
    var row :| row in rows && row.child == pid
      && if steps == 1 then row.parent == x else Below(rows, row.parent, x, steps - 1);
    assert row == Row(pid, row.parent);
    if steps == 1 {
      d := pid;
    } else {
      d := FirstStepDown(rows, row.parent, x, steps - 1);
      ChildIsDescendant(rows, pid, row.parent, d);
    }
  }

  /** A process that is its own ancestor keeps the loop going for ever. */
  lemma {:induction false} OwnAncestorNeverEnds(rows: seq<Row>, queue: seq<Pid>, pid: Pid, turns: nat)
    requires IsDescendant(rows, pid, pid) && LeadsTo(rows, queue, pid)
    ensures QueueAfter(rows, queue, turns) != []
    decreases turns
  {
    var x :| x in queue && IsDescendant(rows, pid, x);
    if turns > 0 {
      var next := queue[1..] + ChildrenOf(rows, queue[0]);
      if x == queue[0] {
        var steps: nat :| Below(rows, pid, x, steps);
        var d := FirstStepDown(rows, pid, x, steps);
        ChildrenAre(rows, x, d);
        assert d in next && IsDescendant(rows, pid, d);
      } else {
        assert x in next;
      }
      OwnAncestorNeverEnds(rows, next, pid, turns - 1);
    }
  }
}
