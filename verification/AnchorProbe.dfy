/** The transcript anchor probe: a bounded ring of samples beside counters over all of them. */
module AnchorProbes {
  /** A 64-bit float as far as the probe distinguishes: a number, or not a finite one. */
  datatype Cell = NotFinite | Finite(value: real)

  datatype Sample = Sample(time: Cell, offset: Cell, scrollTop: Cell)

  function Abs(r: real): real { if r < 0.0 then -r else r }

  function Max(a: real, b: real): real { if a < b then b else a }

  /** How many samples had no finite offset. */
  ghost function Missing(log: seq<Sample>): nat {
    if log == [] then 0
    else Missing(log[..|log| - 1]) + if log[|log| - 1].offset.NotFinite? then 1 else 0
  }

  /** The error of one sample; a missing anchor counts as none. */
  ghost function ErrorOf(s: Sample, expected: real): real {
    if s.offset.Finite? then Abs(s.offset.value - expected) else 0.0
  }

  ghost function MaxError(log: seq<Sample>, expected: real): real {
    if log == [] then 0.0
    else
      var rest := MaxError(log[..|log| - 1], expected);
      if log[|log| - 1].offset.NotFinite? then rest else Max(rest, ErrorOf(log[|log| - 1], expected))
  }

  /** It is the largest error of the whole log. */
  lemma {:induction false} MaxErrorIsMaximum(log: seq<Sample>, expected: real)
    ensures MaxError(log, expected) >= 0.0
    ensures forall i | 0 <= i < |log| :: ErrorOf(log[i], expected) <= MaxError(log, expected)
    ensures MaxError(log, expected) == 0.0
         || (exists i :: 0 <= i < |log| && ErrorOf(log[i], expected) == MaxError(log, expected))
  {
    if log != [] {
      var n := |log| - 1;
      MaxErrorIsMaximum(log[..n], expected);
      forall i | 0 <= i < |log|
        ensures ErrorOf(log[i], expected) <= MaxError(log, expected)
      {
        assert i < n ==> log[..n][i] == log[i];
      }
      if MaxError(log, expected) == MaxError(log[..n], expected) {
        if i :| 0 <= i < n && ErrorOf(log[..n][i], expected) == MaxError(log[..n], expected) {
          assert ErrorOf(log[i], expected) == MaxError(log, expected);
        }
      } else {
        assert ErrorOf(log[n], expected) == MaxError(log, expected);
      }
    }
  }

  /** The samples the ring still holds. */
  ghost function LastOf(log: seq<Sample>, capacity: nat): seq<Sample> {
    if |log| <= capacity then log else log[|log| - capacity..]
  }

  /** The error is the distance from where the anchor should be. */
  lemma ErrorIsDistance(s: Sample, expected: real)
    ensures ErrorOf(s, expected) >= 0.0
    ensures s.offset.NotFinite? ==> ErrorOf(s, expected) == 0.0
    ensures s.offset.Finite? ==>
      s.offset.value == expected + ErrorOf(s, expected) || s.offset.value == expected - ErrorOf(s, expected)
  {
  }

  ghost function MissingAt(log: seq<Sample>): set<nat> { set i | 0 <= i < |log| && log[i].offset.NotFinite? }

  lemma {:induction false} MissingIsCount(log: seq<Sample>)
    ensures Missing(log) == |MissingAt(log)|
  {
    if log == [] {
      assert MissingAt(log) == {};
    } else {
      var n := |log| - 1;
      MissingIsCount(log[..n]);
      assert MissingAt(log) == MissingAt(log[..n]) + if log[n].offset.NotFinite? then {n} else {};
    }
  }

  /** As much of the end of the log as fits, in order. */
  lemma LastOfIsSuffix(log: seq<Sample>, capacity: nat)
    ensures |LastOf(log, capacity)| == if |log| < capacity then |log| else capacity
    ensures exists earlier :: log == earlier + LastOf(log, capacity)
  {
    assert log == log[..|log| - |LastOf(log, capacity)|] + LastOf(log, capacity);
  }

  /** Samples less than a whole ring apart have different slots. */
  lemma SlotsDiffer(i: nat, j: nat, capacity: nat)
    requires capacity > 0 && i < j < i + capacity
    ensures i % capacity != j % capacity
  {
    if i % capacity == j % capacity {
      var qi, qj := i / capacity, j / capacity;
      assert i == qi * capacity + i % capacity && j == qj * capacity + j % capacity;
      assert j - i == (qj - qi) * capacity;
      NoMultipleBetween(qj - qi, capacity);
      assert false;
    }
  }

  lemma NoMultipleBetween(q: int, capacity: nat)
    requires capacity > 0
    ensures !(0 < q * capacity < capacity)
  {
    if q >= 1 {
      assert q * capacity >= capacity;
    } else {
      assert q * capacity <= 0;
    }
  }

  class Probe {
    const capacity: nat
    const expected: real
    const samples: array<Cell>
    var count: nat
    var missing: nat
    var maxError: real
    var running: bool
    ghost var log: seq<Sample>

    ghost predicate SlotHolds(k: nat)
      reads this`log, samples
      requires capacity > 0 && samples.Length == capacity * 3 && k < |log|
    {
      var slot := k % capacity * 3;
      assert slot + 2 < samples.Length by {
        SlotFits(k, capacity);
      }
      && samples[slot] == log[k].time && samples[slot + 1] == log[k].offset && samples[slot + 2] == log[k].scrollTop
    }

    ghost predicate Valid()
      reads this`count, this`missing, this`maxError, this`log, samples
    {
      && capacity > 0 && samples.Length == capacity * 3
      && count == |log|
      && missing == Missing(log)
      && maxError == MaxError(log, expected)
      && forall k: nat | |log| - capacity <= k < |log| :: SlotHolds(k)
    }

    constructor (capacity: nat, expected: real)
      requires capacity > 0
      ensures Valid() && fresh(samples) && log == [] && running
      ensures this.capacity == capacity && this.expected == expected
    {
      this.capacity, this.expected := capacity, expected;
      samples := new Cell[capacity * 3](i => Finite(0.0));
      count, missing, maxError, running, log := 0, 0, 0.0, true, [];
    }

    /** One message of the sampling channel. */
    method OnSample(time: Cell, offset: Cell, scrollTop: Cell)
      requires Valid()
      modifies this`count, this`missing, this`maxError, this`log, samples
      ensures Valid()
      ensures log == if running then old(log) + [Sample(time, offset, scrollTop)] else old(log)
    {
      if !running {
        return;
      }
      if offset.NotFinite? {
        missing := missing + 1;
      } else {
        maxError := Max(maxError, Abs(offset.value - expected));
      }
      var slot := count % capacity * 3;
      SlotFits(count, capacity);
      samples[slot] := time;
      samples[slot + 1] := offset;
      samples[slot + 2] := scrollTop;
      count := count + 1;
      log := log + [Sample(time, offset, scrollTop)];
      assert log[..|log| - 1] == old(log);
      forall k: nat | |log| - capacity <= k < |log|
        ensures SlotHolds(k)
      {
        SlotFits(k, capacity);
        if k < |log| - 1 {
          assert old(SlotHolds(k));
          SlotsDiffer(k, |log| - 1, capacity);
        }
      }
    }

    /**
     Whatever the number of samples and the capacity, the trace is the last part of the full log, in
     order, while the counters speak of the whole log.
     */
    method Stop() returns (trace: seq<Sample>)
      requires Valid()
      modifies this`running
      ensures Valid() && !running && log == old(log)
      ensures trace == LastOf(log, capacity)
      ensures missing == Missing(log) && maxError == MaxError(log, expected) && count == |log|
    {
      running := false;
      var kept := if count < capacity then count else capacity;
      var start := count - kept;
      trace := [];
      for index := 0 to kept
        invariant Valid() && !running && trace == log[start..start + index]
      {
        SlotFits(start + index, capacity);
        var slot := (start + index) % capacity * 3;
        assert SlotHolds(start + index);
        trace := trace + [Sample(samples[slot], samples[slot + 1], samples[slot + 2])];
      }
      assert start + kept == |log| && log[start..|log|] == log[start..] && log[0..] == log;
    }
  }

  lemma SlotFits(k: nat, capacity: nat)
    requires capacity > 0
    ensures 0 <= k % capacity * 3 && k % capacity * 3 + 2 < capacity * 3
  {
  }
}
