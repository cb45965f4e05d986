/**
 The shared-rate scheduler of the userspace throttle. Every chunk of every connection that goes
 in one direction passes through one link, so departures are serialized.
 */
module ThrottledLinks {
  /** One call of `schedule`: the clock it read and the chunk length. */
  datatype Call = Call(now: real, length: nat)

  /** The link's fields, with every call so far. */
  datatype Link = Link(
    latencyMs: real,
    bytesPerMs: Rate,
    nextFree: real,
    queuedBytes: int,
    peakQueuedBytes: int,
    bytes: nat,
    calls: seq<Call>
  )

  type Rate = r: real | r > 0.0 witness 1.0

  function Idle(latencyMs: real, bytesPerMs: Rate): Link { Link(latencyMs, bytesPerMs, 0.0, 0, 0, 0, []) }

  function Max(a: real, b: real): real { if a < b then b else a }

  function MaxInt(a: int, b: int): int { if a < b then b else a }

  function Transmission(length: nat, bytesPerMs: Rate): real {
    length as real / bytesPerMs
  }

  function Depart(nextFree: real, call: Call, bytesPerMs: Rate): real {
    Max(call.now, nextFree) + Transmission(call.length, bytesPerMs)
  }

  function Scheduled(link: Link, call: Call): Link {
    link.(nextFree := Depart(link.nextFree, call, link.bytesPerMs),
          bytes := link.bytes + call.length,
          calls := link.calls + [call])
  }

  class ThrottledLink {
    var nextFree: real
    var peakQueuedBytes: int
    var queuedBytes: int
    var bytes: nat
    const latencyMs: real
    const bytesPerMs: Rate
    /** Every call so far, oldest first. */
    ghost var calls: seq<Call>

    ghost predicate Valid()
      reads this
    {
      && nextFree == Departure(calls, bytesPerMs)
      && bytes == TotalLength(calls)
    }

    ghost function State(): Link
      reads this
    {
      Link(latencyMs, bytesPerMs, nextFree, queuedBytes, peakQueuedBytes, bytes, calls)
    }

    constructor (latencyMs: real, bytesPerMs: Rate)
      ensures Valid() && calls == [] && State() == Idle(latencyMs, bytesPerMs)
    {
      this.latencyMs := latencyMs;
      this.bytesPerMs := bytesPerMs;
      nextFree, peakQueuedBytes, queuedBytes, bytes := 0.0, 0, 0, 0;
      calls := [];
    }

    method Schedule(now: real, length: nat) returns (at: real)
      requires Valid()
      modifies this`nextFree, this`bytes, this`calls
      ensures Valid() && calls == old(calls) + [Call(now, length)]
      ensures State() == Scheduled(old(State()), Call(now, length))
      ensures at == nextFree + latencyMs
    {
      var departure := Max(now, nextFree) + Transmission(length, bytesPerMs);
      nextFree := departure;
      bytes := bytes + length;
      calls := calls + [Call(now, length)];
      assert calls[..|calls| - 1] == old(calls);
      at := departure + latencyMs;
    }
  }

  /** The value of `nextFree` after a whole sequence of calls. */
  ghost function Departure(calls: seq<Call>, bytesPerMs: Rate): real {
    if calls == [] then 0.0
    else Depart(Departure(calls[..|calls| - 1], bytesPerMs), calls[|calls| - 1], bytesPerMs)
  }

  /** When the chunk of one call is due at its target. */
  ghost function DeliveryOf(link: Link, k: nat): real
    requires k < |link.calls|
  {
    Departure(link.calls[..k + 1], link.bytesPerMs) + link.latencyMs
  }

  ghost predicate LinkInv(link: Link) { link.nextFree == Departure(link.calls, link.bytesPerMs) }

  /** Calls were only added. */
  ghost predicate Extends(later: Link, link: Link) {
    later.latencyMs == link.latencyMs && later.bytesPerMs == link.bytesPerMs && link.calls <= later.calls
  }

  lemma ScheduledExtends(link: Link, call: Call)
    requires LinkInv(link)
    ensures var later := Scheduled(link, call);
      && LinkInv(later) && Extends(later, link)
      && DeliveryOf(later, |link.calls|) == later.nextFree + later.latencyMs
  {
    var later := Scheduled(link, call);
    assert later.calls[..|later.calls| - 1] == link.calls && later.calls[..|later.calls|] == later.calls;
  }

  lemma DeliveryStays(later: Link, link: Link, k: nat)
    requires Extends(later, link) && k < |link.calls|
    ensures k < |later.calls| && DeliveryOf(later, k) == DeliveryOf(link, k)
  {
    assert later.calls[..k + 1] == link.calls[..k + 1];
  }

  /** What is scheduled later is due no earlier. */
  lemma DeliveriesMonotone(link: Link, j: nat, k: nat)
    requires j <= k < |link.calls|
    ensures DeliveryOf(link, j) <= DeliveryOf(link, k)
  {
    DeparturesMonotone(link.calls, j + 1, k + 1, link.bytesPerMs);
  }

  ghost function TotalLength(calls: seq<Call>): nat {
    if calls == [] then 0 else TotalLength(calls[..|calls| - 1]) + calls[|calls| - 1].length
  }

  /** When the last chunk would leave if the link had become free for good at call `i`. */
  ghost function BusyFrom(calls: seq<Call>, i: nat, bytesPerMs: Rate): real
    requires i < |calls|
  {
    calls[i].now + Transmission(TotalLength(calls[i..]), bytesPerMs)
  }

  lemma TransmissionAdds(a: nat, b: nat, bytesPerMs: Rate)
    ensures Transmission(a + b, bytesPerMs) == Transmission(a, bytesPerMs) + Transmission(b, bytesPerMs)
  {
  }

  lemma BusyFromExtends(calls: seq<Call>, last: Call, i: nat, bytesPerMs: Rate)
    requires i <= |calls|
    ensures BusyFrom(calls + [last], i, bytesPerMs)
         == (if i < |calls| then BusyFrom(calls, i, bytesPerMs) else last.now) + Transmission(last.length, bytesPerMs)
  {
    var all := calls + [last];
    assert all[i..][..|all[i..]| - 1] == calls[i..];
    TransmissionAdds(TotalLength(calls[i..]), last.length, bytesPerMs);
  }

  lemma {:induction false} DepartureNotBefore(calls: seq<Call>, i: nat, bytesPerMs: Rate)
    requires i < |calls|
    ensures BusyFrom(calls, i, bytesPerMs) <= Departure(calls, bytesPerMs)
  {
    var n := |calls| - 1;
    assert calls == calls[..n] + [calls[n]];
    BusyFromExtends(calls[..n], calls[n], i, bytesPerMs);
    if i < n {
      DepartureNotBefore(calls[..n], i, bytesPerMs);
    }
  }

  lemma {:induction false} DepartureAttained(calls: seq<Call>, bytesPerMs: Rate) returns (i: nat)
    requires calls != []
    requires forall c | c in calls :: c.now >= 0.0
    ensures i < |calls| && BusyFrom(calls, i, bytesPerMs) == Departure(calls, bytesPerMs)
  {
    i := |calls| - 1;
    var earlier, last := calls[..i], calls[i];
    assert calls == earlier + [last];
    BusyFromExtends(earlier, last, i, bytesPerMs);
    assert last in calls;
    if last.now < Departure(earlier, bytesPerMs) {
      i := DepartureAttained(earlier, bytesPerMs);
      BusyFromExtends(earlier, last, i, bytesPerMs);
    }
  }

  /**
   The departure of the last chunk is the maximum, over every call so far, of that call's clock
   plus the time to send everything scheduled from it on. No order of the clock readings is needed.
   */
  lemma DepartureClosedForm(calls: seq<Call>, bytesPerMs: Rate)
    requires calls != []
    requires forall c | c in calls :: c.now >= 0.0
    ensures forall i: nat | i < |calls| :: BusyFrom(calls, i, bytesPerMs) <= Departure(calls, bytesPerMs)
    ensures exists i: nat | i < |calls| :: BusyFrom(calls, i, bytesPerMs) == Departure(calls, bytesPerMs)
  {
    forall i: nat | i < |calls|
      ensures BusyFrom(calls, i, bytesPerMs) <= Departure(calls, bytesPerMs)
    {
      DepartureNotBefore(calls, i, bytesPerMs);
    }
    var i := DepartureAttained(calls, bytesPerMs);
  }

  /** Departures, and so delivery times, never go back, whichever connection scheduled them. */
  lemma {:induction false} DeparturesMonotone(calls: seq<Call>, i: nat, j: nat, bytesPerMs: Rate)
    requires i <= j <= |calls|
    ensures Departure(calls[..i], bytesPerMs) <= Departure(calls[..j], bytesPerMs)
    ensures Transmission(TotalLength(calls[i..j]), bytesPerMs)
         <= Departure(calls[..j], bytesPerMs) - Departure(calls[..i], bytesPerMs)
    decreases j
  {
    if i < j {
      DeparturesMonotone(calls, i, j - 1, bytesPerMs);
      assert calls[..j][..j - 1] == calls[..j - 1];
      assert calls[i..j][..j - 1 - i] == calls[i..j - 1];
      TransmissionAdds(TotalLength(calls[i..j - 1]), calls[j - 1].length, bytesPerMs);
    } else {
      assert calls[i..j] == [];
    }
  }

  /**
   Rate bound: if calls `i` to `j` all depart within a window, they carry at most the window times
   the rate, plus the chunk that was already leaving when the window opened.
   */
  lemma WindowCarriesAtMostRate(calls: seq<Call>, i: nat, j: nat, window: real, bytesPerMs: Rate)
    requires i <= j < |calls|
    requires Departure(calls[..j + 1], bytesPerMs) - Departure(calls[..i + 1], bytesPerMs) <= window
    ensures TotalLength(calls[i..j + 1]) as real <= window * bytesPerMs + calls[i].length as real
  {
    DeparturesMonotone(calls, i + 1, j + 1, bytesPerMs);
    TotalLengthSplits(calls[i..j + 1], 1);
    assert calls[i..j + 1][..1] == [calls[i]] && calls[i..j + 1][1..] == calls[i + 1..j + 1];
    assert [calls[i]][..0] == [];
    assert TotalLength([calls[i]]) == calls[i].length;
    TransmissionBound(TotalLength(calls[i + 1..j + 1]), window, bytesPerMs);
  }

  lemma TransmissionBound(length: nat, window: real, bytesPerMs: Rate)
    requires Transmission(length, bytesPerMs) <= window
    ensures length as real <= window * bytesPerMs
  {
    assert length as real == Transmission(length, bytesPerMs) * bytesPerMs;
  }

  lemma {:induction false} TotalLengthSplits(calls: seq<Call>, k: nat)
    requires k <= |calls|
    ensures TotalLength(calls) == TotalLength(calls[..k]) + TotalLength(calls[k..])
  {
    var n := |calls| - 1;
    if k <= n {
      TotalLengthSplits(calls[..n], k);
      assert calls[..n][..k] == calls[..k] && calls[..n][k..] == calls[k..][..n - k];
    } else {
      assert calls[..k] == calls && calls[k..] == [];
    }
  }
}
