/**
 What each event does to a live pipe, in terms of its queue, its sockets and the answers of the target: which
 entries leave, who is paused, and when the timer is set for. Times are in milliseconds.
 */
module PipeEffects {
  import opened Prelude
  import opened ThrottledLinks
  import opened ThrottledPipes

  // ----- the timer

  /** The clock reading with which an event may arm the timer. */
  function ReadingOf(e: Event): Option<real> {
    match e
    case Data(_, _, armNow) => Some(armNow)
    case End(_, armNow) => Some(armNow)
    case TimerFired(_, armNow, _) => Some(armNow)
    case Drained(_, armNow, _) => Some(armNow)
    case _ => None
  }

  function Later(a: real, b: real): real { if a >= b then a else b }

  /**
   The timer is left as it was, or cleared, or set by the reading to the time at which the head of the queue
   is due, or to the reading itself where that has passed.
   */
  predicate TimerKept(before: Pipe, after: Pipe, reading: Option<real>) {
    || after.timer == before.timer
    || after.timer.None?
    || (reading.Some? && after.queue != [] && after.timer == Some(Later(reading.value, after.queue[0].at)))
  }

  /** Entries arrive behind the head, or leave with a new timer: an armed timer is for the head it was set for. */
  lemma StepKeepsTimer(w: World, e: Event)
    requires Inv(w.pipe) && Enabled(w.pipe, e)
    ensures TimerKept(w.pipe, Step(w, e).pipe, ReadingOf(e))
  {
    hide Faithful, Ordered, Balanced, Pumped;
    match e
    case TimerFired(now, armNow, accepted) => PumpedKeepsTimer(w, now, armNow, accepted);
    case Drained(now, armNow, accepted) =>
      PumpedKeepsTimer(w.(pipe := w.pipe.(needDrain := false, blocked := false)), now, armNow, accepted);
    case _ =>
  }

  lemma PumpedKeepsTimer(w: World, now: real, armNow: real, accepted: seq<bool>)
    ensures TimerKept(w.pipe, Pumped(w, now, armNow, accepted).pipe, Some(armNow))
  {
    hide Dispatched;
    DispatchedLeavesTimer(w.(pipe := w.pipe.(timer := None)), now, accepted);
  }

  lemma {:induction false} DispatchedLeavesTimer(w: World, now: real, accepted: seq<bool>)
    requires w.pipe.timer.None?
    ensures Dispatched(w, now, accepted).pipe.timer.None?
    decreases |w.pipe.queue|
  {
    if HeadDue(w.pipe, now) {
      var rest := w.pipe.(queue := w.pipe.queue[1..]);
      match w.pipe.queue[0].chunk
      case None =>
        DispatchedLeavesTimer(w.(pipe := if rest.destroyed then rest else rest.(ends := rest.ends + 1)), now, accepted);
      case Some(chunk) =>
        if !rest.destroyed {
          DispatchedLeavesTimer(w.(pipe := Written(rest, now, chunk, Head(accepted))), now, Tail(accepted));
        }
    }
  }

  // ----- arrivals, completions, the ends of sockets

  /** The timer after an arrival at a live pipe: armed only if nothing was waiting and the pipe is not blocked. */
  predicate ArmedByArrival(before: Pipe, after: Pipe, at: real, armNow: real) {
    after.timer == if before.timer.Some? || before.blocked then before.timer else Some(Later(armNow, at))
  }

  /** A chunk is queued for its delivery time and counted; the source is paused once the mark is reached. */
  lemma DataEffect(w: World, chunk: Bytes, now: real, armNow: real)
    requires Live(w.pipe) && !w.pipe.paused && !w.pipe.ended
    ensures var v := Step(w, Data(chunk, now, armNow));
      var departure := Later(now, w.link.nextFree) + |chunk| as real / w.link.bytesPerMs;
      var item := Item(departure + w.link.latencyMs, Some(chunk));
      var queued := w.link.queuedBytes + |chunk|;
      && v.pipe == w.pipe.(
           queue := w.pipe.queue + [item], pending := w.pipe.pending + |chunk|,
           received := w.pipe.received + [item], slots := w.pipe.slots + [|w.link.calls|],
           paused := w.pipe.pending + |chunk| >= 0x4_0000, timer := v.pipe.timer)
      && v.link == w.link.(
           queuedBytes := queued, nextFree := departure, bytes := w.link.bytes + |chunk|,
           peakQueuedBytes := if queued > w.link.peakQueuedBytes then queued else w.link.peakQueuedBytes,
           calls := w.link.calls + [Call(now, |chunk|)])
      && ArmedByArrival(w.pipe, v.pipe, item.at, armNow)
  {
    hide Faithful, Ordered, Balanced;
  }

  /** EOF is queued once, to leave with the last entry, or now if there is none. */
  lemma EndEffect(w: World, now: real, armNow: real)
    requires Live(w.pipe)
    ensures var v := Step(w, End(now, armNow));
      var q := w.pipe.queue;
      var at := if q == [] then now else q[|q| - 1].at;
      if w.pipe.ended then v == w
      else
        && v == w.(pipe := w.pipe.(ended := true, queue := q + [Item(at, None)], timer := v.pipe.timer))
        && ArmedByArrival(w.pipe, v.pipe, at, armNow)
  {
    hide Faithful, Ordered, Balanced;
  }

  /** A completed write leaves both accounts, and below half the mark a source that is not blocked flows again. */
  lemma CompletedEffect(w: World, index: nat)
    requires Live(w.pipe) && index < |w.pipe.inFlight|
    ensures var p, length := w.pipe, |w.pipe.inFlight[index]|;
      Step(w, WriteCompleted(index))
      == World(
        p.(inFlight := p.inFlight[..index] + p.inFlight[index + 1..], pending := p.pending - length,
           paused := p.paused && (p.blocked || p.pending - length >= 0x2_0000)),
        w.link.(queuedBytes := w.link.queuedBytes - length))
  {
    hide Faithful, Ordered, Balanced;
  }

  /** Stopping empties the queue, clears the timer and takes what was pending off the link's account, once. */
  lemma StopEffect(w: World)
    ensures Step(w, Stop)
         == if w.pipe.stopped then w
            else World(
              w.pipe.(stopped := true, timer := None, pending := 0, queue := []),
              w.link.(queuedBytes := w.link.queuedBytes - w.pipe.pending))
  {
  }

  lemma DestroyedEffect(w: World)
    ensures Step(w, TargetDestroyed) == w.(pipe := w.pipe.(destroyed := true))
  {
  }

  // ----- a pump

  function Answer(accepted: seq<bool>, i: nat): bool { i >= |accepted| || accepted[i] }

  /** The last of the first `n` entries was a chunk, and the target refused to take more. */
  predicate Refused(queue: seq<Item>, accepted: seq<bool>, n: nat)
    requires n <= |queue|
  {
    n > 0 && queue[n - 1].chunk.Some? && !Answer(accepted, n - 1)
  }

  /** Exactly the first `n` entries leave: all that are due, up to a refusal. */
  predicate Leaves(queue: seq<Item>, now: real, accepted: seq<bool>, n: nat) {
    && n <= |queue|
    && (forall i | 0 <= i < n :: queue[i].at <= now && (i < n - 1 ==> Answer(accepted, i)))
    && (n == |queue| || queue[n].at > now || Refused(queue, accepted, n))
  }

  function WritesOf(items: seq<Item>, now: real): seq<Write> {
    if items == [] then []
    else (if items[0].chunk.Some? then [Write(now, items[0].chunk.value)] else []) + WritesOf(items[1..], now)
  }

  function ChunksOf(items: seq<Item>): seq<Bytes> {
    if items == [] then []
    else (if items[0].chunk.Some? then [items[0].chunk.value] else []) + ChunksOf(items[1..])
  }

  /** Only the last entry can be EOF. */
  predicate EofLast(queue: seq<Item>) { forall i | 0 <= i < |queue| - 1 :: queue[i].chunk.Some? }

  lemma LiveHasEofLast(p: Pipe)
    requires Ordered(p) && Faithful(p)
    ensures EofLast(p.queue)
  {
    var data := DataItems(p.queue);
    forall i | 0 <= i < |p.queue| - 1
      ensures p.queue[i].chunk.Some?
    {
      assert p.queue[i] == data[i] == p.received[|p.log| + i];
    }
  }

  /** The pipe after the first `n` entries have left for a live target. */
  function After(p: Pipe, now: real, accepted: seq<bool>, n: nat): Pipe
    requires n <= |p.queue|
  {
    var refused := Refused(p.queue, accepted, n);
    p.(queue := p.queue[n..],
       log := p.log + WritesOf(p.queue[..n], now),
       inFlight := p.inFlight + ChunksOf(p.queue[..n]),
       ends := p.ends + if n > 0 && p.queue[n - 1].chunk.None? then 1 else 0,
       blocked := refused, needDrain := refused,
       paused := refused || p.paused)
  }

  lemma OneMoreWrite(items: seq<Item>, now: real, log: seq<Write>)
    requires items != [] && items[0].chunk.Some?
    ensures log + WritesOf(items, now) == log + [Write(now, items[0].chunk.value)] + WritesOf(items[1..], now)
  {
    assert WritesOf(items, now) == [Write(now, items[0].chunk.value)] + WritesOf(items[1..], now);
  }

  lemma OneMoreChunk(items: seq<Item>, inFlight: seq<Bytes>)
    requires items != [] && items[0].chunk.Some?
    ensures inFlight + ChunksOf(items) == inFlight + [items[0].chunk.value] + ChunksOf(items[1..])
  {
    assert ChunksOf(items) == [items[0].chunk.value] + ChunksOf(items[1..]);
  }

  lemma OneItem(item: Item, now: real, log: seq<Write>, inFlight: seq<Bytes>)
    ensures log + WritesOf([item], now) == if item.chunk.Some? then log + [Write(now, item.chunk.value)] else log
    ensures inFlight + ChunksOf([item]) == if item.chunk.Some? then inFlight + [item.chunk.value] else inFlight
  {
    assert [item][1..] == [];
  }

  lemma OneMoreLeaves(queue: seq<Item>, now: real, accepted: seq<bool>, m: nat)
    requires queue != [] && m < |queue|
    requires queue[0].at <= now && queue[0].chunk.Some? && Head(accepted)
    ensures Refused(queue[1..], Tail(accepted), m) <==> Refused(queue, accepted, m + 1)
    ensures Leaves(queue[1..], now, Tail(accepted), m) ==> Leaves(queue, now, accepted, m + 1)
  {
    assert forall i: nat :: Answer(Tail(accepted), i) == Answer(accepted, i + 1);
    assert forall i | 0 <= i < m :: queue[1..][i] == queue[i + 1];
  }

  lemma AfterOneMore(p: Pipe, now: real, accepted: seq<bool>, m: nat)
    requires m < |p.queue| && HeadDue(p, now) && p.queue[0].chunk.Some? && Head(accepted)
    ensures var q := Written(p.(queue := p.queue[1..]), now, p.queue[0].chunk.value, true);
      After(q, now, Tail(accepted), m) == After(p, now, accepted, m + 1)
  {
    hide Refused, Answer, Head, Tail, WritesOf, ChunksOf;
    OneMoreLeaves(p.queue, now, accepted, m);
    assert p.queue[..m + 1][1..] == p.queue[1..][..m];
    assert p.queue[1..][m..] == p.queue[m + 1..];
    OneMoreWrite(p.queue[..m + 1], now, p.log);
    OneMoreChunk(p.queue[..m + 1], p.inFlight);
    assert m > 0 ==> p.queue[1..][m - 1] == p.queue[m];
  }

  lemma AfterOne(p: Pipe, now: real, accepted: seq<bool>)
    requires HeadDue(p, now) && !p.needDrain && EofLast(p.queue)
    requires p.queue[0].chunk.Some? ==> !Head(accepted)
    ensures Leaves(p.queue, now, accepted, 1)
    ensures var rest := p.(queue := p.queue[1..]);
      After(p, now, accepted, 1)
      == if p.queue[0].chunk.Some? then Written(rest, now, p.queue[0].chunk.value, false)
         else rest.(ends := rest.ends + 1)
  {
    hide WritesOf, ChunksOf;
    OneItem(p.queue[0], now, p.log, p.inFlight);
    assert p.queue[..1] == [p.queue[0]];
  }

  lemma {:induction false} DispatchedEffect(w: World, now: real, accepted: seq<bool>) returns (n: nat)
    requires EofLast(w.pipe.queue) && !w.pipe.blocked && !w.pipe.needDrain && !w.pipe.destroyed
    ensures Leaves(w.pipe.queue, now, accepted, n)
    ensures Dispatched(w, now, accepted) == w.(pipe := After(w.pipe, now, accepted, n))
    decreases |w.pipe.queue|
  {
    hide After, Leaves;
    var p := w.pipe;
    if !HeadDue(p, now) {
      n := 0;
      NothingLeaves(p, now, accepted);
    } else if p.queue[0].chunk.Some? && Head(accepted) {
      var q := Written(p.(queue := p.queue[1..]), now, p.queue[0].chunk.value, true);
      assert EofLast(q.queue);
      var m := DispatchedEffect(w.(pipe := q), now, Tail(accepted));
      assert m < |p.queue| by {
        LeavesNoMore(q.queue, now, Tail(accepted), m);
      }
      OneMoreLeaves(p.queue, now, accepted, m);
      AfterOneMore(p, now, accepted, m);
      n := m + 1;
    } else {
      n := 1;
      AfterOne(p, now, accepted);
    }
  }

  lemma LeavesNoMore(queue: seq<Item>, now: real, accepted: seq<bool>, n: nat)
    requires Leaves(queue, now, accepted, n)
    ensures n <= |queue|
  {
  }

  lemma NothingLeaves(p: Pipe, now: real, accepted: seq<bool>)
    requires !HeadDue(p, now) && !p.blocked && !p.needDrain
    ensures Leaves(p.queue, now, accepted, 0) && After(p, now, accepted, 0) == p
  {
    assert p.queue[0..] == p.queue;
  }

  /** The pipe after a pump: the source flows again if it may, and the timer is set for what is left. */
  function PumpedTo(p: Pipe, now: real, armNow: real, accepted: seq<bool>, n: nat): Pipe
    requires n <= |p.queue|
  {
    var q := After(p, now, accepted, n);
    q.(paused := q.blocked || (p.paused && p.pending >= 0x2_0000),
       timer := if q.blocked || q.queue == [] then None else Some(Later(armNow, q.queue[0].at)))
  }

  lemma PumpEffect(w: World, now: real, armNow: real, accepted: seq<bool>) returns (n: nat)
    requires Accounted(w.pipe) && !w.pipe.blocked && !w.pipe.destroyed
    ensures Leaves(w.pipe.queue, now, accepted, n)
    ensures Pumped(w, now, armNow, accepted) == w.(pipe := PumpedTo(w.pipe, now, armNow, accepted, n))
  {
    hide Faithful, Ordered, Balanced, Dispatched, Leaves, Refused, WritesOf, ChunksOf;
    LiveHasEofLast(w.pipe);
    n := DispatchedEffect(w.(pipe := w.pipe.(timer := None)), now, accepted);
    LeavesNoMore(w.pipe.queue, now, accepted, n);
  }

  /** A timer sends to a live target exactly what is due, up to a refusal. */
  lemma TimerEffect(w: World, now: real, armNow: real, accepted: seq<bool>) returns (n: nat)
    requires Live(w.pipe) && w.pipe.timer.Some? && !w.pipe.destroyed
    ensures Leaves(w.pipe.queue, now, accepted, n)
    ensures Step(w, TimerFired(now, armNow, accepted))
         == w.(pipe := PumpedTo(w.pipe, now, armNow, accepted, n))
  {
    hide Faithful, Ordered, Balanced, Pumped, Leaves, PumpedTo;
    n := PumpEffect(w, now, armNow, accepted);
    LeavesNoMore(w.pipe.queue, now, accepted, n);
  }

  /** A drain unblocks the pipe and does the same. */
  lemma DrainEffect(w: World, now: real, armNow: real, accepted: seq<bool>) returns (n: nat)
    requires Live(w.pipe) && w.pipe.needDrain && !w.pipe.destroyed
    ensures Leaves(w.pipe.queue, now, accepted, n)
    ensures Step(w, Drained(now, armNow, accepted))
         == w.(pipe := PumpedTo(w.pipe.(blocked := false, needDrain := false), now, armNow, accepted, n))
  {
    hide Pumped, Leaves, PumpedTo;
    var v := w.(pipe := w.pipe.(blocked := false, needDrain := false));
    assert Accounted(v.pipe);
    n := PumpEffect(v, now, armNow, accepted);
    LeavesNoMore(w.pipe.queue, now, accepted, n);
  }

  /** A timer that finds the target gone stops the pipe if a chunk is due, and drops an EOF that is due. */
  lemma TargetGoneEffect(w: World, now: real, armNow: real, accepted: seq<bool>)
    requires Live(w.pipe) && w.pipe.timer.Some? && w.pipe.destroyed
    ensures var p, head := w.pipe, w.pipe.queue[0];
      Step(w, TimerFired(now, armNow, accepted))
      == if head.at > now then w.(pipe := p.(timer := Some(Later(armNow, head.at))))
         else if head.chunk.Some? then
           World(p.(stopped := true, timer := None, pending := 0, queue := []),
                 w.link.(queuedBytes := w.link.queuedBytes - p.pending))
         else w.(pipe := p.(queue := [], timer := None))
  {
    hide Faithful, Ordered, Balanced;
    LiveHasEofLast(w.pipe);
    var idle := w.(pipe := w.pipe.(timer := None));
    if HeadDue(idle.pipe, now) && w.pipe.queue[0].chunk.None? {
      assert w.pipe.queue[1..] == [];
      NothingDue(idle.(pipe := idle.pipe.(queue := [])), now, accepted);
    }
  }

  /** A stopped pipe only takes note of what its sockets do. */
  lemma StoppedEffect(w: World, e: Event)
    requires Dead(w.pipe) && Enabled(w.pipe, e)
    ensures var p := w.pipe;
      Step(w, e)
      == match e
         case WriteCompleted(i) => w.(pipe := p.(inFlight := p.inFlight[..i] + p.inFlight[i + 1..]))
         case Drained(_, _, _) => w.(pipe := p.(needDrain := false))
         case TargetDestroyed => w.(pipe := p.(destroyed := true))
         case _ => w
  {
  }
}
