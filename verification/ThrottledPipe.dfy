/**
 One direction of a throttled connection: chunks wait in a queue until their scheduled time, are
 written to the target, and stay accounted for until the target completes the write. The source is
 paused on back-pressure, and EOF follows every queued byte.
 */
module ThrottledPipes {
  import opened Prelude
  import opened ThrottledLinks

  type Bytes = seq<bv8>

  /** 256 KiB. */
  const HIGH_WATER := 0x4_0000

  /** A queue entry; `None` is the EOF marker. */
  datatype Item = Item(at: real, chunk: Option<Bytes>)

  /** A chunk as the target received it, with the clock the pump had read. */
  datatype Write = Write(time: real, chunk: Bytes)

  /**
   The closure variables of one pipe, the part of its two sockets it depends on (`paused` of the
   source, the rest of the target), and the history: `received` are the accepted chunks and `slots` the
   link's calls that scheduled them.
   `timer` is the time the armed timer was set for.
   */
  datatype Pipe = Pipe(
    queue: seq<Item>,
    pending: int,
    ended: bool,
    stopped: bool,
    blocked: bool,
    timer: Option<real>,
    paused: bool,
    destroyed: bool,
    needDrain: bool,
    log: seq<Write>,
    inFlight: seq<Bytes>,
    ends: nat,
    received: seq<Item>,
    slots: seq<nat>
  )

  const OPENED := Pipe([], 0, false, false, false, None, false, false, false, [], [], 0, [], [])

  /** A pipe together with the link it shares with the other connections. */
  datatype World = World(pipe: Pipe, link: Link)

  /**
   What can happen to a pipe. Clock readings are arbitrary: `now` is the first reading of a handler,
   `armNow` the one taken when it arms the timer. `accepted` lists the target's answers to the
   writes of this pump (`true` once exhausted).
   */
  datatype Event =
    | Data(chunk: Bytes, now: real, armNow: real)
    | End(now: real, armNow: real)
    | TimerFired(now: real, armNow: real, accepted: seq<bool>)
    | Drained(now: real, armNow: real, accepted: seq<bool>)
    | WriteCompleted(index: nat)
    | TargetDestroyed
    | Stop

  /**
   What the sockets and the event loop guarantee: a paused or ended source delivers no data, a timer
   fires only while armed (perhaps early, as timers round their delay down), `drain` follows a refused
   write of a live target, and only writes in flight complete.
   */
  predicate Enabled(p: Pipe, e: Event) {
    match e
    case Data(_, _, _) => !p.paused && !p.ended
    case TimerFired(_, _, _) => p.timer.Some?
    case Drained(_, _, _) => p.needDrain && !p.destroyed
    case WriteCompleted(index) => index < |p.inFlight|
    case _ => true
  }

  // ----- what each handler does

  function Stopped(w: World): World {
    if w.pipe.stopped then w
    else World(
      w.pipe.(stopped := true, timer := None, pending := 0, queue := []),
      w.link.(queuedBytes := w.link.queuedBytes - w.pipe.pending))
  }

  function Resumed(p: Pipe): Pipe {
    if !p.stopped && !p.blocked && p.pending < HIGH_WATER / 2 && p.paused then p.(paused := false) else p
  }

  function Armed(p: Pipe, now: real): Pipe
    requires p.queue != []
  {
    p.(timer := Some(now + Max(0.0, p.queue[0].at - now)))
  }

  function Enqueued(p: Pipe, item: Item, now: real): Pipe {
    var q := p.(queue := p.queue + [item]);
    if q.timer.None? && !q.blocked then Armed(q, now) else q
  }

  function Written(p: Pipe, now: real, chunk: Bytes, accepted: bool): Pipe {
    var q := p.(log := p.log + [Write(now, chunk)], inFlight := p.inFlight + [chunk]);
    if accepted then q else q.(blocked := true, needDrain := true, paused := true)
  }

  function Head(accepted: seq<bool>): bool { accepted == [] || accepted[0] }

  function Tail(accepted: seq<bool>): seq<bool> { if accepted == [] then [] else accepted[1..] }

  predicate HeadDue(p: Pipe, now: real) {
    p.queue != [] && p.queue[0].at <= now && !p.blocked
  }

  /** The dispatch loop of `pump`. */
  function Dispatched(w: World, now: real, accepted: seq<bool>): World
    decreases |w.pipe.queue|
  {
    if !HeadDue(w.pipe, now) then w
    else
      var rest := w.pipe.(queue := w.pipe.queue[1..]);
      match w.pipe.queue[0].chunk
      case None =>
        Dispatched(w.(pipe := if rest.destroyed then rest else rest.(ends := rest.ends + 1)), now, accepted)
      case Some(chunk) =>
        if rest.destroyed then Stopped(w.(pipe := rest))
        else Dispatched(w.(pipe := Written(rest, now, chunk, Head(accepted))), now, Tail(accepted))
  }

  lemma NothingDue(w: World, now: real, accepted: seq<bool>)
    requires !HeadDue(w.pipe, now)
    ensures Dispatched(w, now, accepted) == w
  {
  }

  function Rearmed(p: Pipe, now: real): Pipe {
    if !p.blocked && p.queue != [] then Armed(p, now) else p
  }

  function Pumped(w: World, now: real, armNow: real, accepted: seq<bool>): World {
    var idle := w.(pipe := w.pipe.(timer := None));
    if idle.pipe.stopped || idle.pipe.blocked then idle
    else
      var after := Dispatched(idle, now, accepted);
      if after.pipe.stopped then after else after.(pipe := Rearmed(Resumed(after.pipe), armNow))
  }

  function EndReceived(p: Pipe, now: real, armNow: real): Pipe {
    if p.ended || p.stopped then p
    else
      var at := if p.queue == [] then now else p.queue[|p.queue| - 1].at;
      Enqueued(p.(ended := true), Item(at, None), armNow)
  }

  /** The chunk enters the books of the pipe and of the link, which says when it may leave. */
  function Accepted(w: World, chunk: Bytes, now: real): (World, Item) {
    var queued := w.link.queuedBytes + |chunk|;
    var link := Scheduled(
      w.link.(queuedBytes := queued, peakQueuedBytes := MaxInt(w.link.peakQueuedBytes, queued)),
      Call(now, |chunk|));
    var item := Item(link.nextFree + link.latencyMs, Some(chunk));
    (World(
      w.pipe.(pending := w.pipe.pending + |chunk|,
              received := w.pipe.received + [item],
              slots := w.pipe.slots + [|w.link.calls|]),
      link), item)
  }

  function Throttled(p: Pipe): Pipe {
    if p.blocked || p.pending >= HIGH_WATER then p.(paused := true) else p
  }

  function DataReceived(w: World, chunk: Bytes, now: real, armNow: real): World {
    if w.pipe.stopped then w
    else
      var (v, item) := Accepted(w, chunk, now);
      v.(pipe := Throttled(Enqueued(v.pipe, item, armNow)))
  }

  function Completed(w: World, index: nat): World
    requires index < |w.pipe.inFlight|
  {
    var length := |w.pipe.inFlight[index]|;
    var p := w.pipe.(inFlight := w.pipe.inFlight[..index] + w.pipe.inFlight[index + 1..]);
    if p.stopped then w.(pipe := p)
    else World(Resumed(p.(pending := p.pending - length)), w.link.(queuedBytes := w.link.queuedBytes - length))
  }

  function Step(w: World, e: Event): World
    requires Enabled(w.pipe, e)
  {
    match e
    case Data(chunk, now, armNow) => DataReceived(w, chunk, now, armNow)
    case End(now, armNow) => w.(pipe := EndReceived(w.pipe, now, armNow))
    case TimerFired(now, armNow, accepted) => Pumped(w, now, armNow, accepted)
    case Drained(now, armNow, accepted) =>
      var drained := w.(pipe := w.pipe.(needDrain := false));
      if w.pipe.stopped then drained
      else Pumped(drained.(pipe := drained.pipe.(blocked := false)), now, armNow, accepted)
    case WriteCompleted(index) => Completed(w, index)
    case TargetDestroyed => w.(pipe := w.pipe.(destroyed := true))
    case Stop => Stopped(w)
  }

  // ----- the invariant

  ghost function ChunkBytes(chunks: seq<Bytes>): nat {
    if chunks == [] then 0 else |chunks[0]| + ChunkBytes(chunks[1..])
  }

  ghost function ItemBytes(items: seq<Item>): nat {
    if items == [] then 0
    else (if items[0].chunk.Some? then |items[0].chunk.value| else 0) + ItemBytes(items[1..])
  }

  ghost predicate HasEof(queue: seq<Item>) { queue != [] && queue[|queue| - 1].chunk.None? }

  /** The queue without its EOF marker. */
  ghost function DataItems(queue: seq<Item>): seq<Item> {
    if HasEof(queue) then queue[..|queue| - 1] else queue
  }

  ghost predicate AllData(items: seq<Item>) {
    forall i | 0 <= i < |items| :: items[i].chunk.Some?
  }

  /** Every write is the next received chunk, and is made no earlier than that chunk's scheduled time. */
  ghost predicate Delivers(log: seq<Write>, received: seq<Item>) {
    && |log| <= |received|
    && AllData(received)
    && forall i | 0 <= i < |log| ::
         log[i].chunk == received[i].chunk.value && received[i].at <= log[i].time
  }

  /** The target is ended at most once, after everything received was written. */
  ghost predicate Faithful(p: Pipe) {
    Delivers(p.log, p.received) && p.ends <= 1 && (p.ends == 1 ==> p.ended && |p.log| == |p.received|)
  }

  /** The queue holds exactly the received chunks not yet written. */
  ghost predicate Holds(queue: seq<Item>, log: seq<Write>, received: seq<Item>) {
    |log| <= |received| && DataItems(queue) == received[|log|..]
  }

  /** An ended pipe still queues EOF after all data, or has passed it on, or found the target gone. */
  ghost predicate Ordered(p: Pipe) {
    && Holds(p.queue, p.log, p.received)
    && (HasEof(p.queue) ==> p.ended && p.ends == 0)
    && (p.ended && !HasEof(p.queue) ==> p.queue == [] && (p.ends == 1 || p.destroyed))
  }

  ghost predicate Balanced(p: Pipe) {
    p.pending == ItemBytes(p.queue) + ChunkBytes(p.inFlight)
  }

  /** A flowing source is neither blocked nor over the high-water mark. */
  ghost predicate Gated(p: Pipe) {
    (p.blocked <==> p.needDrain) && (!p.paused ==> !p.blocked && p.pending < HIGH_WATER)
  }

  /** What holds of a live pipe even in the middle of a pump. */
  ghost predicate Accounted(p: Pipe) {
    !p.stopped && Faithful(p) && Ordered(p) && Balanced(p) && Gated(p)
  }

  /** A timer is armed exactly while something can leave, and not before the head is due. */
  ghost predicate Timed(p: Pipe) {
    && (p.timer.Some? <==> p.queue != [] && !p.blocked)
    && (p.timer.Some? ==> p.queue[0].at <= p.timer.value)
  }

  ghost predicate Live(p: Pipe) {
    && Accounted(p)
    && (p.paused && !p.blocked ==> p.pending >= HIGH_WATER / 2)
    && Timed(p)
  }

  ghost predicate Dead(p: Pipe) {
    p.stopped && Faithful(p) && p.queue == [] && p.pending == 0 && p.timer.None?
  }

  ghost predicate Inv(p: Pipe) { Live(p) || Dead(p) }

  // ----- the invariant is kept

  lemma OpenedIsLive(p: Pipe)
    requires p == OPENED
    ensures Live(p)
  {
  }

  lemma {:induction false} ChunkBytesConcat(a: seq<Bytes>, b: seq<Bytes>)
    ensures ChunkBytes(a + b) == ChunkBytes(a) + ChunkBytes(b)
  {
    if a == [] {
      assert a + b == b;
    } else {
      assert (a + b)[1..] == a[1..] + b;
      ChunkBytesConcat(a[1..], b);
    }
  }

  lemma {:induction false} ItemBytesAppend(items: seq<Item>, item: Item)
    ensures ItemBytes(items + [item]) == ItemBytes(items) + ItemBytes([item])
  {
    if items == [] {
      assert items + [item] == [item];
    } else {
      assert (items + [item])[1..] == items[1..] + [item];
      ItemBytesAppend(items[1..], item);
    }
  }

  lemma HeadIsNext(queue: seq<Item>, log: seq<Write>, received: seq<Item>)
    requires Holds(queue, log, received) && queue != [] && queue[0].chunk.Some?
    ensures |log| < |received| && received[|log|] == queue[0]
    ensures HasEof(queue) == HasEof(queue[1..])
    ensures forall w: Write :: Holds(queue[1..], log + [w], received)
  {
    assert received[|log|..][0] == DataItems(queue)[0] == queue[0];
    assert DataItems(queue[1..]) == DataItems(queue)[1..] == received[|log|..][1..] == received[|log| + 1..];
  }

  lemma DeliversNext(log: seq<Write>, received: seq<Item>, time: real, chunk: Bytes)
    requires Delivers(log, received) && |log| < |received|
    requires received[|log|].chunk == Some(chunk) && received[|log|].at <= time
    ensures Delivers(log + [Write(time, chunk)], received)
  {
  }

  lemma WrittenKeepsOrder(p: Pipe, now: real, accepted: bool)
    requires Faithful(p) && Ordered(p) && HeadDue(p, now) && p.queue[0].chunk.Some?
    ensures var q := Written(p.(queue := p.queue[1..]), now, p.queue[0].chunk.value, accepted);
      Faithful(q) && Ordered(q)
  {
    HeadIsNext(p.queue, p.log, p.received);
    DeliversNext(p.log, p.received, now, p.queue[0].chunk.value);
  }

  lemma WrittenKeepsBalance(p: Pipe, now: real, accepted: bool)
    requires Balanced(p) && HeadDue(p, now) && p.queue[0].chunk.Some?
    ensures Balanced(Written(p.(queue := p.queue[1..]), now, p.queue[0].chunk.value, accepted))
  {
    var chunk := p.queue[0].chunk.value;
    ChunkBytesConcat(p.inFlight, [chunk]);
    assert ChunkBytes([chunk]) == |chunk| + ChunkBytes([chunk][1..]);
  }

  lemma EofKeepsAccount(p: Pipe, now: real)
    requires Accounted(p) && HeadDue(p, now) && p.queue[0].chunk.None?
    ensures |p.queue| == 1
    ensures var q := p.(queue := []);
      Accounted(if q.destroyed then q else q.(ends := q.ends + 1))
  {
    assert DataItems(p.queue) == [] && p.queue[1..] == [];
  }

  lemma {:induction false} DispatchedKeepsAccount(w: World, now: real, accepted: seq<bool>)
    requires Accounted(w.pipe) && w.pipe.timer.None?
    ensures var v := Dispatched(w, now, accepted);
      Dead(v.pipe) || (Accounted(v.pipe) && v.pipe.timer.None? && !HeadDue(v.pipe, now))
    decreases |w.pipe.queue|
  {
    var p := w.pipe;
    if HeadDue(p, now) {
      var rest := p.(queue := p.queue[1..]);
      match p.queue[0].chunk
      case None =>
        EofKeepsAccount(p, now);
        assert rest.queue == [];
        DispatchedKeepsAccount(
          w.(pipe := if rest.destroyed then rest else rest.(ends := rest.ends + 1)), now, accepted);
      case Some(chunk) =>
        if !rest.destroyed {
          WrittenKeepsOrder(p, now, Head(accepted));
          WrittenKeepsBalance(p, now, Head(accepted));
          DispatchedKeepsAccount(w.(pipe := Written(rest, now, chunk, Head(accepted))), now, Tail(accepted));
        }
    }
  }

  lemma PumpedKeepsInv(w: World, now: real, armNow: real, accepted: seq<bool>)
    requires Accounted(w.pipe) && (w.pipe.blocked ==> w.pipe.timer.None?)
    ensures Inv(Pumped(w, now, armNow, accepted).pipe)
  {
    var idle := w.(pipe := w.pipe.(timer := None));
    if !w.pipe.blocked {
      DispatchedKeepsAccount(idle, now, accepted);
      var after := Dispatched(idle, now, accepted);
      if !after.pipe.stopped {
        PumpEndKeepsInv(after.pipe, armNow);
      }
    }
  }

  lemma PumpEndKeepsInv(p: Pipe, armNow: real)
    requires Accounted(p) && p.timer.None?
    ensures Live(Rearmed(Resumed(p), armNow))
  {
    var q := Resumed(p);
    assert Faithful(q) && Ordered(q) && Balanced(q) && Gated(q);
  }

  lemma EnqueuedKeepsTimer(p: Pipe, item: Item, now: real)
    requires Timed(p)
    ensures Timed(Enqueued(p, item, now))
  {
  }

  lemma EnqueuedKeepsBalance(p: Pipe, item: Item)
    ensures ItemBytes(p.queue + [item])
         == ItemBytes(p.queue) + (if item.chunk.Some? then |item.chunk.value| else 0)
  {
    ItemBytesAppend(p.queue, item);
    assert [item][1..] == [];
  }

  lemma HoldsNext(queue: seq<Item>, log: seq<Write>, received: seq<Item>, item: Item)
    requires Holds(queue, log, received) && !HasEof(queue)
    ensures item.chunk.Some? ==> Holds(queue + [item], log, received + [item])
    ensures item.chunk.None? ==> Holds(queue + [item], log, received)
  {
    assert (received + [item])[|log|..] == received[|log|..] + [item];
    assert (queue + [item])[..|queue|] == queue;
  }

  lemma ReceivedKeepsOrder(p: Pipe, item: Item)
    requires Faithful(p) && Ordered(p) && !p.ended && item.chunk.Some?
    ensures var q := p.(queue := p.queue + [item], received := p.received + [item]);
      Faithful(q) && Ordered(q)
  {
    HoldsNext(p.queue, p.log, p.received, item);
  }

  lemma DataKeepsInv(w: World, chunk: Bytes, now: real, armNow: real)
    requires Live(w.pipe) && !w.pipe.paused && !w.pipe.ended
    ensures Live(DataReceived(w, chunk, now, armNow).pipe)
  {
    var p, q := w.pipe, DataReceived(w, chunk, now, armNow).pipe;
    var item := q.received[|p.received|];
    EnqueuedKeepsTimer(p.(pending := q.pending, received := q.received), item, armNow);
    EnqueuedKeepsBalance(p, item);
    ReceivedKeepsOrder(p, item);
    assert Faithful(q) && Ordered(q) && Balanced(q) && Gated(q);
  }

  lemma EofKeepsOrder(p: Pipe, item: Item)
    requires Faithful(p) && Ordered(p) && !p.ended && item.chunk.None?
    ensures var q := p.(queue := p.queue + [item], ended := true);
      Faithful(q) && Ordered(q)
  {
    HoldsNext(p.queue, p.log, p.received, item);
  }

  lemma EndKeepsInv(p: Pipe, now: real, armNow: real)
    requires Live(p)
    ensures Live(EndReceived(p, now, armNow))
  {
    if !p.ended {
      var q := EndReceived(p, now, armNow);
      var item := q.queue[|p.queue|];
      EnqueuedKeepsTimer(p.(ended := true), item, armNow);
      EnqueuedKeepsBalance(p, item);
      EofKeepsOrder(p, item);
      assert Faithful(q) && Ordered(q) && Balanced(q) && Gated(q);
    }
  }

  lemma CompletedKeepsInv(w: World, index: nat)
    requires Live(w.pipe) && index < |w.pipe.inFlight|
    ensures Live(Completed(w, index).pipe)
  {
    var f := w.pipe.inFlight;
    assert f == f[..index] + ([f[index]] + f[index + 1..]);
    ChunkBytesConcat(f[..index], [f[index]] + f[index + 1..]);
    ChunkBytesConcat([f[index]], f[index + 1..]);
    ChunkBytesConcat(f[..index], f[index + 1..]);
    assert ChunkBytes([f[index]]) == |f[index]| + ChunkBytes([f[index]][1..]);
  }

  lemma DrainedKeepsInv(w: World, now: real, armNow: real, accepted: seq<bool>)
    requires Live(w.pipe) && w.pipe.needDrain
    ensures Inv(Pumped(w.(pipe := w.pipe.(needDrain := false, blocked := false)), now, armNow, accepted).pipe)
  {
    var p := w.pipe.(needDrain := false, blocked := false);
    assert Faithful(p) && Ordered(p) && Balanced(p) && Gated(p);
    PumpedKeepsInv(w.(pipe := p), now, armNow, accepted);
  }

  lemma DestroyedKeepsInv(p: Pipe)
    requires Live(p)
    ensures Live(p.(destroyed := true))
  {
    var q := p.(destroyed := true);
    assert Faithful(q) && Ordered(q) && Balanced(q) && Gated(q) && Timed(q);
  }

  lemma DeadStaysDead(w: World, e: Event)
    requires Dead(w.pipe) && Enabled(w.pipe, e)
    ensures Dead(Step(w, e).pipe) && Step(w, e).link == w.link
  {
  }

  /** The invariant survives every event, whatever the clocks and the target's answers. */
  lemma StepKeepsInv(w: World, e: Event)
    requires Inv(w.pipe) && Enabled(w.pipe, e)
    ensures Inv(Step(w, e).pipe)
  {
    if w.pipe.stopped {
      DeadStaysDead(w, e);
    } else {
      match e
      case Data(chunk, now, armNow) => DataKeepsInv(w, chunk, now, armNow);
      case End(now, armNow) => EndKeepsInv(w.pipe, now, armNow);
      case TimerFired(now, armNow, accepted) => PumpedKeepsInv(w, now, armNow, accepted);
      case Drained(now, armNow, accepted) => DrainedKeepsInv(w, now, armNow, accepted);
      case WriteCompleted(index) => CompletedKeepsInv(w, index);
      case TargetDestroyed => DestroyedKeepsInv(w.pipe);
      case Stop =>
    }
  }

  // ----- accounting on the shared link

  lemma {:induction false} DispatchedConserves(w: World, now: real, accepted: seq<bool>)
    ensures var v := Dispatched(w, now, accepted);
      && v.link == w.link.(queuedBytes := v.link.queuedBytes)
      && v.link.queuedBytes - v.pipe.pending == w.link.queuedBytes - w.pipe.pending
      && (v.pipe.pending == w.pipe.pending || v.pipe.pending == 0)
      && v.pipe.received == w.pipe.received && v.pipe.slots == w.pipe.slots
      && w.pipe.log <= v.pipe.log
    decreases |w.pipe.queue|
  {
    if HeadDue(w.pipe, now) {
      var rest := w.pipe.(queue := w.pipe.queue[1..]);
      match w.pipe.queue[0].chunk
      case None =>
        DispatchedConserves(w.(pipe := if rest.destroyed then rest else rest.(ends := rest.ends + 1)), now, accepted);
      case Some(chunk) =>
        if !rest.destroyed {
          DispatchedConserves(w.(pipe := Written(rest, now, chunk, Head(accepted))), now, Tail(accepted));
        }
    }
  }

  lemma PumpedConserves(w: World, now: real, armNow: real, accepted: seq<bool>)
    ensures var v := Pumped(w, now, armNow, accepted);
      && v.link == w.link.(queuedBytes := v.link.queuedBytes)
      && v.link.queuedBytes - v.pipe.pending == w.link.queuedBytes - w.pipe.pending
      && (v.pipe.pending == w.pipe.pending || v.pipe.pending == 0)
      && v.pipe.received == w.pipe.received && v.pipe.slots == w.pipe.slots
      && w.pipe.log <= v.pipe.log
  {
    DispatchedConserves(w.(pipe := w.pipe.(timer := None)), now, accepted);
  }

  /** Every event changes the link's queued bytes by exactly what it changes in this pipe's `pending`. */
  lemma StepConserves(w: World, e: Event)
    requires Inv(w.pipe) && Enabled(w.pipe, e)
    ensures var v := Step(w, e);
      && v.link.queuedBytes - v.pipe.pending == w.link.queuedBytes - w.pipe.pending
      && (!e.Data? || w.pipe.stopped ==> v.pipe.pending <= w.pipe.pending || v.pipe.pending == 0)
      && (!e.Data? || w.pipe.stopped ==> v.link == w.link.(queuedBytes := v.link.queuedBytes))
  {
    match e
    case TimerFired(now, armNow, accepted) => PumpedConserves(w, now, armNow, accepted);
    case Drained(now, armNow, accepted) =>
      PumpedConserves(w.(pipe := w.pipe.(needDrain := false, blocked := false)), now, armNow, accepted);
    case _ =>
  }

  /** What was written or received stays so. */
  lemma StepExtendsHistory(w: World, e: Event)
    requires Enabled(w.pipe, e)
    ensures w.pipe.received <= Step(w, e).pipe.received && w.pipe.log <= Step(w, e).pipe.log
    ensures (e.Data? && !w.pipe.stopped) || Step(w, e).pipe.received == w.pipe.received
  {
    match e
    case TimerFired(now, armNow, accepted) => PumpedConserves(w, now, armNow, accepted);
    case Drained(now, armNow, accepted) =>
      PumpedConserves(w.(pipe := w.pipe.(needDrain := false, blocked := false)), now, armNow, accepted);
    case _ =>
  }

  // ----- progress

  /** The events that can make a live pipe's queue move. */
  ghost predicate CanWake(p: Pipe) {
    exists e: Event :: (e.TimerFired? || e.Drained?) && Enabled(p, e)
  }

  /**
   A live pipe holding anything always has a wake-up coming, with one exception: it is blocked on a
   target that was destroyed, for which `drain` never arrives.
   */
  lemma WakesUnlessTargetGone(p: Pipe)
    requires Live(p) && p.queue != []
    ensures CanWake(p) <==> !(p.blocked && p.destroyed)
  {
    if p.timer.Some? {
      assert Enabled(p, TimerFired(p.timer.value, 0.0, []));
    } else if !p.destroyed {
      assert Enabled(p, Drained(0.0, 0.0, []));
    }
  }

  lemma RefusedWriteBlocks(w: World, now: real, armNow: real)
    requires HeadDue(w.pipe, now) && !w.pipe.stopped && !w.pipe.destroyed && w.pipe.queue[0].chunk.Some?
    ensures var p := Pumped(w, now, armNow, [false]).pipe;
      p.blocked && p.paused && !p.stopped && p.queue == w.pipe.queue[1..]
  {
    var idle := w.(pipe := w.pipe.(timer := None));
    var p := idle.pipe;
    var q := Written(p.(queue := p.queue[1..]), now, p.queue[0].chunk.value, false);
    assert HeadDue(p, now) && !HeadDue(q, now);
    assert Dispatched(idle.(pipe := q), now, []).pipe == q;
    assert Dispatched(idle, now, [false]).pipe == q;
  }

  /**
   The exception happens whenever the target refuses a write while more is queued and is destroyed
   before it drains: the rest stays queued and the source paused, with no event left to move it.
   */
  lemma DestroyedBeforeDrainStrands(w: World, now: real, armNow: real)
    requires Live(w.pipe) && !w.pipe.destroyed && |w.pipe.queue| >= 2 && w.pipe.queue[0].chunk.Some?
    requires w.pipe.timer.Some? && w.pipe.timer.value <= now
    ensures var p := Step(Step(w, TimerFired(now, armNow, [false])), TargetDestroyed).pipe;
      Live(p) && p.queue != [] && p.paused && !CanWake(p)
  {
    var e := TimerFired(now, armNow, [false]);
    StepKeepsInv(w, e);
    RefusedWriteBlocks(w, now, armNow);
    var v := Step(w, e);
    DestroyedKeepsInv(v.pipe);
    WakesUnlessTargetGone(v.pipe.(destroyed := true));
  }

  /** A timer that fires at its time never fires in vain: the head of the queue is due by then, so it leaves. */
  lemma TimerMovesHead(w: World, now: real, armNow: real, accepted: seq<bool>)
    requires Live(w.pipe) && w.pipe.timer.Some? && w.pipe.timer.value <= now
    ensures |Pumped(w, now, armNow, accepted).pipe.queue| < |w.pipe.queue|
  {
    hide Faithful, Ordered, Balanced, Gated;
    var idle := w.(pipe := w.pipe.(timer := None));
    assert HeadDue(idle.pipe, now);
    var rest := idle.pipe.(queue := idle.pipe.queue[1..]);
    match idle.pipe.queue[0].chunk
    case None =>
      DispatchedShrinks(idle.(pipe := if rest.destroyed then rest else rest.(ends := rest.ends + 1)), now, accepted);
    case Some(chunk) =>
      DispatchedShrinks(idle.(pipe := Written(rest, now, chunk, Head(accepted))), now, Tail(accepted));
  }

  ghost predicate IsSuffix(rest: seq<Item>, queue: seq<Item>) {
    |rest| <= |queue| && rest == queue[|queue| - |rest|..]
  }

  lemma SuffixOfTail(rest: seq<Item>, queue: seq<Item>)
    ensures IsSuffix(queue, queue) && IsSuffix([], queue)
    ensures queue != [] && IsSuffix(rest, queue[1..]) ==> IsSuffix(rest, queue)
  {
  }

  /** Only the head of the queue ever leaves, one entry after the other. */
  lemma {:induction false} DispatchedShrinks(w: World, now: real, accepted: seq<bool>)
    ensures IsSuffix(Dispatched(w, now, accepted).pipe.queue, w.pipe.queue)
    decreases |w.pipe.queue|
  {
    hide IsSuffix;
    SuffixOfTail([], w.pipe.queue);
    SuffixOfTail(Dispatched(w, now, accepted).pipe.queue, w.pipe.queue);
    if HeadDue(w.pipe, now) {
      var rest := w.pipe.(queue := w.pipe.queue[1..]);
      match w.pipe.queue[0].chunk
      case None =>
        DispatchedShrinks(w.(pipe := if rest.destroyed then rest else rest.(ends := rest.ends + 1)), now, accepted);
      case Some(chunk) =>
        if !rest.destroyed {
          DispatchedShrinks(w.(pipe := Written(rest, now, chunk, Head(accepted))), now, Tail(accepted));
        } else {
          SuffixOfTail([], rest.queue);
        }
    }
  }

  /**
   Once everything queued is due, a pump of a live target that refuses nothing delivers all of it,
   and passes on the half-close exactly when the source has ended.
   */
  lemma PumpDeliversEverything(w: World, now: real, armNow: real)
    requires Live(w.pipe) && !w.pipe.blocked && !w.pipe.destroyed
    requires forall item | item in w.pipe.queue :: item.at <= now
    ensures var p := Pumped(w, now, armNow, []).pipe;
      && p.queue == []
      && |p.log| == |p.received| && p.received == w.pipe.received
      && (p.ends == 1 <==> w.pipe.ended)
  {
    var idle := w.(pipe := w.pipe.(timer := None));
    DispatchedDelivers(idle, now);
    DispatchedConserves(idle, now, []);
    PumpedKeepsInv(w, now, armNow, []);
    var after := Dispatched(idle, now, []);
    DispatchedKeepsAccount(idle, now, []);
  }

  lemma {:induction false} DispatchedDelivers(w: World, now: real)
    requires !w.pipe.stopped && !w.pipe.blocked && !w.pipe.destroyed
    requires forall item | item in w.pipe.queue :: item.at <= now
    ensures var p := Dispatched(w, now, []).pipe;
      p.queue == [] && !p.stopped && !p.destroyed && !p.blocked && p.ended == w.pipe.ended
    decreases |w.pipe.queue|
  {
    if w.pipe.queue != [] {
      var rest := w.pipe.(queue := w.pipe.queue[1..]);
      match w.pipe.queue[0].chunk
      case None => DispatchedDelivers(w.(pipe := rest.(ends := rest.ends + 1)), now);
      case Some(chunk) => DispatchedDelivers(w.(pipe := Written(rest, now, chunk, true)), now);
    }
  }

  // ----- the schedule

  /** Every received chunk is due when the link's scheduler says, in the order of its calls. */
  ghost predicate OnSchedule(p: Pipe, link: Link) {
    && |p.slots| == |p.received| && AllData(p.received)
    && (forall k | 0 <= k < |p.slots| ::
          && p.slots[k] < |link.calls| && p.received[k].at == DeliveryOf(link, p.slots[k])
          && |p.received[k].chunk.value| == link.calls[p.slots[k]].length)
    && (forall j, k | 0 <= j < k < |p.slots| :: p.slots[j] < p.slots[k])
  }

  ghost predicate Ascending(items: seq<Item>) { forall i, j | 0 <= i < j < |items| :: items[i].at <= items[j].at }

  lemma ScheduleStays(p: Pipe, link: Link, later: Link)
    requires OnSchedule(p, link) && Extends(later, link)
    ensures OnSchedule(p, later)
  {
    hide DeliveryOf;
    forall k | 0 <= k < |p.slots|
      ensures p.slots[k] < |later.calls| && DeliveryOf(later, p.slots[k]) == DeliveryOf(link, p.slots[k])
    {
      DeliveryStays(later, link, p.slots[k]);
    }
  }

  /** Of two chunks on one link, in whichever pipes, the one scheduled later is due no earlier. */
  lemma ChunksDueInOrder(p: Pipe, j: nat, q: Pipe, k: nat, link: Link)
    requires OnSchedule(p, link) && OnSchedule(q, link) && j < |p.slots| && k < |q.slots| && p.slots[j] <= q.slots[k]
    ensures p.received[j].at <= q.received[k].at
  {
    DeliveriesMonotone(link, p.slots[j], q.slots[k]);
  }

  lemma ReceivedAscending(p: Pipe, link: Link)
    requires OnSchedule(p, link)
    ensures Ascending(p.received)
  {
    forall j, k | 0 <= j < k < |p.received|
      ensures p.received[j].at <= p.received[k].at
    {
      ChunksDueInOrder(p, j, p, k, link);
    }
  }

  lemma AcceptedKeepsSchedule(w: World, chunk: Bytes, now: real)
    requires OnSchedule(w.pipe, w.link) && LinkInv(w.link)
    ensures var v := Accepted(w, chunk, now).0;
      OnSchedule(v.pipe, v.link) && LinkInv(v.link) && Extends(v.link, w.link)
  {
    hide LinkInv, DeliveryOf;
    var v := Accepted(w, chunk, now).0;
    var queued := w.link.queuedBytes + |chunk|;
    var counted := w.link.(queuedBytes := queued, peakQueuedBytes := MaxInt(w.link.peakQueuedBytes, queued));
    assert LinkInv(counted) by {
      CountsDoNotMatter(w.link, counted);
    }
    ScheduledExtends(counted, Call(now, |chunk|));
    ScheduleStays(w.pipe, w.link, v.link);
  }

  lemma CountsDoNotMatter(link: Link, counted: Link)
    requires counted == link.(queuedBytes := counted.queuedBytes, peakQueuedBytes := counted.peakQueuedBytes)
    requires LinkInv(link)
    ensures LinkInv(counted)
  {
  }

  /** The schedule survives every event, and all links only ever take more calls. */
  lemma StepKeepsSchedule(w: World, e: Event)
    requires Enabled(w.pipe, e) && Inv(w.pipe) && OnSchedule(w.pipe, w.link) && LinkInv(w.link)
    ensures var v := Step(w, e);
      OnSchedule(v.pipe, v.link) && LinkInv(v.link) && Extends(v.link, w.link)
  {
    hide Inv, Pumped, Accepted, LinkInv;
    var v := Step(w, e);
    if e.Data? && !w.pipe.stopped {
      AcceptedKeepsSchedule(w, e.chunk, e.now);
    } else {
      StepLeavesSchedule(w, e);
      CountsDoNotMatter(w.link, v.link);
      ScheduleStays(w.pipe, w.link, v.link);
    }
  }

  lemma StepLeavesSchedule(w: World, e: Event)
    requires Enabled(w.pipe, e) && Inv(w.pipe) && (e.Data? ==> w.pipe.stopped)
    ensures var v := Step(w, e);
      && v.pipe.received == w.pipe.received && v.pipe.slots == w.pipe.slots
      && v.link == w.link.(queuedBytes := v.link.queuedBytes)
  {
    match e
    case TimerFired(now, armNow, accepted) => PumpedConserves(w, now, armNow, accepted);
    case Drained(now, armNow, accepted) =>
      PumpedConserves(w.(pipe := w.pipe.(needDrain := false, blocked := false)), now, armNow, accepted);
    case _ =>
  }

  /** The queue stays in the order of due times: what arrives is due last, and EOF goes with the last chunk. */
  lemma StepKeepsAscending(w: World, e: Event)
    requires Enabled(w.pipe, e) && Inv(w.pipe) && OnSchedule(w.pipe, w.link) && LinkInv(w.link)
    requires Ascending(w.pipe.queue)
    ensures Ascending(Step(w, e).pipe.queue)
  {
    hide Accounted, Timed, OnSchedule, LinkInv, Pumped, Ascending, DataReceived, EndReceived;
    StoppedIsAscending();
    match e
    case Data(chunk, now, armNow) => DataKeepsAscending(w, chunk, now, armNow);
    case End(now, armNow) => EndKeepsAscending(w.pipe, now, armNow);
    case TimerFired(now, armNow, accepted) => PumpedKeepsAscending(w, now, armNow, accepted);
    case Drained(now, armNow, accepted) =>
      PumpedKeepsAscending(w.(pipe := w.pipe.(needDrain := false, blocked := false)), now, armNow, accepted);
    case _ =>
  }

  lemma StoppedIsAscending()
    ensures Ascending([])
  {
  }

  lemma AscendingNext(queue: seq<Item>, item: Item)
    requires Ascending(queue) && forall i | 0 <= i < |queue| :: queue[i].at <= item.at
    ensures Ascending(queue + [item])
  {
  }

  lemma DataKeepsAscending(w: World, chunk: Bytes, now: real, armNow: real)
    requires Inv(w.pipe) && !w.pipe.ended && OnSchedule(w.pipe, w.link) && LinkInv(w.link) && Ascending(w.pipe.queue)
    ensures Ascending(DataReceived(w, chunk, now, armNow).pipe.queue)
  {
    hide Ascending, LinkInv, OnSchedule, Live;
    if !w.pipe.stopped {
      ArrivalIsLast(w, chunk, now);
      AscendingNext(w.pipe.queue, Accepted(w, chunk, now).1);
    }
  }

  lemma EndKeepsAscending(p: Pipe, now: real, armNow: real)
    requires Ascending(p.queue)
    ensures Ascending(EndReceived(p, now, armNow).queue)
  {
    if !p.ended && !p.stopped {
      AscendingNext(p.queue, Item(if p.queue == [] then now else p.queue[|p.queue| - 1].at, None));
    }
  }

  lemma SuffixIsAscending(rest: seq<Item>, queue: seq<Item>)
    requires IsSuffix(rest, queue) && Ascending(queue)
    ensures Ascending(rest)
  {
  }

  lemma PumpedKeepsAscending(w: World, now: real, armNow: real, accepted: seq<bool>)
    requires Ascending(w.pipe.queue)
    ensures Ascending(Pumped(w, now, armNow, accepted).pipe.queue)
  {
    hide Ascending, IsSuffix, Dispatched;
    var idle := w.(pipe := w.pipe.(timer := None));
    DispatchedShrinks(idle, now, accepted);
    SuffixIsAscending(Dispatched(idle, now, accepted).pipe.queue, w.pipe.queue);
  }

  lemma ArrivalIsLast(w: World, chunk: Bytes, now: real)
    requires Live(w.pipe) && !w.pipe.ended && OnSchedule(w.pipe, w.link) && LinkInv(w.link)
    ensures forall i | 0 <= i < |w.pipe.queue| :: w.pipe.queue[i].at <= Accepted(w, chunk, now).1.at
  {
    hide OnSchedule, LinkInv, Faithful, Balanced, Gated, Timed;
    AcceptedKeepsSchedule(w, chunk, now);
    var (v, item) := Accepted(w, chunk, now);
    var p := w.pipe;
    ReceivedAscending(v.pipe, v.link);
    assert p.queue == p.received[|p.log|..];
    forall i | 0 <= i < |p.queue|
      ensures p.queue[i].at <= item.at
    {
      assert v.pipe.received[|p.log| + i] == p.queue[i] && v.pipe.received[|p.received|] == item;
    }
  }

  // ----- a pipe by itself, event after event

  ghost predicate LegalRun(w: World, events: seq<Event>)
    decreases |events|
  {
    events == [] || (Enabled(w.pipe, events[0]) && LegalRun(Step(w, events[0]), events[1..]))
  }

  ghost function RunAll(w: World, events: seq<Event>): World
    requires LegalRun(w, events)
    decreases |events|
  {
    if events == [] then w else RunAll(Step(w, events[0]), events[1..])
  }

  ghost predicate Stranded(p: Pipe) { Live(p) && p.blocked && p.destroyed }

  lemma StrandedStays(w: World, e: Event)
    requires Stranded(w.pipe) && Enabled(w.pipe, e) && !e.Stop?
    ensures var p := Step(w, e).pipe;
      Stranded(p) && p.log == w.pipe.log && p.ends == w.pipe.ends && w.pipe.queue <= p.queue
  {
    hide Faithful, Ordered, Balanced;
    StepKeepsInv(w, e);
  }

  /**
   A pipe blocked on a destroyed target is stuck for good: until it is stopped, whatever else happens
   writes nothing more and takes nothing out of its queue.
   */
  lemma {:induction false} StrandedForGood(w: World, events: seq<Event>)
    requires Stranded(w.pipe) && LegalRun(w, events) && forall e | e in events :: !e.Stop?
    ensures var p := RunAll(w, events).pipe;
      Stranded(p) && p.log == w.pipe.log && p.ends == w.pipe.ends && w.pipe.queue <= p.queue
    decreases |events|
  {
    hide Step, Enabled, Stranded;
    if events != [] {
      StrandedStays(w, events[0]);
      StrandedForGood(Step(w, events[0]), events[1..]);
    }
  }

  // ----- the forwarder itself

  class ThrottledPipe {
    const link: ThrottledLink
    var queue: seq<Item>
    var pending: int
    var ended: bool
    var stopped: bool
    var blocked: bool
    var timer: Option<real>
    // The sockets, as far as this direction uses them.
    var paused: bool
    var destroyed: bool
    var needDrain: bool
    var log: seq<Write>
    var inFlight: seq<Bytes>
    var ends: nat
    ghost var received: seq<Item>
    ghost var slots: seq<nat>

    ghost function Snapshot(): World
      reads this, link
    {
      World(
        Pipe(
          queue, pending, ended, stopped, blocked, timer, paused, destroyed, needDrain, log, inFlight, ends, received,
          slots),
        link.State())
    }

    constructor (link: ThrottledLink)
      requires link.Valid()
      ensures this.link == link && Snapshot() == World(OPENED, link.State())
    {
      this.link := link;
      queue, pending, ended, stopped, blocked, timer := [], 0, false, false, false, None;
      paused, destroyed, needDrain, log, inFlight, ends, received, slots := false, false, false, [], [], 0, [], [];
    }

    method Resume()
      modifies this`paused
      ensures Snapshot() == old(Snapshot()).(pipe := Resumed(old(Snapshot()).pipe))
    {
      if !stopped && !blocked && pending < HIGH_WATER / 2 && paused {
        paused := false;
      }
    }

    method Enqueue(at: real, chunk: Option<Bytes>, now: real)
      modifies this`queue, this`timer
      ensures Snapshot() == old(Snapshot()).(pipe := Enqueued(old(Snapshot()).pipe, Item(at, chunk), now))
    {
      queue := queue + [Item(at, chunk)];
      if timer.None? && !blocked {
        timer := Some(now + Max(0.0, queue[0].at - now));
      }
    }

    method StopPipe()
      requires link.Valid()
      modifies this, link`queuedBytes
      ensures link.Valid() && Snapshot() == Stopped(old(Snapshot()))
    {
      if stopped {
        return;
      }
      stopped := true;
      timer := None;
      link.queuedBytes := link.queuedBytes - pending;
      pending := 0;
      queue := [];
    }

    method WriteChunk(now: real, chunk: Bytes, writable: bool)
      modifies this
      ensures Snapshot() == old(Snapshot()).(pipe := Written(old(Snapshot()).pipe, now, chunk, writable))
    {
      log := log + [Write(now, chunk)];
      inFlight := inFlight + [chunk];
      if !writable {
        needDrain := true;
        blocked := true;
        paused := true;
      }
    }

    method Rearm(now: real)
      modifies this`timer
      ensures Snapshot() == old(Snapshot()).(pipe := Rearmed(old(Snapshot()).pipe, now))
    {
      if !blocked && |queue| > 0 {
        timer := Some(now + Max(0.0, queue[0].at - now));
      }
    }

    method Pump(now: real, armNow: real, accepted: seq<bool>)
      requires link.Valid()
      modifies this, link`queuedBytes
      ensures link.Valid() && Snapshot() == Pumped(old(Snapshot()), now, armNow, accepted)
    {
      timer := None;
      if stopped || blocked {
        return;
      }
      hide Dispatched, Written;
      ghost var idle := Snapshot();
      var answers := accepted;
      while |queue| > 0 && queue[0].at <= now && !blocked
        invariant link.Valid() && !stopped
        invariant Dispatched(Snapshot(), now, answers) == Dispatched(idle, now, accepted)
        decreases |queue|
      {
        answers := DispatchHead(now, answers);
        if stopped {
          return;
        }
      }
      NothingDue(Snapshot(), now, answers);
      Resume();
      Rearm(armNow);
    }

    /** One turn of the dispatch loop; the pipe is stopped when the target is found destroyed. */
    method DispatchHead(now: real, accepted: seq<bool>) returns (rest: seq<bool>)
      requires link.Valid() && !stopped && HeadDue(Snapshot().pipe, now)
      modifies this, link`queuedBytes
      ensures link.Valid() && |queue| < |old(queue)|
      ensures stopped ==> Snapshot() == Dispatched(old(Snapshot()), now, accepted)
      ensures !stopped ==> Dispatched(Snapshot(), now, rest) == Dispatched(old(Snapshot()), now, accepted)
    {
      var item := queue[0];
      queue := queue[1..];
      rest := accepted;
      match item.chunk {
        case None =>
          if !destroyed {
            ends := ends + 1;
          }
        case Some(chunk) =>
          if destroyed {
            StopPipe();
          } else {
            WriteChunk(now, chunk, Head(accepted));
            rest := Tail(accepted);
          }
      }
    }

    method Drain(now: real, armNow: real, accepted: seq<bool>)
      requires link.Valid() && needDrain && !destroyed
      modifies this, link`queuedBytes
      ensures link.Valid() && Snapshot() == Step(old(Snapshot()), Drained(now, armNow, accepted))
    {
      needDrain := false;
      if !stopped {
        blocked := false;
        Pump(now, armNow, accepted);
      }
    }

    method CompleteWrite(index: nat)
      requires link.Valid() && index < |inFlight|
      modifies this, link`queuedBytes
      ensures link.Valid() && Snapshot() == Completed(old(Snapshot()), index)
    {
      var length := |inFlight[index]|;
      inFlight := inFlight[..index] + inFlight[index + 1..];
      if stopped {
        return;
      }
      pending := pending - length;
      link.queuedBytes := link.queuedBytes - length;
      Resume();
    }

    method EndSource(now: real, armNow: real)
      modifies this
      ensures Snapshot() == old(Snapshot()).(pipe := EndReceived(old(Snapshot()).pipe, now, armNow))
    {
      if ended || stopped {
        return;
      }
      ended := true;
      Enqueue(if |queue| > 0 then queue[|queue| - 1].at else now, None, armNow);
    }

    method Accept(chunk: Bytes, now: real) returns (at: real)
      requires link.Valid()
      modifies this`pending, this`received, this`slots, link
      ensures link.Valid()
      ensures (Snapshot(), Item(at, Some(chunk))) == Accepted(old(Snapshot()), chunk, now)
    {
      hide Departure, TotalLength, Depart;
      pending := pending + |chunk|;
      link.queuedBytes := link.queuedBytes + |chunk|;
      link.peakQueuedBytes := MaxInt(link.peakQueuedBytes, link.queuedBytes);
      slots := slots + [|link.calls|];
      at := link.Schedule(now, |chunk|);
      received := received + [Item(at, Some(chunk))];
    }

    method ReceiveData(chunk: Bytes, now: real, armNow: real)
      requires link.Valid()
      modifies this, link
      ensures link.Valid() && Snapshot() == DataReceived(old(Snapshot()), chunk, now, armNow)
    {
      if stopped {
        return;
      }
      var at := Accept(chunk, now);
      Enqueue(at, Some(chunk), armNow);
      if blocked || pending >= HIGH_WATER {
        paused := true;
      }
    }
  }
}
