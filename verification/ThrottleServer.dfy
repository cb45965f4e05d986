/**
 The throttle's connections: each has one pipe per direction, and all pipes of a direction share one
 link. Closing both sockets of a connection, or an error on either, stops both its pipes.
 */
module ThrottleServers {
  import opened Prelude
  import opened ThrottledLinks
  import opened ThrottledPipes
  import opened PipeEffects

  /** Everything that flows one way: the shared link and one pipe per connection. */
  datatype Direction = Direction(link: Link, pipes: seq<Pipe>)

  /** `closed[i]` holds which sockets of connection `i` have emitted `close`. */
  datatype Socket = Client | Upstream
  datatype Server = Server(up: Direction, down: Direction, closed: seq<set<Socket>>)

  datatype ServerEvent =
    | Connect
    | OnPipe(source: Socket, index: nat, event: Event)
    | Closed(socket: Socket, index: nat, now: real, armNow: real)
    | Errored(index: nat)

  function Started(latencyMs: real, bytesPerMs: Rate): Server {
    Server(Direction(Idle(latencyMs, bytesPerMs), []), Direction(Idle(latencyMs, bytesPerMs), []), [])
  }

  function OnDirection(d: Direction, i: nat, e: Event): Direction
    requires i < |d.pipes| && Enabled(d.pipes[i], e)
  {
    var w := Step(World(d.pipes[i], d.link), e);
    Direction(w.link, d.pipes[i := w.pipe])
  }

  ghost predicate Shaped(s: Server) {
    |s.up.pipes| == |s.down.pipes| == |s.closed|
  }

  /** Chunks have at most `chunkLimit` bytes; a socket closes once; only the wiring stops a pipe. */
  ghost predicate ServerEnabled(s: Server, e: ServerEvent, chunkLimit: nat) {
    && Shaped(s)
    && match e
       case Connect => true
       case OnPipe(source, i, event) =>
         && i < |s.closed|
         && !event.Stop?
         && (event.Data? ==> |event.chunk| <= chunkLimit)
         && Enabled(if source.Client? then s.up.pipes[i] else s.down.pipes[i], event)
       case Closed(socket, i, _, _) => i < |s.closed| && socket !in s.closed[i]
       case Errored(i) => i < |s.closed|
  }

  ghost function StoppedAt(s: Server, i: nat): Server
    requires Shaped(s) && i < |s.closed|
  {
    s.(up := OnDirection(s.up, i, Stop), down := OnDirection(s.down, i, Stop))
  }

  ghost function SourceOrTarget(isSource: bool, now: real, armNow: real): Event {
    if isSource then Event.End(now, armNow) else TargetDestroyed
  }

  /** The closed socket was one pipe's source and the other pipe's target. */
  ghost function SocketClosed(s: Server, socket: Socket, i: nat, now: real, armNow: real): (t: Server)
    requires Shaped(s) && i < |s.closed|
    ensures Shaped(t) && |t.closed| == |s.closed|
    ensures
      var (fed, fedBy) :=
        if socket.Client? then (t.up.pipes[i], t.down.pipes[i]) else (t.down.pipes[i], t.up.pipes[i]);
      (fed.ended || fed.stopped) && fedBy.destroyed
    ensures forall j | 0 <= j < |s.closed| && j != i ::
      t.up.pipes[j] == s.up.pipes[j] && t.down.pipes[j] == s.down.pipes[j] && t.closed[j] == s.closed[j]
  {
    Server(
      OnDirection(s.up, i, SourceOrTarget(socket.Client?, now, armNow)),
      OnDirection(s.down, i, SourceOrTarget(socket.Upstream?, now, armNow)),
      s.closed[i := s.closed[i] + {socket}])
  }

  ghost function SocketErrored(s: Server, i: nat): Server
    requires Shaped(s) && i < |s.closed|
  {
    var t := StoppedAt(s, i);
    t.(up := OnDirection(t.up, i, TargetDestroyed), down := OnDirection(t.down, i, TargetDestroyed))
  }

  ghost function ServerStep(s: Server, e: ServerEvent, chunkLimit: nat): Server
    requires ServerEnabled(s, e, chunkLimit)
  {
    match e
    case Connect =>
      Server(s.up.(pipes := s.up.pipes + [OPENED]), s.down.(pipes := s.down.pipes + [OPENED]), s.closed + [{}])
    case OnPipe(source, i, event) =>
      if source.Client? then s.(up := OnDirection(s.up, i, event))
      else s.(down := OnDirection(s.down, i, event))
    case Closed(socket, i, now, armNow) =>
      var t := SocketClosed(s, socket, i, now, armNow);
      if t.closed[i] == {Client, Upstream} then StoppedAt(t, i) else t
    case Errored(i) => SocketErrored(s, i)
  }

  // ----- invariant

  ghost function PendingSum(pipes: seq<Pipe>): int {
    if pipes == [] then 0 else pipes[0].pending + PendingSum(pipes[1..])
  }

  /** The most bytes `connections` pipes can hold between them. */
  function Budget(connections: nat, chunkLimit: nat): nat {
    connections * (HIGH_WATER + chunkLimit)
  }

  ghost predicate Sound(p: Pipe, chunkLimit: nat) {
    Inv(p) && p.pending < HIGH_WATER + chunkLimit
  }

  ghost predicate AllSound(pipes: seq<Pipe>, chunkLimit: nat) {
    forall i | 0 <= i < |pipes| :: Sound(pipes[i], chunkLimit)
  }

  /** Every pipe of the direction follows the link's schedule, and so does its queue. */
  ghost predicate Scheduling(d: Direction) {
    && LinkInv(d.link)
    && forall i | 0 <= i < |d.pipes| :: OnSchedule(d.pipes[i], d.link) && Ascending(d.pipes[i].queue)
  }

  ghost predicate DirectionInv(d: Direction, chunkLimit: nat) {
    && AllSound(d.pipes, chunkLimit)
    && Scheduling(d)
    && d.link.queuedBytes == PendingSum(d.pipes)
    && d.link.queuedBytes <= d.link.peakQueuedBytes <= Budget(|d.pipes|, chunkLimit)
  }

  ghost predicate ServerInv(s: Server, chunkLimit: nat) {
    && Shaped(s)
    && DirectionInv(s.up, chunkLimit)
    && DirectionInv(s.down, chunkLimit)
    && Wired(s)
  }

  /** A connection with both sockets closed has both pipes stopped. */
  ghost predicate Wired(s: Server) {
    && Shaped(s)
    && forall i | 0 <= i < |s.closed| ::
         s.closed[i] == {Client, Upstream} ==> s.up.pipes[i].stopped && s.down.pipes[i].stopped
  }

  lemma {:induction false} PendingSumUpdate(pipes: seq<Pipe>, i: nat, p: Pipe)
    requires i < |pipes|
    ensures PendingSum(pipes[i := p]) == PendingSum(pipes) - pipes[i].pending + p.pending
  {
    if i == 0 {
      assert pipes[0 := p][1..] == pipes[1..];
    } else {
      assert pipes[i := p][1..] == pipes[1..][i - 1 := p];
      PendingSumUpdate(pipes[1..], i - 1, p);
    }
  }

  lemma {:induction false} PendingSumAppend(pipes: seq<Pipe>, p: Pipe)
    ensures PendingSum(pipes + [p]) == PendingSum(pipes) + p.pending
  {
    if pipes == [] {
      assert pipes + [p] == [p];
    } else {
      assert (pipes + [p])[1..] == pipes[1..] + [p];
      PendingSumAppend(pipes[1..], p);
    }
  }

  lemma BudgetNext(connections: nat, chunkLimit: nat)
    ensures Budget(connections + 1, chunkLimit) == Budget(connections, chunkLimit) + HIGH_WATER + chunkLimit
  {
  }

  lemma PendingNotNegative(p: Pipe)
    requires Inv(p)
    ensures 0 <= p.pending
  {
  }

  lemma {:induction false} PendingSumBounds(pipes: seq<Pipe>, chunkLimit: nat)
    requires AllSound(pipes, chunkLimit)
    ensures 0 <= PendingSum(pipes) <= Budget(|pipes|, chunkLimit)
  {
    if pipes != [] {
      assert Sound(pipes[0], chunkLimit);
      PendingNotNegative(pipes[0]);
      PendingSumBounds(pipes[1..], chunkLimit);
      BudgetNext(|pipes| - 1, chunkLimit);
    }
  }

  /** A chunk arrives only below the high-water mark, so `pending` passes it by less than one chunk. */
  lemma StepKeepsBound(w: World, e: Event, chunkLimit: nat)
    requires Sound(w.pipe, chunkLimit) && Enabled(w.pipe, e)
    requires e.Data? ==> |e.chunk| <= chunkLimit
    requires w.link.queuedBytes <= w.link.peakQueuedBytes
    ensures var v := Step(w, e);
      && v.pipe.pending < HIGH_WATER + chunkLimit
      && v.link.queuedBytes <= v.link.peakQueuedBytes
      && (v.link.peakQueuedBytes == w.link.peakQueuedBytes || v.link.peakQueuedBytes == v.link.queuedBytes)
  {
    StepConserves(w, e);
    StepKeepsInv(w, e);
    PendingNotNegative(w.pipe);
  }

  lemma OnDirectionKeepsInv(d: Direction, i: nat, e: Event, chunkLimit: nat)
    requires DirectionInv(d, chunkLimit) && i < |d.pipes| && Enabled(d.pipes[i], e)
    requires e.Data? ==> |e.chunk| <= chunkLimit
    ensures DirectionInv(OnDirection(d, i, e), chunkLimit)
  {
    var w := World(d.pipes[i], d.link);
    var v := Step(w, e);
    StepKeepsInv(w, e);
    StepConserves(w, e);
    StepKeepsBound(w, e, chunkLimit);
    assert Sound(w.pipe, chunkLimit) && Sound(v.pipe, chunkLimit);
    PendingSumUpdate(d.pipes, i, v.pipe);
    PendingSumBounds(d.pipes[i := v.pipe], chunkLimit);
    OnDirectionKeepsSchedule(d, i, e, chunkLimit);
  }

  /** An event of one pipe leaves the chunks of all the others due when they were. */
  lemma OnDirectionKeepsSchedule(d: Direction, i: nat, e: Event, chunkLimit: nat)
    requires AllSound(d.pipes, chunkLimit) && Scheduling(d) && i < |d.pipes| && Enabled(d.pipes[i], e)
    ensures Scheduling(OnDirection(d, i, e))
  {
    hide Step, Enabled, OnSchedule, Ascending, Inv, LinkInv, Extends;
    var w := World(d.pipes[i], d.link);
    var v := Step(w, e);
    assert Sound(w.pipe, chunkLimit);
    StepKeepsSchedule(w, e);
    StepKeepsAscending(w, e);
    var pipes := d.pipes[i := v.pipe];
    forall j | 0 <= j < |pipes|
      ensures OnSchedule(pipes[j], v.link) && Ascending(pipes[j].queue)
    {
      if j != i {
        ScheduleStays(d.pipes[j], d.link, v.link);
      }
    }
  }

  lemma LiveAndIdleIsSound(p: Pipe, chunkLimit: nat)
    requires Live(p) && p.pending == 0
    ensures Sound(p, chunkLimit)
  {
  }

  lemma ConnectKeepsInv(d: Direction, chunkLimit: nat)
    requires DirectionInv(d, chunkLimit)
    ensures DirectionInv(d.(pipes := d.pipes + [OPENED]), chunkLimit)
  {
    hide DirectionInv, Sound, Live, OnSchedule, Ascending;
    OpenedIsScheduled(d.link);
    OpenedIsLive(OPENED);
    LiveAndIdleIsSound(OPENED, chunkLimit);
    AppendKeepsInv(d, OPENED, chunkLimit);
  }

  lemma OpenedIsScheduled(link: Link)
    ensures OnSchedule(OPENED, link) && Ascending(OPENED.queue)
  {
  }

  lemma AppendKeepsInv(d: Direction, p: Pipe, chunkLimit: nat)
    requires DirectionInv(d, chunkLimit) && Sound(p, chunkLimit) && p.pending == 0
    requires OnSchedule(p, d.link) && Ascending(p.queue)
    ensures DirectionInv(d.(pipes := d.pipes + [p]), chunkLimit)
  {
    hide OnSchedule, Ascending, Sound, LinkInv;
    PendingSumAppend(d.pipes, p);
    BudgetNext(|d.pipes|, chunkLimit);
  }

  lemma StoppedStays(d: Direction, i: nat, e: Event)
    requires i < |d.pipes| && Enabled(d.pipes[i], e) && (d.pipes[i].stopped ==> Inv(d.pipes[i]))
    ensures d.pipes[i].stopped ==> OnDirection(d, i, e).pipes[i].stopped
  {
    if d.pipes[i].stopped {
      DeadStaysDead(World(d.pipes[i], d.link), e);
    }
  }

  lemma StoppedAtKeepsInv(s: Server, i: nat, chunkLimit: nat)
    requires Shaped(s) && DirectionInv(s.up, chunkLimit) && DirectionInv(s.down, chunkLimit) && i < |s.closed|
    ensures var t := StoppedAt(s, i);
      && DirectionInv(t.up, chunkLimit) && DirectionInv(t.down, chunkLimit)
      && t.up.pipes[i].stopped && t.down.pipes[i].stopped
  {
    OnDirectionKeepsInv(s.up, i, Stop, chunkLimit);
    OnDirectionKeepsInv(s.down, i, Stop, chunkLimit);
  }

  lemma SocketClosedKeepsInv(s: Server, socket: Socket, i: nat, now: real, armNow: real, chunkLimit: nat)
    requires Shaped(s) && DirectionInv(s.up, chunkLimit) && DirectionInv(s.down, chunkLimit) && i < |s.closed|
    ensures var t := SocketClosed(s, socket, i, now, armNow);
      DirectionInv(t.up, chunkLimit) && DirectionInv(t.down, chunkLimit)
  {
    OnDirectionKeepsInv(s.up, i, SourceOrTarget(socket.Client?, now, armNow), chunkLimit);
    OnDirectionKeepsInv(s.down, i, SourceOrTarget(socket.Upstream?, now, armNow), chunkLimit);
  }

  /** What changes at connection `i` alone cannot break the wiring of the others. */
  lemma WiringKept(s: Server, t: Server, i: nat)
    requires Wired(s) && Shaped(t) && |t.closed| == |s.closed| && i < |s.closed|
    requires t.closed[i] == {Client, Upstream} ==> t.up.pipes[i].stopped && t.down.pipes[i].stopped
    requires forall j | 0 <= j < |s.closed| && j != i ::
      t.closed[j] == s.closed[j] && t.up.pipes[j] == s.up.pipes[j] && t.down.pipes[j] == s.down.pipes[j]
    ensures Wired(t)
  {
  }

  lemma ClosedKeepsInv(s: Server, socket: Socket, i: nat, now: real, armNow: real, chunkLimit: nat)
    requires ServerInv(s, chunkLimit) && i < |s.closed|
    ensures var t := SocketClosed(s, socket, i, now, armNow);
      ServerInv(if t.closed[i] == {Client, Upstream} then StoppedAt(t, i) else t, chunkLimit)
  {
    var t := SocketClosed(s, socket, i, now, armNow);
    SocketClosedKeepsInv(s, socket, i, now, armNow, chunkLimit);
    if t.closed[i] == {Client, Upstream} {
      StoppedAtKeepsInv(t, i, chunkLimit);
      WiringKept(s, StoppedAt(t, i), i);
    } else {
      WiringKept(s, t, i);
    }
  }

  lemma ErroredKeepsInv(s: Server, i: nat, chunkLimit: nat)
    requires ServerInv(s, chunkLimit) && i < |s.closed|
    ensures ServerInv(SocketErrored(s, i), chunkLimit)
  {
    hide DirectionInv;
    var t := StoppedAt(s, i);
    StoppedAtKeepsInv(s, i, chunkLimit);
    OnDirectionKeepsInv(t.up, i, TargetDestroyed, chunkLimit);
    OnDirectionKeepsInv(t.down, i, TargetDestroyed, chunkLimit);
  }

  lemma OnPipeKeepsInv(s: Server, source: Socket, i: nat, e: Event, chunkLimit: nat)
    requires ServerInv(s, chunkLimit) && ServerEnabled(s, OnPipe(source, i, e), chunkLimit)
    ensures ServerInv(ServerStep(s, OnPipe(source, i, e), chunkLimit), chunkLimit)
  {
    hide Scheduling, Step, Enabled;
    var d := if source.Client? then s.up else s.down;
    OnDirectionKeepsInv(d, i, e, chunkLimit);
    assert Sound(d.pipes[i], chunkLimit);
    StoppedStays(d, i, e);
  }

  lemma NewConnectionIsWired(s: Server)
    requires Wired(s)
    ensures Wired(Server(
      s.up.(pipes := s.up.pipes + [OPENED]), s.down.(pipes := s.down.pipes + [OPENED]), s.closed + [{}]))
  {
    assert Client !in {};
  }

  lemma ServerStepKeepsInv(s: Server, e: ServerEvent, chunkLimit: nat)
    requires ServerInv(s, chunkLimit) && ServerEnabled(s, e, chunkLimit)
    ensures ServerInv(ServerStep(s, e, chunkLimit), chunkLimit)
  {
    hide DirectionInv, Wired;
    match e
    case Connect =>
      ConnectKeepsInv(s.up, chunkLimit);
      ConnectKeepsInv(s.down, chunkLimit);
      NewConnectionIsWired(s);
    case OnPipe(source, i, event) => OnPipeKeepsInv(s, source, i, event, chunkLimit);
    case Closed(socket, i, now, armNow) => ClosedKeepsInv(s, socket, i, now, armNow, chunkLimit);
    case Errored(i) => ErroredKeepsInv(s, i, chunkLimit);
  }

  // ----- what each event does

  /** The clock reading with which a server event may arm a timer. */
  function ServerReadingOf(e: ServerEvent): Option<real> {
    match e
    case OnPipe(_, _, event) => ReadingOf(event)
    case Closed(_, _, _, armNow) => Some(armNow)
    case _ => None
  }

  /** The timers of all pipes are left alone, cleared, or set by the event's reading for the heads of their queues. */
  ghost predicate TimersKept(s: Server, t: Server, reading: Option<real>) {
    && Shaped(s) && Shaped(t) && |s.closed| <= |t.closed|
    && (forall i | 0 <= i < |s.closed| ::
          && TimerKept(s.up.pipes[i], t.up.pipes[i], reading)
          && TimerKept(s.down.pipes[i], t.down.pipes[i], reading))
    && (forall i | |s.closed| <= i < |t.closed| :: t.up.pipes[i].timer.None? && t.down.pipes[i].timer.None?)
  }

  lemma OnDirectionKeepsTimer(d: Direction, i: nat, e: Event, chunkLimit: nat)
    requires AllSound(d.pipes, chunkLimit) && i < |d.pipes| && Enabled(d.pipes[i], e)
    ensures var after := OnDirection(d, i, e);
      && TimerKept(d.pipes[i], after.pipes[i], ReadingOf(e))
      && |after.pipes| == |d.pipes|
      && forall j | 0 <= j < |d.pipes| && j != i :: after.pipes[j] == d.pipes[j]
  {
    hide Step, Enabled, TimerKept, Inv;
    assert Sound(d.pipes[i], chunkLimit);
    StepKeepsTimer(World(d.pipes[i], d.link), e);
  }

  lemma StoppingClearsTimers(s: Server, i: nat)
    requires Shaped(s) && i < |s.closed|
    requires (s.up.pipes[i].stopped ==> Inv(s.up.pipes[i])) && (s.down.pipes[i].stopped ==> Inv(s.down.pipes[i]))
    ensures var t := StoppedAt(s, i);
      && Shaped(t) && t.closed == s.closed
      && t.up.pipes[i].stopped && t.down.pipes[i].stopped
      && t.up.pipes[i].timer.None? && t.down.pipes[i].timer.None?
      && t.up.pipes[i].queue == [] && t.down.pipes[i].queue == []
      && (forall j | 0 <= j < |s.closed| && j != i ::
            t.up.pipes[j] == s.up.pipes[j] && t.down.pipes[j] == s.down.pipes[j])
  {
  }

  lemma ServerStepKeepsTimers(s: Server, e: ServerEvent, chunkLimit: nat)
    requires ServerInv(s, chunkLimit) && ServerEnabled(s, e, chunkLimit)
    ensures TimersKept(s, ServerStep(s, e, chunkLimit), ServerReadingOf(e))
  {
    hide Scheduling, Step, Enabled, TimerKept, Inv, Wired, StoppedAt, SocketErrored;
    NoEventKeepsTimers(s, ServerReadingOf(e));
    match e
    case Connect =>
    case OnPipe(source, i, event) =>
      OnDirectionKeepsTimer(if source.Client? then s.up else s.down, i, event, chunkLimit);
    case Closed(socket, i, now, armNow) => ClosedKeepsTimers(s, socket, i, now, armNow, chunkLimit);
    case Errored(i) =>
      ErroredEffect(s, i, chunkLimit);
      ClearedIsKept(s, ServerStep(s, e, chunkLimit), i);
  }

  lemma NoEventKeepsTimers(s: Server, reading: Option<real>)
    requires Shaped(s)
    ensures TimersKept(s, s, reading)
    ensures forall p: Pipe :: TimerKept(p, p, reading)
  {
  }

  lemma ClearedIsKept(s: Server, t: Server, i: nat)
    requires Shaped(s) && Shaped(t) && |s.closed| == |t.closed| && i < |s.closed|
    requires t.up.pipes[i].timer.None? && t.down.pipes[i].timer.None?
    requires forall j | 0 <= j < |s.closed| && j != i ::
      t.up.pipes[j] == s.up.pipes[j] && t.down.pipes[j] == s.down.pipes[j]
    ensures forall reading :: TimersKept(s, t, reading)
  {
  }

  lemma ClosedKeepsTimers(s: Server, socket: Socket, i: nat, now: real, armNow: real, chunkLimit: nat)
    requires ServerInv(s, chunkLimit) && ServerEnabled(s, Closed(socket, i, now, armNow), chunkLimit)
    ensures TimersKept(s, ServerStep(s, Closed(socket, i, now, armNow), chunkLimit), Some(armNow))
  {
    hide Scheduling, Step, Inv, Wired, StoppedAt;
    var t := SocketClosed(s, socket, i, now, armNow);
    OnDirectionKeepsTimer(s.up, i, SourceOrTarget(socket.Client?, now, armNow), chunkLimit);
    OnDirectionKeepsTimer(s.down, i, SourceOrTarget(socket.Upstream?, now, armNow), chunkLimit);
    if t.closed[i] == {Client, Upstream} {
      SocketClosedKeepsInv(s, socket, i, now, armNow, chunkLimit);
      assert Sound(t.up.pipes[i], chunkLimit) && Sound(t.down.pipes[i], chunkLimit);
      StoppingClearsTimers(t, i);
      ClearedIsKept(s, StoppedAt(t, i), i);
    }
  }

  /** An error stops both pipes of its connection, whose sockets are destroyed, and touches no other. */
  lemma ErroredEffect(s: Server, i: nat, chunkLimit: nat)
    requires ServerInv(s, chunkLimit) && i < |s.closed|
    ensures var t := ServerStep(s, Errored(i), chunkLimit);
      && t.closed == s.closed && |t.up.pipes| == |t.down.pipes| == |s.closed|
      && (forall p | p in {t.up.pipes[i], t.down.pipes[i]} ::
            p.stopped && p.destroyed && p.queue == [] && p.pending == 0 && p.timer.None?)
      && (forall j | 0 <= j < |s.closed| && j != i ::
            t.up.pipes[j] == s.up.pipes[j] && t.down.pipes[j] == s.down.pipes[j])
  {
    assert Sound(s.up.pipes[i], chunkLimit) && Sound(s.down.pipes[i], chunkLimit);
  }

  /** Only when the connection's second socket closes are both its pipes stopped. */
  lemma ClosedEffect(s: Server, socket: Socket, i: nat, now: real, armNow: real, chunkLimit: nat)
    requires ServerInv(s, chunkLimit) && ServerEnabled(s, Closed(socket, i, now, armNow), chunkLimit)
    ensures var t := ServerStep(s, Closed(socket, i, now, armNow), chunkLimit);
      var second := s.closed[i] != {};
      && t.closed == s.closed[i := s.closed[i] + {socket}]
      && (second ==> t.up.pipes[i].stopped && t.down.pipes[i].stopped)
      && (!second ==> t == SocketClosed(s, socket, i, now, armNow))
  {
    hide DirectionInv, Wired, OnDirection, StoppedAt, SocketClosed, Enabled, ServerStep;
    ClosedStep(s, socket, i, now, armNow, chunkLimit);
    BothClosed(s.closed[i], socket);
    var t := SocketClosed(s, socket, i, now, armNow);
    SocketClosedIs(s, socket, i, now, armNow);
    if s.closed[i] != {} {
      SocketClosedKeepsInv(s, socket, i, now, armNow, chunkLimit);
      StoppedAtKeepsInv(t, i, chunkLimit);
      StoppedAtLeavesClosed(t, i);
    }
  }

  lemma ClosedStep(s: Server, socket: Socket, i: nat, now: real, armNow: real, chunkLimit: nat)
    requires ServerEnabled(s, Closed(socket, i, now, armNow), chunkLimit)
    ensures var t := SocketClosed(s, socket, i, now, armNow);
      ServerStep(s, Closed(socket, i, now, armNow), chunkLimit)
      == if t.closed[i] == {Client, Upstream} then StoppedAt(t, i) else t
  {
  }

  /** The socket that closes is the source of one pipe, which ends, and the target of the other, which is gone. */
  lemma SocketClosedIs(s: Server, socket: Socket, i: nat, now: real, armNow: real)
    requires Shaped(s) && i < |s.closed|
    ensures SocketClosed(s, socket, i, now, armNow)
         == Server(
              OnDirection(s.up, i, if socket.Client? then Event.End(now, armNow) else TargetDestroyed),
              OnDirection(s.down, i, if socket.Client? then TargetDestroyed else Event.End(now, armNow)),
              s.closed[i := s.closed[i] + {socket}])
  {
  }

  lemma StoppedAtLeavesClosed(s: Server, i: nat)
    requires Shaped(s) && i < |s.closed|
    ensures StoppedAt(s, i).closed == s.closed
  {
  }

  lemma BothClosed(closed: set<Socket>, socket: Socket)
    requires socket !in closed
    ensures closed + {socket} == {Client, Upstream} <==> closed != {}
  {
    if closed != {} {
      var other :| other in closed;
      forall x: Socket
        ensures x in closed + {socket} && x in {Client, Upstream}
      {
        assert x == other || x == socket;
        assert x.Client? || x.Upstream?;
      }
      assert closed + {socket} == {Client, Upstream};
    } else {
      assert (if socket.Client? then Upstream else Client) !in closed + {socket};
    }
  }

  /** A connection brings one fresh pipe for each direction. */
  lemma ConnectEffect(s: Server, chunkLimit: nat)
    requires Shaped(s)
    ensures var t := ServerStep(s, Connect, chunkLimit);
      var idle := Pipe([], 0, false, false, false, None, false, false, false, [], [], 0, [], []);
      && t.up == Direction(s.up.link, s.up.pipes + [idle])
      && t.down == Direction(s.down.link, s.down.pipes + [idle])
      && t.closed == s.closed + [{}]
  {
  }

  /** An event of one pipe changes that pipe and its link, by what the event does to them, and nothing else. */
  lemma PipeEventEffect(s: Server, source: Socket, i: nat, e: Event, chunkLimit: nat)
    requires ServerEnabled(s, OnPipe(source, i, e), chunkLimit)
    ensures var t := ServerStep(s, OnPipe(source, i, e), chunkLimit);
      var (d, d') := if source.Client? then (s.up, t.up) else (s.down, t.down);
      && World(d'.pipes[i], d'.link) == Step(World(d.pipes[i], d.link), e)
      && d'.pipes == d.pipes[i := d'.pipes[i]]
      && t.closed == s.closed && (if source.Client? then t.down == s.down else t.up == s.up)
  {
    hide Step, Enabled;
  }

  // ----- whole runs

  ghost predicate Legal(s: Server, events: seq<ServerEvent>, chunkLimit: nat)
    decreases |events|
  {
    events == [] ||
    (ServerEnabled(s, events[0], chunkLimit)
     && Legal(ServerStep(s, events[0], chunkLimit), events[1..], chunkLimit))
  }

  ghost function Run(s: Server, events: seq<ServerEvent>, chunkLimit: nat): Server
    requires Legal(s, events, chunkLimit)
    decreases |events|
  {
    if events == [] then s else Run(ServerStep(s, events[0], chunkLimit), events[1..], chunkLimit)
  }

  lemma {:induction false} RunKeepsInv(s: Server, events: seq<ServerEvent>, chunkLimit: nat)
    requires ServerInv(s, chunkLimit) && Legal(s, events, chunkLimit)
    ensures ServerInv(Run(s, events, chunkLimit), chunkLimit)
    decreases |events|
  {
    if events != [] {
      ServerStepKeepsInv(s, events[0], chunkLimit);
      RunKeepsInv(ServerStep(s, events[0], chunkLimit), events[1..], chunkLimit);
    }
  }

  /** What every reachable state promises of one pipe. */
  ghost predicate PipePromises(p: Pipe, chunkLimit: nat) {
    // Accounting and back-pressure.
    && 0 <= p.pending < HIGH_WATER + chunkLimit
    && (p.stopped ==> p.pending == 0 && p.timer.None?)
    && (!p.stopped ==> p.pending == ItemBytes(p.queue) + ChunkBytes(p.inFlight))
    && (!p.stopped && !p.paused ==> !p.blocked && p.pending < HIGH_WATER)
    && (!p.stopped && p.paused && !p.blocked ==> p.pending >= HIGH_WATER / 2)
    // Delivery: in order, not early, nothing lost while live, EOF once and last.
    && Delivers(p.log, p.received)
    && (!p.stopped ==> Holds(p.queue, p.log, p.received))
    && p.ends <= 1
    && (p.ends == 1 ==> |p.log| == |p.received|)
    // No lost wake-up.
    && (!p.stopped && p.queue != [] && !(p.blocked && p.destroyed) ==> CanWake(p))
  }

  /** Every event of a run leaves the timers alone, clears them, or sets them for what is due next. */
  ghost predicate RunKeepsTimers(s: Server, events: seq<ServerEvent>, chunkLimit: nat)
    requires Legal(s, events, chunkLimit)
    decreases |events|
  {
    events == [] ||
    var t := ServerStep(s, events[0], chunkLimit);
    TimersKept(s, t, ServerReadingOf(events[0])) && RunKeepsTimers(t, events[1..], chunkLimit)
  }

  lemma {:induction false} TimersKeptInRun(s: Server, events: seq<ServerEvent>, chunkLimit: nat)
    requires ServerInv(s, chunkLimit) && Legal(s, events, chunkLimit)
    ensures RunKeepsTimers(s, events, chunkLimit)
    decreases |events|
  {
    hide ServerInv, ServerStep, ServerEnabled, TimersKept;
    if events != [] {
      ServerStepKeepsInv(s, events[0], chunkLimit);
      ServerStepKeepsTimers(s, events[0], chunkLimit);
      TimersKeptInRun(ServerStep(s, events[0], chunkLimit), events[1..], chunkLimit);
    }
  }

  /**
   For every order of events from start-up, every pipe and both links keep their promises, and no timer is
   ever set for later than the head of its queue is due, or than the clock reading if that has passed.
   */
  lemma EveryRunKeepsPromises(latencyMs: real, bytesPerMs: Rate, events: seq<ServerEvent>, chunkLimit: nat)
    requires Legal(Started(latencyMs, bytesPerMs), events, chunkLimit)
    ensures var s := Run(Started(latencyMs, bytesPerMs), events, chunkLimit);
      && (forall p | p in s.up.pipes + s.down.pipes :: PipePromises(p, chunkLimit))
      && s.up.link.queuedBytes == PendingSum(s.up.pipes)
      && s.down.link.queuedBytes == PendingSum(s.down.pipes)
      && 0 <= s.up.link.queuedBytes <= s.up.link.peakQueuedBytes
           <= Budget(|s.up.pipes|, chunkLimit)
      && 0 <= s.down.link.queuedBytes <= s.down.link.peakQueuedBytes
           <= Budget(|s.down.pipes|, chunkLimit)
    ensures RunKeepsTimers(Started(latencyMs, bytesPerMs), events, chunkLimit)
  {
    hide RunKeepsTimers;
    StartedInInv(latencyMs, bytesPerMs, chunkLimit);
    TimersKeptInRun(Started(latencyMs, bytesPerMs), events, chunkLimit);
    RunKeepsInv(Started(latencyMs, bytesPerMs), events, chunkLimit);
    var s := Run(Started(latencyMs, bytesPerMs), events, chunkLimit);
    PendingSumBounds(s.up.pipes, chunkLimit);
    PendingSumBounds(s.down.pipes, chunkLimit);
    forall p | p in s.up.pipes + s.down.pipes
      ensures PipePromises(p, chunkLimit)
    {
      assert Sound(p, chunkLimit);
      PromisesHold(p, chunkLimit);
    }
  }

  lemma PromisesHold(p: Pipe, chunkLimit: nat)
    requires Inv(p) && p.pending < HIGH_WATER + chunkLimit
    ensures PipePromises(p, chunkLimit)
  {
    if !p.stopped && p.queue != [] {
      WakesUnlessTargetGone(p);
    }
  }

  ghost predicate AllClosed(s: Server) {
    forall i | 0 <= i < |s.closed| :: s.closed[i] == {Client, Upstream}
  }

  /**
   In every run, every chunk a link took is due when its scheduler says: no earlier than any earlier chunk
   of whichever connection, and each queue is in that order. With a clock that is never negative, that is
   the scheduler's closed form plus the latency.
   */
  lemma EveryRunFollowsSchedule(latencyMs: real, bytesPerMs: Rate, events: seq<ServerEvent>, chunkLimit: nat)
    requires Legal(Started(latencyMs, bytesPerMs), events, chunkLimit)
    ensures var s := Run(Started(latencyMs, bytesPerMs), events, chunkLimit);
      InDueOrder(s.up) && InDueOrder(s.down)
    ensures var s := Run(Started(latencyMs, bytesPerMs), events, chunkLimit);
      MeetsClosedForm(s.up) && MeetsClosedForm(s.down)
  {
    hide Run, Legal, InDueOrder, MeetsClosedForm, Scheduling, Wired;
    StartedInInv(latencyMs, bytesPerMs, chunkLimit);
    RunKeepsInv(Started(latencyMs, bytesPerMs), events, chunkLimit);
    var s := Run(Started(latencyMs, bytesPerMs), events, chunkLimit);
    SchedulingIsInDueOrder(s.up);
    SchedulingIsInDueOrder(s.down);
    SchedulingMeetsClosedForm(s.up);
    SchedulingMeetsClosedForm(s.down);
  }

  lemma StartedInInv(latencyMs: real, bytesPerMs: Rate, chunkLimit: nat)
    ensures ServerInv(Started(latencyMs, bytesPerMs), chunkLimit)
  {
  }

  ghost predicate InDueOrder(d: Direction) {
    && (forall p, q, j, k | p in d.pipes && q in d.pipes && 0 <= j < |p.slots| && 0 <= k < |q.slots|
          && |p.slots| == |p.received| && |q.slots| == |q.received| && p.slots[j] <= q.slots[k] ::
          p.received[j].at <= q.received[k].at)
    && forall p | p in d.pipes :: |p.slots| == |p.received| && Ascending(p.received) && Ascending(p.queue)
  }

  /** The due time of one chunk, given as the largest of the times from which its link was busy, plus the latency. */
  ghost predicate DueAtClosedForm(link: Link, k: nat, at: real)
    requires k < |link.calls|
  {
    var calls := link.calls[..k + 1];
    && (forall i: nat | i <= k :: BusyFrom(calls, i, link.bytesPerMs) + link.latencyMs <= at)
    && (exists i: nat | i <= k :: BusyFrom(calls, i, link.bytesPerMs) + link.latencyMs == at)
  }

  ghost predicate MeetsClosedForm(d: Direction) {
    (forall c | c in d.link.calls :: c.now >= 0.0) ==>
      forall p, k | p in d.pipes && 0 <= k < |p.slots| ::
        k < |p.received| && p.slots[k] < |d.link.calls| && DueAtClosedForm(d.link, p.slots[k], p.received[k].at)
  }

  lemma SchedulingIsInDueOrder(d: Direction)
    requires Scheduling(d)
    ensures InDueOrder(d)
  {
    hide Scheduling, OnSchedule, Ascending;
    forall p | p in d.pipes
      ensures |p.slots| == |p.received| && Ascending(p.received) && Ascending(p.queue)
    {
      MemberOnSchedule(d, p);
      ReceivedAscending(p, d.link);
    }
    forall p, q, j, k | p in d.pipes && q in d.pipes && 0 <= j < |p.slots| && 0 <= k < |q.slots|
        && p.slots[j] <= q.slots[k]
      ensures p.received[j].at <= q.received[k].at
    {
      MemberOnSchedule(d, p);
      MemberOnSchedule(d, q);
      ChunksDueInOrder(p, j, q, k, d.link);
    }
  }

  lemma MemberOnSchedule(d: Direction, p: Pipe)
    requires Scheduling(d) && p in d.pipes
    ensures OnSchedule(p, d.link) && Ascending(p.queue) && |p.slots| == |p.received|
  {
    var i :| 0 <= i < |d.pipes| && d.pipes[i] == p;
  }

  lemma DeliveryMeetsClosedForm(link: Link, k: nat)
    requires k < |link.calls| && forall c | c in link.calls :: c.now >= 0.0
    ensures DueAtClosedForm(link, k, DeliveryOf(link, k))
  {
    var calls := link.calls[..k + 1];
    DepartureClosedForm(calls, link.bytesPerMs);
    var i: nat :| i < |calls| && BusyFrom(calls, i, link.bytesPerMs) == Departure(calls, link.bytesPerMs);
    assert i <= k && BusyFrom(calls, i, link.bytesPerMs) + link.latencyMs == DeliveryOf(link, k);
  }

  lemma SchedulingMeetsClosedForm(d: Direction)
    requires Scheduling(d)
    ensures MeetsClosedForm(d)
  {
    hide DueAtClosedForm, LinkInv, Ascending;
    if forall c | c in d.link.calls :: c.now >= 0.0 {
      forall p, k | p in d.pipes && 0 <= k < |p.slots|
        ensures k < |p.received| && p.slots[k] < |d.link.calls| && DueAtClosedForm(d.link, p.slots[k], p.received[k].at)
      {
        MemberOnSchedule(d, p);
        DeliveryMeetsClosedForm(d.link, p.slots[k]);
      }
    }
  }

  /** When every connection has closed both sockets, nothing is left on either link's account. */
  lemma NothingQueuedWhenAllClosed(latencyMs: real, bytesPerMs: Rate, events: seq<ServerEvent>, chunkLimit: nat)
    requires Legal(Started(latencyMs, bytesPerMs), events, chunkLimit)
    requires AllClosed(Run(Started(latencyMs, bytesPerMs), events, chunkLimit))
    ensures var s := Run(Started(latencyMs, bytesPerMs), events, chunkLimit);
      s.up.link.queuedBytes == 0 && s.down.link.queuedBytes == 0
  {
    hide AllClosed, Run, Legal, ServerInv;
    RunKeepsInv(Started(latencyMs, bytesPerMs), events, chunkLimit);
    ClosedHoldsNothing(Run(Started(latencyMs, bytesPerMs), events, chunkLimit), chunkLimit);
  }

  lemma ClosedHoldsNothing(s: Server, chunkLimit: nat)
    requires ServerInv(s, chunkLimit) && AllClosed(s)
    ensures s.up.link.queuedBytes == 0 && s.down.link.queuedBytes == 0
  {
    forall i | 0 <= i < |s.closed|
      ensures s.up.pipes[i].pending == 0 && s.down.pipes[i].pending == 0
    {
      assert s.closed[i] == {Client, Upstream};
      StoppedHoldsNothing(s.up.pipes[i], chunkLimit);
      StoppedHoldsNothing(s.down.pipes[i], chunkLimit);
    }
    ZeroSum(s.up.pipes);
    ZeroSum(s.down.pipes);
  }

  lemma StoppedHoldsNothing(p: Pipe, chunkLimit: nat)
    requires Sound(p, chunkLimit) && p.stopped
    ensures p.pending == 0
  {
  }

  lemma {:induction false} ZeroSum(pipes: seq<Pipe>)
    requires forall i | 0 <= i < |pipes| :: pipes[i].pending == 0
    ensures PendingSum(pipes) == 0
  {
    if pipes != [] {
      ZeroSum(pipes[1..]);
    }
  }
}
