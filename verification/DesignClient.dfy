/** Request and reply correlation in the client of the design-service host process. */
module DesignClients {
  import opened Prelude

  datatype Settlement = Unsettled | Resolved(result: string) | Rejected(error: string)

  /** How far `close()` is: not called, racing its request against the exit, awaiting the exit, done. */
  datatype Closing = NotCalled | Racing(request: nat) | AwaitingExit | Completed

  /**
   The client's variables; `promises` lists the promise of every `send` in order, and `pending` maps
   request ids to them. The last fields are what the child process has done.
   */
  datatype State = State(
    pending: map<nat, nat>,
    promises: seq<Settlement>,
    nextId: nat,
    exitError: Option<string>,
    closing: Closing,
    closeRequests: nat,
    spawnFailed: bool,
    exited: bool,
    closed: bool
  )

  const STARTED := State(map[], [], 1, None, NotCalled, 0, false, false, false)
  const IS_CLOSING := "Design service host is closing"
  const MALFORMED := "Malformed design service host reply"

  /** `thrown` is the error of a write that throws at once. */
  datatype Event =
    | Send(thrown: Option<string>)
    | Close(thrown: Option<string>)
    | Reply(id: nat, ok: bool, text: string)
    | MalformedReply
    | StreamFailed(error: string)
    | ChildErrored(error: string)
    | ChildExited(error: string)
    | ChildClosed
    | RaceWon
    | ExitSeen

  /** The child emits `exit` and `close` once, and `close` only after it exited or failed to start. */
  predicate Enabled(s: State, e: Event) {
    match e
    case ChildErrored(_) => !s.spawnFailed
    case ChildExited(_) => !s.exited
    case ChildClosed => !s.closed && (s.exited || s.spawnFailed)
    case RaceWon =>
      s.closing.Racing? && s.closing.request < |s.promises|
      && (!s.promises[s.closing.request].Unsettled? || s.closed)
    case ExitSeen => s.closing.AwaitingExit? && s.closed
    case _ => true
  }

  function RejectIn(promises: seq<Settlement>, targets: set<nat>, error: string): (r: seq<Settlement>)
    ensures |r| == |promises|
  {
    seq(|promises|, i requires 0 <= i < |promises| => if i in targets then Rejected(error) else promises[i])
  }

  /** `fail`: every pending request is rejected with the first error there ever was. */
  function Failed(s: State, error: string): State {
    var first := if s.exitError.Some? then s.exitError.value else error;
    s.(exitError := Some(first), promises := RejectIn(s.promises, s.pending.Values, first), pending := map[])
  }

  function Sent(s: State, isClose: bool, thrown: Option<string>): State {
    if s.exitError.Some? then s.(promises := s.promises + [Rejected(s.exitError.value)])
    else if !s.closing.NotCalled? && !isClose then s.(promises := s.promises + [Rejected(IS_CLOSING)])
    else
      var t := s.(nextId := s.nextId + 1, closeRequests := s.closeRequests + if isClose then 1 else 0);
      if thrown.Some? then t.(promises := s.promises + [Rejected(thrown.value)])
      else t.(promises := s.promises + [Unsettled], pending := s.pending[s.nextId := |s.promises|])
  }

  function Replied(s: State, id: nat, ok: bool, text: string): State {
    if id !in s.pending || s.pending[id] >= |s.promises| then s
    else s.(pending := s.pending - {id},
            promises := s.promises[s.pending[id] := if ok then Resolved(text) else Rejected(text)])
  }

  /** The part of the first `close()` that runs before its first await. */
  function CloseCalled(s: State, thrown: Option<string>): State {
    if !s.closing.NotCalled? then s
    else if s.exitError.Some? then s.(closing := AwaitingExit)
    else Sent(s, true, thrown).(closing := Racing(|s.promises|))
  }

  function Step(s: State, e: Event): State
    requires Enabled(s, e)
  {
    match e
    case Send(thrown) => Sent(s, false, thrown)
    case Close(thrown) => CloseCalled(s, thrown)
    case Reply(id, ok, text) => Replied(s, id, ok, text)
    case MalformedReply => Failed(s, MALFORMED)
    case StreamFailed(error) => Failed(s, error)
    case ChildErrored(error) => Failed(s, error).(spawnFailed := true)
    case ChildExited(error) => Failed(s, error).(exited := true)
    case ChildClosed => s.(closed := true)
    case RaceWon => s.(closing := AwaitingExit)
    case ExitSeen => s.(closing := Completed)
  }

  // ----- invariant

  /** `pending` names exactly the unsettled requests, each once, under ids already issued. */
  ghost predicate Names(pending: map<nat, nat>, promises: seq<Settlement>, nextId: nat) {
    && (forall id | id in pending :: id < nextId && pending[id] < |promises| && promises[pending[id]].Unsettled?)
    && (forall a, b | a in pending && b in pending && a != b :: pending[a] != pending[b])
    && (forall p | 0 <= p < |promises| && promises[p].Unsettled? :: exists id :: id in pending && pending[id] == p)
  }

  ghost predicate Correlated(s: State) { Names(s.pending, s.promises, s.nextId) }

  ghost predicate Lifecycle(s: State) {
    && (s.exitError.Some? ==> s.pending == map[])
    && (s.exited || s.spawnFailed ==> s.exitError.Some?)
    && (s.closed ==> s.exited || s.spawnFailed)
    && (s.closing.NotCalled? ==> s.closeRequests == 0)
    && s.closeRequests <= 1
    && (s.closing.Racing? ==> s.closing.request < |s.promises|)
    && (s.closing.Completed? ==> s.closed)
  }

  ghost predicate Inv(s: State) { Correlated(s) && Lifecycle(s) }

  lemma FailedKeepsCorrelation(s: State, error: string)
    requires Correlated(s)
    ensures Correlated(Failed(s, error))
    ensures forall p | 0 <= p < |s.promises| :: !Failed(s, error).promises[p].Unsettled?
  {
  }

  lemma NamesSettled(pending: map<nat, nat>, promises: seq<Settlement>, nextId: nat, later: nat, settled: Settlement)
    requires Names(pending, promises, nextId) && nextId <= later && !settled.Unsettled?
    ensures Names(pending, promises + [settled], later)
  {
  }

  lemma NamesNext(pending: map<nat, nat>, promises: seq<Settlement>, nextId: nat)
    requires Names(pending, promises, nextId)
    ensures Names(pending[nextId := |promises|], promises + [Unsettled], nextId + 1)
  {
    var after := pending[nextId := |promises|];
    assert after[nextId] == |promises|;
    forall p | 0 <= p < |promises| && promises[p].Unsettled?
      ensures exists id :: id in after && after[id] == p
    {
      var id :| id in pending && pending[id] == p;
      assert after[id] == p;
    }
  }

  lemma NamesWithout(pending: map<nat, nat>, promises: seq<Settlement>, nextId: nat, id: nat, settled: Settlement)
    requires Names(pending, promises, nextId) && id in pending && !settled.Unsettled?
    ensures Names(pending - {id}, promises[pending[id] := settled], nextId)
  {
    var after := pending - {id};
    forall p | 0 <= p < |promises| && p != pending[id] && promises[p].Unsettled?
      ensures exists other :: other in after && after[other] == p
    {
      var other :| other in pending && pending[other] == p;
      assert other in after && after[other] == p;
    }
  }

  lemma SentKeepsCorrelation(s: State, isClose: bool, thrown: Option<string>)
    requires Correlated(s)
    ensures Correlated(Sent(s, isClose, thrown))
  {
    hide Names;
    var t := Sent(s, isClose, thrown);
    var settled := t.promises[|s.promises|];
    if settled.Unsettled? {
      NamesNext(s.pending, s.promises, s.nextId);
    } else {
      NamesSettled(s.pending, s.promises, s.nextId, t.nextId, settled);
    }
  }

  lemma RepliedKeepsCorrelation(s: State, id: nat, ok: bool, text: string)
    requires Correlated(s)
    ensures Correlated(Replied(s, id, ok, text))
  {
    if id in s.pending {
      NamesWithout(s.pending, s.promises, s.nextId, id, if ok then Resolved(text) else Rejected(text));
    }
  }

  lemma StepKeepsInv(s: State, e: Event)
    requires Inv(s) && Enabled(s, e)
    ensures Inv(Step(s, e))
  {
    match e
    case Send(thrown) => SentKeepsCorrelation(s, false, thrown);
    case Close(thrown) => SentKeepsCorrelation(s, true, thrown);
    case Reply(id, ok, text) => RepliedKeepsCorrelation(s, id, ok, text);
    case MalformedReply => FailedKeepsCorrelation(s, MALFORMED);
    case StreamFailed(error) => FailedKeepsCorrelation(s, error);
    case ChildErrored(error) => FailedKeepsCorrelation(s, error);
    case ChildExited(error) => FailedKeepsCorrelation(s, error);
    case _ =>
  }

  // ----- what one step may change

  /** A settled promise never changes, and a reply settles no request but its own. */
  lemma PromisesSettleOnce(s: State, e: Event)
    requires Inv(s) && Enabled(s, e)
    ensures |Step(s, e).promises| >= |s.promises|
    ensures forall p | 0 <= p < |s.promises| && !s.promises[p].Unsettled? ::
      Step(s, e).promises[p] == s.promises[p]
    ensures e.Reply? ==> forall p | 0 <= p < |s.promises| && (e.id !in s.pending || p != s.pending[e.id]) ::
      Step(s, e).promises[p] == s.promises[p]
    ensures e.Reply? && e.id in s.pending ==>
      Step(s, e).promises[s.pending[e.id]] == if e.ok then Resolved(e.text) else Rejected(e.text)
  {
  }

  /** The first error stays, and with it `pending` stays empty and every later send is rejected by it. */
  lemma FirstErrorStays(s: State, e: Event)
    requires Inv(s) && Enabled(s, e) && s.exitError.Some?
    ensures Step(s, e).exitError == s.exitError && Step(s, e).pending == map[]
    ensures e.Send? ==> Step(s, e).promises == s.promises + [Rejected(s.exitError.value)]
  {
  }

  // ----- whole runs

  predicate Legal(s: State, events: seq<Event>)
    decreases |events|
  {
    events == [] || (Enabled(s, events[0]) && Legal(Step(s, events[0]), events[1..]))
  }

  function Run(s: State, events: seq<Event>): State
    requires Legal(s, events)
    decreases |events|
  {
    if events == [] then s else Run(Step(s, events[0]), events[1..])
  }

  lemma {:induction false} RunKeepsInv(s: State, events: seq<Event>)
    requires Inv(s) && Legal(s, events)
    ensures Inv(Run(s, events))
    decreases |events|
  {
    hide Step, Inv;
    if events != [] {
      StepKeepsInv(s, events[0]);
      RunKeepsInv(Step(s, events[0]), events[1..]);
    }
  }

  /** Once failed, a client never waits again: whatever follows, all its promises are settled, by that error. */
  lemma {:induction false} FailedForGood(s: State, events: seq<Event>)
    requires Inv(s) && s.exitError.Some? && Legal(s, events)
    ensures var t := Run(s, events);
      && t.exitError == s.exitError && t.pending == map[]
      && |t.promises| >= |s.promises|
      && (forall p | 0 <= p < |t.promises| :: !t.promises[p].Unsettled?)
      && (forall p | |s.promises| <= p < |t.promises| :: t.promises[p] == Rejected(s.exitError.value))
    decreases |events|
  {
    if events != [] {
      StepKeepsInv(s, events[0]);
      FirstErrorStays(s, events[0]);
      PromisesSettleOnce(s, events[0]);
      var next := Step(s, events[0]);
      FailedAddsRejections(s, events[0]);
      FailedForGood(next, events[1..]);
      var t := Run(next, events[1..]);
      forall p | |s.promises| <= p < |t.promises|
        ensures t.promises[p] == Rejected(s.exitError.value)
      {
        if p < |next.promises| {
          SettledStays(next, events[1..], p);
        }
      }
    }
  }

  lemma FailedAddsRejections(s: State, e: Event)
    requires Inv(s) && Enabled(s, e) && s.exitError.Some?
    ensures forall p | |s.promises| <= p < |Step(s, e).promises| ::
      Step(s, e).promises[p] == Rejected(s.exitError.value)
  {
  }

  lemma {:induction false} SettledStays(s: State, events: seq<Event>, p: nat)
    requires Inv(s) && Legal(s, events) && p < |s.promises| && !s.promises[p].Unsettled?
    ensures p < |Run(s, events).promises| && Run(s, events).promises[p] == s.promises[p]
    decreases |events|
  {
    hide Step, Inv;
    if events != [] {
      StepKeepsInv(s, events[0]);
      PromisesSettleOnce(s, events[0]);
      SettledStays(Step(s, events[0]), events[1..], p);
    }
  }

  /**
   In every run from the start: pending requests are exactly the unsettled ones, at most one close
   request is issued, and when `close()` completes no request of any kind is left waiting.
   */
  lemma EveryRunIsAccounted(events: seq<Event>)
    requires Legal(STARTED, events)
    ensures var s := Run(STARTED, events);
      && Correlated(s)
      && s.closeRequests <= 1
      && (s.closing.Completed? ==>
            s.pending == map[] && forall p | 0 <= p < |s.promises| :: !s.promises[p].Unsettled?)
  {
    RunKeepsInv(STARTED, events);
  }

  // ----- what a run's events tell of its end

  /** The error by which an event breaks the connection. */
  function Breaks(e: Event): Option<string> {
    match e
    case MalformedReply => Some("Malformed design service host reply")
    case StreamFailed(error) => Some(error)
    case ChildErrored(error) => Some(error)
    case ChildExited(error) => Some(error)
    case _ => None
  }

  function FirstBreak(events: seq<Event>): Option<string> {
    if events == [] then None
    else
      var earlier := FirstBreak(events[..|events| - 1]);
      if earlier.Some? then earlier else Breaks(events[|events| - 1])
  }

  predicate Had(events: seq<Event>, what: Event -> bool) { exists i | 0 <= i < |events| :: what(events[i]) }

  /** The first `close()` came while the connection was still good, so that it asks the service to close. */
  predicate Asked(events: seq<Event>) {
    events != [] &&
    var n := |events| - 1;
    || Asked(events[..n])
    || (events[n].Close? && !Had(events[..n], (e: Event) => e.Close?) && FirstBreak(events[..n]).None?)
  }

  /** A request is made by every `send`, and by the first `close()` that asks. */
  function Requests(events: seq<Event>): nat {
    if events == [] then 0
    else
      var n := |events| - 1;
      Requests(events[..n]) + if events[n].Send? || (Asked(events) && !Asked(events[..n])) then 1 else 0
  }

  ghost predicate Told(events: seq<Event>, s: State) {
    && s.exitError == FirstBreak(events)
    && (s.spawnFailed <==> Had(events, (e: Event) => e.ChildErrored?))
    && (s.exited <==> Had(events, (e: Event) => e.ChildExited?))
    && (s.closed <==> Had(events, (e: Event) => e.ChildClosed?))
    && (s.closing.NotCalled? <==> !Had(events, (e: Event) => e.Close?))
    && (s.closing.Racing? <==> Asked(events) && !Had(events, (e: Event) => e.RaceWon?))
    && (s.closing.Completed? <==> Had(events, (e: Event) => e.ExitSeen?))
    && (Had(events, (e: Event) => e.RaceWon? || e.ExitSeen?) ==> Had(events, (e: Event) => e.Close?))
    && (Asked(events) ==> Had(events, (e: Event) => e.Close?))
    && (Had(events, (e: Event) => e.RaceWon?) ==> Asked(events))
    && (Had(events, (e: Event) => e.ExitSeen?) && Asked(events) ==> Had(events, (e: Event) => e.RaceWon?))
    && s.closeRequests == (if Asked(events) then 1 else 0)
    && |s.promises| == Requests(events)
  }

  lemma HadNext(events: seq<Event>, e: Event, what: Event -> bool)
    ensures Had(events + [e], what) <==> Had(events, what) || what(e)
  {
    var all := events + [e];
    assert all[|events|] == e && forall i | 0 <= i < |events| :: all[i] == events[i];
  }

  lemma ToldNext(events: seq<Event>, s: State, e: Event)
    requires Told(events, s) && Enabled(s, e)
    ensures Told(events + [e], Step(s, e))
  {
    hide Had, RejectIn;
    assert (events + [e])[..|events + [e]| - 1] == events;
    HadNext(events, e, (e: Event) => e.ChildErrored?);
    HadNext(events, e, (e: Event) => e.ChildExited?);
    HadNext(events, e, (e: Event) => e.ChildClosed?);
    HadNext(events, e, (e: Event) => e.Close?);
    HadNext(events, e, (e: Event) => e.RaceWon?);
    HadNext(events, e, (e: Event) => e.ExitSeen?);
    HadNext(events, e, (e: Event) => e.RaceWon? || e.ExitSeen?);
  }

  lemma {:induction false} RunNext(s: State, events: seq<Event>)
    requires events != [] && Legal(s, events)
    ensures var n := |events| - 1;
      && Legal(s, events[..n]) && Enabled(Run(s, events[..n]), events[n])
      && Run(s, events) == Step(Run(s, events[..n]), events[n])
    decreases |events|
  {
    hide Step, Enabled;
    var n := |events| - 1;
    if n > 0 {
      RunNext(Step(s, events[0]), events[1..]);
      assert events[1..][..n - 1] == events[..n][1..];
    }
  }

  /**
   In every run the client's state is what the events say: broken by the first error there was; closing
   since the first `close()`, which asked the service exactly if nothing was broken before; done when the
   exit was seen; and one promise for every request.
   */
  lemma {:induction false} RunTells(events: seq<Event>)
    requires Legal(STARTED, events)
    ensures Told(events, Run(STARTED, events))
    decreases |events|
  {
    hide Step, Enabled, Told;
    if events == [] {
      NothingTold();
    } else {
      var n := |events| - 1;
      RunNext(STARTED, events);
      RunTells(events[..n]);
      ToldNext(events[..n], Run(STARTED, events[..n]), events[n]);
      assert events[..n] + [events[n]] == events;
    }
  }

  lemma NothingTold()
    ensures Told([], STARTED)
  {
  }

  /** What becomes of a `send` at once: refused after an error or `close()`, failed by its own write, or waiting. */
  lemma SendIsAnswered(s: State, thrown: Option<string>)
    ensures var t := Step(s, Send(thrown));
      && |t.promises| == |s.promises| + 1 && s.promises <= t.promises
      && t.promises[|s.promises|] ==
           (if s.exitError.Some? then Rejected(s.exitError.value)
            else if !s.closing.NotCalled? then Rejected("Design service host is closing")
            else if thrown.Some? then Rejected(thrown.value)
            else Unsettled)
  {
  }

  /** The request of a `close()` that asks waits, unless its write throws; it is what the close races for. */
  lemma CloseRequestIsAnswered(s: State, thrown: Option<string>)
    requires s.closing.NotCalled? && s.exitError.None?
    ensures var t := Step(s, Close(thrown));
      && |t.promises| == |s.promises| + 1 && s.promises <= t.promises && t.closing == Racing(|s.promises|)
      && t.promises[|s.promises|] == if thrown.Some? then Rejected(thrown.value) else Unsettled
  {
  }

  /** A break rejects every waiting request with the first error there was. */
  lemma BreakRejectsWaiting(s: State, e: Event)
    requires Inv(s) && Enabled(s, e) && Breaks(e).Some?
    ensures forall p | 0 <= p < |s.promises| && s.promises[p].Unsettled? ::
      Step(s, e).promises[p] == Rejected(if s.exitError.Some? then s.exitError.value else Breaks(e).value)
  {
    forall p | 0 <= p < |s.promises| && s.promises[p].Unsettled?
      ensures p in s.pending.Values
    {
      var id :| id in s.pending && s.pending[id] == p;
    }
  }

  // ----- the client itself

  class DesignServiceClient {
    var pending: map<nat, nat>
    var promises: seq<Settlement>
    var nextId: nat
    var exitError: Option<string>
    var closing: Closing
    var closeRequests: nat
    var spawnFailed: bool
    var exited: bool
    var closed: bool

    function Snapshot(): State
      reads this
    {
      State(pending, promises, nextId, exitError, closing, closeRequests, spawnFailed, exited, closed)
    }

    constructor ()
      ensures Snapshot() == STARTED
    {
      pending, promises, nextId, exitError := map[], [], 1, None;
      closing, closeRequests, spawnFailed, exited, closed := NotCalled, 0, false, false, false;
    }

    method Fail(error: string)
      requires Correlated(Snapshot())
      modifies this`exitError, this`promises, this`pending
      ensures Snapshot() == Failed(old(Snapshot()), error)
    {
      if exitError.None? {
        exitError := Some(error);
      }
      var ids := pending.Keys;
      ghost var rejected: set<nat> := {};
      while ids != {}
        invariant ids <= pending.Keys && pending == old(pending) && |promises| == |old(promises)|
        invariant rejected == set id | id in pending && id !in ids :: pending[id]
        invariant exitError == Failed(old(Snapshot()), error).exitError
        invariant promises == RejectIn(old(promises), rejected, exitError.value)
        decreases ids
      {
        var id :| id in ids;
        promises := promises[pending[id] := Rejected(exitError.value)];
        ids := ids - {id};
        rejected := rejected + {pending[id]};
      }
      assert rejected == pending.Values;
      pending := map[];
    }

    method SendRequest(isClose: bool, thrown: Option<string>) returns (promise: nat)
      requires Correlated(Snapshot())
      modifies this
      ensures Snapshot() == Sent(old(Snapshot()), isClose, thrown) && promise == |old(promises)|
    {
      promise := |promises|;
      if exitError.Some? {
        promises := promises + [Rejected(exitError.value)];
        return;
      }
      if !closing.NotCalled? && !isClose {
        promises := promises + [Rejected(IS_CLOSING)];
        return;
      }
      var id := nextId;
      nextId := nextId + 1;
      promises := promises + [Unsettled];
      pending := pending[id := promise];
      closeRequests := closeRequests + if isClose then 1 else 0;
      if thrown.Some? {
        pending := pending - {id};
        promises := promises[promise := Rejected(thrown.value)];
      }
    }

    method ReceiveReply(id: nat, ok: bool, text: string)
      requires Correlated(Snapshot())
      modifies this`pending, this`promises
      ensures Snapshot() == Replied(old(Snapshot()), id, ok, text)
    {
      if id !in pending {
        return;
      }
      var promise := pending[id];
      pending := pending - {id};
      promises := promises[promise := if ok then Resolved(text) else Rejected(text)];
    }

    method BeginClose(thrown: Option<string>)
      requires Correlated(Snapshot())
      modifies this
      ensures Snapshot() == CloseCalled(old(Snapshot()), thrown)
    {
      if closing.NotCalled? {
        if exitError.None? {
          var request := SendRequest(true, thrown);
          closing := Racing(request);
        } else {
          closing := AwaitingExit;
        }
      }
    }
  }
}
