/**
 Held requests of the fake model server: parked until their id is released, their client aborts, or the
 server stops.
 */
module FakeModelParking {
  /** The signal of a call: not aborted, aborted before `waitFor` was called, or aborted since. */
  datatype Signal = Quiet | AbortedBefore | AbortedSince

  /** One call of `waitFor`: whether its abort listener is attached, and how often its promise was resolved. */
  datatype Waiter = Waiter(id: string, signal: Signal, listening: bool, wakes: nat)

  /** `waiters` lists every call so far; `parked` holds the waiting ones by id. */
  datatype State = State(
    released: set<string>,
    parked: map<string, set<nat>>,
    stopped: bool,
    waiters: seq<Waiter>
  )

  const STARTED := State({}, map[], false, [])

  /** `aborted` says that the signal already was; the client may go away while its request is still being read. */
  datatype Event = WaitFor(id: string, aborted: bool) | Release(id: string) | Abort(waiter: nat) | Stop

  /** A signal aborts once. */
  predicate Enabled(s: State, e: Event) {
    e.Abort? ==> e.waiter < |s.waiters| && s.waiters[e.waiter].signal.Quiet?
  }

  function Woken(w: Waiter): Waiter { w.(listening := false, wakes := w.wakes + 1) }

  function Parked(s: State, id: string): set<nat> { if id in s.parked then s.parked[id] else {} }

  function WakeAll(waiters: seq<Waiter>, woken: set<nat>): (r: seq<Waiter>)
    ensures |r| == |waiters|
  {
    seq(|waiters|, i requires 0 <= i < |waiters| => if i in woken then Woken(waiters[i]) else waiters[i])
  }

  function SignalOf(aborted: bool): Signal { if aborted then AbortedBefore else Quiet }

  function Waited(s: State, id: string, aborted: bool): State {
    if s.stopped || id in s.released then s.(waiters := s.waiters + [Waiter(id, SignalOf(aborted), false, 1)])
    else
      s.(waiters := s.waiters + [Waiter(id, SignalOf(aborted), true, 0)],
         parked := s.parked[id := Parked(s, id) + {|s.waiters|}])
  }

  function Released(s: State, id: string): State {
    s.(released := s.released + {id}, waiters := WakeAll(s.waiters, Parked(s, id)), parked := s.parked - {id})
  }

  /** The listener is attached once and detached when the call wakes, so an abort after that does nothing. */
  function Aborted(s: State, w: nat): State
    requires w < |s.waiters|
  {
    var me := s.waiters[w].(signal := AbortedSince);
    if !me.listening then s.(waiters := s.waiters[w := me])
    else
      s.(waiters := s.waiters[w := Woken(me)],
         parked := if me.id in s.parked then s.parked[me.id := s.parked[me.id] - {w}] else s.parked)
  }

  ghost function AllParked(s: State): set<nat> { set id, w | id in s.parked && w in s.parked[id] :: w }

  /** Releasing every parked id at once. */
  ghost function Stopped(s: State): State {
    s.(stopped := true, released := s.released + s.parked.Keys,
       waiters := WakeAll(s.waiters, AllParked(s)), parked := map[])
  }

  ghost function Step(s: State, e: Event): State
    requires Enabled(s, e)
  {
    match e
    case WaitFor(id, aborted) => Waited(s, id, aborted)
    case Release(id) => Released(s, id)
    case Abort(w) => Aborted(s, w)
    case Stop => Stopped(s)
  }

  // ----- invariant

  /** There is a reason for the call not to wait. */
  predicate Freed(s: State, w: Waiter) { w.signal.AbortedSince? || w.id in s.released || s.stopped }

  /**
   A call is parked, under its own id and nowhere else, exactly while it listens and was never woken, and
   that is while nothing has freed it.
   */
  ghost predicate Inv(s: State) {
    && s.parked.Keys !! s.released
    && (s.stopped ==> s.parked == map[])
    && (forall w | 0 <= w < |s.waiters| ::
          && s.waiters[w].wakes == (if s.waiters[w].listening then 0 else 1)
          && (s.waiters[w].listening <==> w in Parked(s, s.waiters[w].id))
          && (s.waiters[w].wakes == 1 <==> Freed(s, s.waiters[w])))
    && (forall id, w: nat {:trigger w in Parked(s, id)} :: w in Parked(s, id) ==>
          w < |s.waiters| && s.waiters[w].id == id)
  }

  lemma WaitedKeepsInv(s: State, id: string, aborted: bool)
    requires Inv(s)
    ensures Inv(Waited(s, id, aborted))
  {
    var t := Waited(s, id, aborted);
    forall i, w: nat {:trigger w in Parked(t, i)} | w in Parked(t, i)
      ensures w < |t.waiters| && t.waiters[w].id == i
    {
      if i != id || s.stopped || id in s.released {
        assert w in Parked(s, i);
      } else {
        assert w == |s.waiters| || w in Parked(s, id);
      }
    }
  }

  lemma ReleasedKeepsInv(s: State, id: string)
    requires Inv(s)
    ensures Inv(Released(s, id))
  {
    var t := Released(s, id);
    forall i, w: nat {:trigger w in Parked(t, i)} | w in Parked(t, i)
      ensures w < |t.waiters| && t.waiters[w].id == i
    {
      assert w in Parked(s, i);
    }
  }

  lemma AbortedKeepsInv(s: State, w: nat)
    requires Inv(s) && w < |s.waiters|
    ensures Inv(Aborted(s, w))
  {
    var t := Aborted(s, w);
    assert s.waiters[w].listening <==> w in Parked(s, s.waiters[w].id);
    forall v | 0 <= v < |t.waiters|
      ensures v in Parked(t, t.waiters[v].id) <==> v != w && v in Parked(s, s.waiters[v].id)
    {
    }
    forall i, v: nat {:trigger v in Parked(t, i)} | v in Parked(t, i)
      ensures v < |t.waiters| && t.waiters[v].id == i
    {
      assert v in Parked(s, i);
    }
  }

  lemma StoppedKeepsInv(s: State)
    requires Inv(s)
    ensures Inv(Stopped(s))
  {
    forall w | 0 <= w < |s.waiters|
      ensures w in AllParked(s) <==> s.waiters[w].listening
    {
      if w in AllParked(s) {
        var id :| id in s.parked && w in s.parked[id];
        assert w in Parked(s, id);
      }
    }
  }

  lemma StepKeepsInv(s: State, e: Event)
    requires Inv(s) && Enabled(s, e)
    ensures Inv(Step(s, e))
  {
    hide Inv;
    match e
    case WaitFor(id, aborted) => WaitedKeepsInv(s, id, aborted);
    case Release(id) => ReleasedKeepsInv(s, id);
    case Abort(w) => AbortKeeps(s, w);
    case Stop => StoppedKeepsInv(s);
  }

  lemma AbortKeeps(s: State, w: nat)
    requires Inv(s) && Enabled(s, Abort(w))
    ensures Inv(Aborted(s, w))
  {
    AbortedKeepsInv(s, w);
  }

  // ----- runs

  ghost predicate Legal(s: State, events: seq<Event>)
    decreases |events|
  {
    events == [] || (Enabled(s, events[0]) && Legal(Step(s, events[0]), events[1..]))
  }

  ghost function Run(s: State, events: seq<Event>): State
    requires Legal(s, events)
    decreases |events|
  {
    if events == [] then s else Run(Step(s, events[0]), events[1..])
  }

  lemma {:induction false} RunKeepsInv(s: State, events: seq<Event>)
    requires Inv(s) && Legal(s, events)
    ensures Inv(Run(s, events))
    decreases |events|
  {
    hide Inv, Step;
    if events != [] {
      StepKeepsInv(s, events[0]);
      RunKeepsInv(Step(s, events[0]), events[1..]);
    }
  }

  /** No order of events wakes a call twice, or leaves it both woken and parked. */
  lemma EveryCallWakesAtMostOnce(events: seq<Event>)
    requires Legal(STARTED, events)
    ensures var s := Run(STARTED, events);
      && s.parked.Keys !! s.released
      && forall w | 0 <= w < |s.waiters| ::
           s.waiters[w].wakes <= 1 && (s.waiters[w].wakes == 0 <==> w in Parked(s, s.waiters[w].id))
  {
    RunKeepsInv(STARTED, events);
  }

  /** The calls of a run, in order. */
  ghost function Calls(events: seq<Event>): (calls: seq<Event>)
    ensures forall i | 0 <= i < |calls| :: calls[i].WaitFor?
  {
    if events == [] then []
    else
      var n := |events| - 1;
      Calls(events[..n]) + if events[n].WaitFor? then [events[n]] else []
  }

  /** What the events of a run tell of its end. */
  ghost predicate Told(events: seq<Event>, s: State) {
    var calls := Calls(events);
    && |s.waiters| == |calls|
    && (s.stopped <==> Stop in events)
    && (forall id :: Release(id) in events ==> id in s.released)
    && (forall id :: id in s.released ==> Release(id) in events || Stop in events)
    && (forall w | 0 <= w < |calls| ::
          && s.waiters[w].id == calls[w].id
          && (s.waiters[w].signal.AbortedSince? <==> Abort(w) in events)
          && (s.waiters[w].signal.AbortedBefore? <==> calls[w].aborted))
    && (forall w: nat :: Abort(w) in events ==> w < |calls|)
  }

  lemma ToldNext(events: seq<Event>, s: State, e: Event)
    requires Told(events, s) && Enabled(s, e)
    ensures Told(events + [e], Step(s, e))
  {
    var all := events + [e];
    assert all[..|all| - 1] == events;
    assert forall x :: x in all <==> x in events || x == e;
    assert Calls(all) == Calls(events) + if e.WaitFor? then [e] else [];
  }

  lemma {:induction false} RunNext(s: State, events: seq<Event>)
    requires events != [] && Legal(s, events)
    ensures var n := |events| - 1;
      && Legal(s, events[..n]) && Enabled(Run(s, events[..n]), events[n])
      && Run(s, events) == Step(Run(s, events[..n]), events[n])
    decreases |events|
  {
    hide Step, Enabled;
    var n := |events| - 1;
    if n > 0 {
      RunNext(Step(s, events[0]), events[1..]);
      assert events[1..][..n - 1] == events[..n][1..];
    }
  }

  lemma {:induction false} RunTells(events: seq<Event>)
    requires Legal(STARTED, events)
    ensures Told(events, Run(STARTED, events))
    decreases |events|
  {
    if events != [] {
      hide Step, Enabled, Told;
      var n := |events| - 1;
      RunNext(STARTED, events);
      RunTells(events[..n]);
      ToldNext(events[..n], Run(STARTED, events[..n]), events[n]);
      assert events[..n] + [events[n]] == events;
    }
  }

  /**
   In every run, each call waits for its own id, and is awake exactly if its client went away after it, its
   id was released, or the server stopped, whether before or after it. So a client that went away before it
   leaves a call that waits for one of the others.
   */
  lemma AwakeIff(events: seq<Event>)
    requires Legal(STARTED, events)
    ensures var s, calls := Run(STARTED, events), Calls(events);
      && |s.waiters| == |calls|
      && forall w | 0 <= w < |calls| ::
           && s.waiters[w].id == calls[w].id
           && (s.waiters[w].wakes == 1 <==>
                 Abort(w) in events || Release(calls[w].id) in events || Stop in events)
           && (s.waiters[w].wakes == 0 <==> w in Parked(s, calls[w].id))
           && (calls[w].aborted ==> Abort(w) !in events)
  {
    RunTells(events);
    RunKeepsInv(STARTED, events);
  }

  /** Such a call waits through every run until its id is released or the server stops. */
  lemma {:induction false} AbortedBeforeWaits(s: State, events: seq<Event>, w: nat)
    requires Inv(s) && Legal(s, events) && w < |s.waiters| && s.waiters[w].signal.AbortedBefore?
    ensures var t := Run(s, events);
      && w < |t.waiters| && t.waiters[w].signal.AbortedBefore? && t.waiters[w].id == s.waiters[w].id
      && (w in Parked(t, t.waiters[w].id) <==> t.waiters[w].id !in t.released && !t.stopped)
    decreases |events|
  {
    if events != [] {
      StepKeepsInv(s, events[0]);
      AbortedBeforeWaits(Step(s, events[0]), events[1..], w);
    }
  }

  /** Releasing an id, or stopping, is for good: from then on its calls are all awake, and stay so. */
  lemma {:induction false} ReleasedForGood(s: State, id: string, events: seq<Event>)
    requires Inv(s) && (id in s.released || s.stopped) && Legal(s, events)
    ensures var t := Run(s, events);
      && (id in t.released || t.stopped)
      && id !in t.parked
      && |s.waiters| <= |t.waiters|
      && forall w | 0 <= w < |t.waiters| && t.waiters[w].id == id :: t.waiters[w].wakes == 1
    decreases |events|
  {
    if events != [] {
      StepKeepsInv(s, events[0]);
      ReleasedForGood(Step(s, events[0]), id, events[1..]);
    }
  }

  /** A release wakes all calls that wait for the id, and no others. */
  lemma ReleaseWakesItsOwn(s: State, id: string)
    requires Inv(s)
    ensures var t := Released(s, id);
      forall w | 0 <= w < |s.waiters| ::
        t.waiters[w].wakes == s.waiters[w].wakes
          + if s.waiters[w].id == id && s.waiters[w].listening then 1 else 0
  {
  }

  /** After a stop nothing is parked, and nothing parks again. */
  lemma {:induction false} NothingParksAfterStop(s: State, events: seq<Event>)
    requires Inv(s) && s.stopped && Legal(s, events)
    ensures Run(s, events).stopped && Run(s, events).parked == map[]
    decreases |events|
  {
    if events != [] {
      StepKeepsInv(s, events[0]);
      NothingParksAfterStop(Step(s, events[0]), events[1..]);
    }
  }

  // ----- the server's own loops

  class Server {
    var released: set<string>
    var parked: map<string, set<nat>>
    var stopped: bool
    var waiters: seq<Waiter>

    function Snapshot(): State
      reads this
    {
      State(released, parked, stopped, waiters)
    }

    constructor ()
      ensures Snapshot() == STARTED
    {
      released, parked, stopped, waiters := {}, map[], false, [];
    }

    method WaitFor(id: string, aborted: bool)
      modifies this`waiters, this`parked
      ensures Snapshot() == Waited(old(Snapshot()), id, aborted)
    {
      if stopped || id in released {
        waiters := waiters + [Waiter(id, SignalOf(aborted), false, 1)];
        return;
      }
      var waiting := if id in parked then parked[id] else {};
      parked := parked[id := waiting + {|waiters|}];
      waiters := waiters + [Waiter(id, SignalOf(aborted), true, 0)];
    }

    method OnAbort(w: nat)
      requires Inv(Snapshot()) && Enabled(Snapshot(), Abort(w))
      modifies this`waiters, this`parked
      ensures Snapshot() == Aborted(old(Snapshot()), w) && Inv(Snapshot())
    {
      waiters := waiters[w := waiters[w].(signal := AbortedSince)];
      if waiters[w].listening {
        var id := waiters[w].id;
        assert w in Parked(old(Snapshot()), id);
        parked := parked[id := parked[id] - {w}];
        waiters := waiters[w := Woken(waiters[w])];
      }
      AbortedKeepsInv(old(Snapshot()), w);
    }

    method Release(id: string)
      requires Inv(Snapshot())
      modifies this`released, this`parked, this`waiters
      ensures Snapshot() == Released(old(Snapshot()), id) && Inv(Snapshot())
    {
      released := released + {id};
      var waiting := if id in parked then parked[id] else {};
      ghost var woken: set<nat> := {};
      assert forall w | w in waiting :: w < |waiters| by {
        assert waiting == Parked(old(Snapshot()), id);
      }
      while waiting != {}
        invariant forall w | w in waiting :: w < |waiters|
        invariant waiting + woken == Parked(old(Snapshot()), id) && waiting !! woken
        invariant |waiters| == |old(waiters)| && waiters == WakeAll(old(waiters), woken)
        invariant parked == old(parked) && released == old(released) + {id}
        decreases waiting
      {
        var w :| w in waiting;
        waiters := waiters[w := Woken(waiters[w])];
        waiting := waiting - {w};
        woken := woken + {w};
      }
      parked := parked - {id};
      ReleasedKeepsInv(old(Snapshot()), id);
    }

    method StopServer()
      requires Inv(Snapshot())
      modifies this
      ensures Inv(Snapshot()) && Snapshot() == Stopped(old(Snapshot()))
    {
      // No handler runs before this method ends, so the flag may as well be set after the loop.
      var ids := parked.Keys;
      while ids != {}
        invariant ids == parked.Keys && stopped == old(stopped) && Inv(Snapshot())
        invariant Stopped(Snapshot()) == Stopped(old(Snapshot()))
        decreases ids
      {
        var id :| id in ids;
        ghost var before := Snapshot();
        Release(id);
        ReleaseThenStop(before, id);
        ids := ids - {id};
      }
      stopped := true;
      StopOfNothing(old(Snapshot()), Snapshot().(stopped := old(stopped)));
      StoppedKeepsInv(old(Snapshot()));
    }
  }

  /** Stopping after a release of one parked id is stopping at once. */
  lemma ReleaseThenStop(s: State, id: string)
    requires Inv(s) && id in s.parked
    ensures Stopped(Released(s, id)) == Stopped(s)
  {
    var r := Released(s, id);
    assert r.released + r.parked.Keys == s.released + s.parked.Keys;
    forall w | 0 <= w < |s.waiters|
      ensures Stopped(r).waiters[w] == Stopped(s).waiters[w]
    {
      assert w in AllParked(s) <==> w in s.parked[id] || w in AllParked(r);
      if w in s.parked[id] {
        assert w in Parked(s, id);
        assert forall other :: w in Parked(s, other) ==> s.waiters[w].id == other;
        assert forall other | other in r.parked :: r.parked[other] == Parked(s, other);
      }
    }
    assert Stopped(r).waiters == Stopped(s).waiters;
  }

  lemma StopOfNothing(s: State, t: State)
    requires t.parked == map[] && Stopped(t) == Stopped(s)
    ensures t.(stopped := true) == Stopped(s)
  {
    assert AllParked(t) == {};
    assert WakeAll(t.waiters, {}) == t.waiters;
    assert t.released + t.parked.Keys == t.released;
  }
}
