/** The asserts of the connections do fail in some runs. This module shows that care, as defined for the
    machine, is exactly what separates those runs from the others. */
module ConnectionFailures {
  import opened Options
  import opened EPollPollers
  import opened Sendings
  import opened ConnectionLives

  /** Some careful continuation runs into a failing assert. */
  ghost predicate CanFail(s: State) {
    exists es, t, e :: FailsAfter(s, es, t, e)
  }

  ghost predicate FailsAfter(s: State, es: seq<Event>, t: State, e: Event) {
    CarefulRun(s, es, t) && Possible(t, e) && !Asserts(t, e)
  }

  lemma FailsNow(s: State, e: Event)
    requires Possible(s, e) && !Asserts(s, e)
    ensures CanFail(s)
  {
    assert FailsAfter(s, [], s, e);
  }

  lemma FailsLater(s: State, e: Event)
    requires Possible(s, e) && Careful(s, e) && CanFail(Apply(s, e))
    ensures CanFail(s)
  {
    hide Possible, Careful, Apply, Asserts;
    var es, t, f :| FailsAfter(Apply(s, e), es, t, f);
    assert ([e] + es)[1..] == es;
    assert FailsAfter(s, [e] + es, t, f);
  }

  // ---------- Within one event ----------

  /** What is left of an event closes as often as this. */
  function Calls(callbacks: seq<Callback>, eof: bool): nat {
    if callbacks == [] then 0 else (if Closes(callbacks[0], eof) then 1 else 0) + Calls(callbacks[1..], eof)
  }

  /** No assert fails in what is left of an event, run without user calls in between. */
  predicate EventSafe(s: State, eof: bool, drained: bool)
    requires s.place.Handling? && s.current.Some? && s.current.value in s.conns
    decreases |s.callbacks|
  {
    s.callbacks != [] ==>
      && Asserts(s, RunCallback(eof, drained))
      && EventSafe(Apply(s, RunCallback(eof, drained)), eof, drained)
  }

  lemma {:induction false} EventSafeIff(s: State, eof: bool, drained: bool)
    requires s.place.Handling? && s.current.Some? && s.current.value in s.conns
    requires Open(s.conns[s.current.value]) ==> s.current.value in s.connections
    ensures EventSafe(s, eof, drained) <==> Calls(s.callbacks, eof) <= Closable(s.conns[s.current.value])
    decreases |s.callbacks|
  {
    if s.callbacks != [] {
      EventSafeIff(Apply(s, RunCallback(eof, drained)), eof, drained);
    }
  }

  lemma CallsOfParts(close: bool, error: bool, read: bool, write: bool, eof: bool)
    ensures var c, e := If(close, CloseCallback), If(error, ErrorCallback);
      var r, w := If(read, ReadCallback), If(write, WriteCallback);
      Calls(c + e + r + w, eof) == (if close then 1 else 0) + (if read && eof then 1 else 0)
  {
    var c, e := If(close, CloseCallback), If(error, ErrorCallback);
    var r, w := If(read, ReadCallback), If(write, WriteCallback);
    CallsConcat(c + e + r, w, eof);
    CallsConcat(c + e, r, eof);
    CallsConcat(c, e, eof);
    CallsOfOne(close, CloseCallback, eof);
    CallsOfOne(error, ErrorCallback, eof);
    CallsOfOne(read, ReadCallback, eof);
    CallsOfOne(write, WriteCallback, eof);
  }

  lemma CallsOfOne(condition: bool, callback: Callback, eof: bool)
    ensures Calls(If(condition, callback), eof) == if condition && Closes(callback, eof) then 1 else 0
  {
    assert [callback][1..] == [];
  }

  /** An event calls handleClose as often as its bits say. */
  lemma DispatchedCalls(revents: Mask, eof: bool)
    ensures Calls(Dispatched(revents), eof) ==
      (if Has(revents, POLLHUP) && !Has(revents, POLLIN) then 1 else 0)
      + (if Has(revents, POLLIN | POLLPRI | POLLRDHUP) && eof then 1 else 0)
  {
    hide Has, Calls;
    CallsOfParts(Has(revents, POLLHUP) && !Has(revents, POLLIN), Has(revents, POLLERR | POLLNVAL),
                 Has(revents, POLLIN | POLLPRI | POLLRDHUP), Has(revents, POLLOUT), eof);
  }

  lemma {:induction false} CallsConcat(a: seq<Callback>, b: seq<Callback>, eof: bool)
    ensures Calls(a + b, eof) == Calls(a, eof) + Calls(b, eof)
    decreases |a|
  {
    if a == [] {
      assert a + b == b;
    } else {
      assert (a + b)[0] == a[0] && (a + b)[1..] == a[1..] + b;
      CallsConcat(a[1..], b, eof);
    }
  }

  lemma {:induction false} ClosersAreCalls(callbacks: seq<Callback>)
    ensures Closers(callbacks) == Calls(callbacks, true)
  {
    if callbacks != [] {
      ClosersAreCalls(callbacks[1..]);
    }
  }

  /** An event on an open connection makes the assert of handleClose fail if and only if it is a hang-up
      without IN but with PRI or RDHUP, and the read finds the end of the stream. */
  lemma OneEventIff(s: State, revents: Mask, eof: bool, drained: bool)
    requires s.place.Handling? && s.current.Some? && s.current.value in s.connections
    requires s.current.value in s.conns && Open(s.conns[s.current.value])
    requires s.callbacks == Dispatched(revents)
    ensures !EventSafe(s, eof, drained) <==>
      Has(revents, POLLHUP) && !Has(revents, POLLIN) && (Has(revents, POLLPRI) || Has(revents, POLLRDHUP)) && eof
  {
    ReadBits(revents);
    hide Has, Dispatched, EventSafe, Calls;
    EventSafeIff(s, eof, drained);
    DispatchedCalls(revents, eof);
  }

  // ---------- Careless steps ----------

  /** An event with more closing callbacks than its connection has closes left. */
  lemma {:induction false} ClosersFail(s: State)
    requires s.place.Handling? && s.callbacks != [] && s.current.Some? && s.current.value in s.conns
    requires Closers(s.callbacks) > Closable(s.conns[s.current.value])
    ensures CanFail(s)
    decreases |s.callbacks|
  {
    hide CanFail, FailsAfter;
    var e := RunCallback(true, false);
    if !Asserts(s, e) {
      FailsNow(s, e);
    } else {
      ClosersFail(Apply(s, e));
      FailsLater(s, e);
    }
  }

  /** A closed connection whose channel is still watched: the kernel reports a hang-up, unless destruction
      comes first; and that fails when something is enabled. */
  predicate Brink(s: State, id: nat) {
    && Held(s, id)
    && s.conns[id].state.Disconnected?
    && s.conns[id].channel.Watched()
    && (s.conns[id].channel.read || !DueSoon(s, id))
  }

  lemma HangUp(i: Interest)
    ensures Dispatched(POLLHUP) == [CloseCallback] && Closers([CloseCallback]) == 1
    ensures i.Watched() ==> i.Reports(POLLHUP)
  {
    assert [CloseCallback][1..] == [];
  }

  lemma PollingFails(s: State, id: nat)
    requires s.place.Polling? && s.current.None? && Held(s, id)
    requires s.conns[id].state.Disconnected? && s.conns[id].channel.Watched()
    ensures CanFail(s)
  {
    hide CanFail, FailsAfter, Dispatched;
    HangUp(s.conns[id].channel);
    var poll := Poll(map[id := POLLHUP], false);
    var t := Apply(s, poll);
    var u := Apply(t, Begin(id));
    FailsNow(u, RunCallback(false, false));
    FailsLater(t, Begin(id));
    FailsLater(s, poll);
  }

  /** Open connections are in the map, held, and watched unless nothing is enabled. */
  predicate OpenOk(s: State, id: nat)
    requires id in s.conns
  {
    Open(s.conns[id]) ==>
      id in s.connections && !s.conns[id].released && (s.conns[id].channel.Watched() || s.conns[id].channel.Idle())
  }

  ghost predicate Sane(s: State) {
    Shape(s) && forall id :: id in s.conns ==> OpenOk(s, id)
  }

  lemma StepKeepsSane(s: State, e: Event)
    requires Sane(s) && Possible(s, e) && Asserts(s, e)
    ensures Sane(Apply(s, e))
  {
    StepKeepsShape(s, e);
    hide Shape, Dispatched;
    var t := Apply(s, e);
    forall id | id in t.conns ensures OpenOk(t, id) {
      assert id in s.conns ==> OpenOk(s, id);
    }
  }

  lemma InvIsSane(s: State)
    requires Inv(s)
    ensures Sane(s)
  {
    hide Shape, EventsOk;
    forall id | id in s.conns ensures OpenOk(s, id) {
      assert ConnInv(s, id);
    }
  }

  lemma FunctorLeavesBrink(s: State, id: nat)
    requires s.place.Running? && s.batch != [] && s.batch[0].id in s.conns && Brink(s, id)
    requires s.batch[0] != Destruction(id)
    ensures Brink(AfterFunctor(Taken(s), s.batch[0]), id)
  {
    DueRest(s.batch, id);
  }

  lemma DestructionFails(s: State, id: nat)
    requires s.place.Running? && s.batch != [] && s.batch[0] == Destruction(id) && Brink(s, id)
    ensures Possible(s, RunFunctor) && !Asserts(s, RunFunctor)
  {
    DueRest(s.batch, id);
  }

  /** A queued close of a connection with nothing enabled becomes careful once someone starts reading. */
  lemma ReadFirst(s: State, id: nat)
    requires Sane(s) && s.place.Running? && Brink(s, id) && Possible(s, RunFunctor) && !Careful(s, RunFunctor)
    ensures var e := StartRead(s.batch[0].id);
      && Possible(s, e) && Careful(s, e) && Brink(Apply(s, e), id)
      && Apply(s, e).place.Running? && Apply(s, e).batch == s.batch
      && Careful(Apply(s, e), RunFunctor)
  {
    assert OpenOk(s, s.batch[0].id);
  }

  lemma {:induction false} RunningFails(s: State, id: nat)
    requires Sane(s) && s.place.Running? && Brink(s, id)
    ensures CanFail(s)
    decreases |s.batch|
  {
    if s.batch == [] {
      PollingFails(Apply(s, BatchDone), id);
      FailsLater(s, BatchDone);
    } else if s.batch[0] == Destruction(id) {
      DestructionFails(s, id);
      FailsNow(s, RunFunctor);
    } else {
      assert Possible(s, RunFunctor);
      if Careful(s, RunFunctor) {
        FunctorFails(s, id);
      } else {
        ReadFirst(s, id);
        var e := StartRead(s.batch[0].id);
        StepKeepsSane(s, e);
        FunctorFails(Apply(s, e), id);
        FailsLater(s, e);
      }
    }
  }

  lemma {:induction false} FunctorFails(s: State, id: nat)
    requires Sane(s) && s.place.Running? && Brink(s, id)
    requires Possible(s, RunFunctor) && Careful(s, RunFunctor) && s.batch[0] != Destruction(id)
    ensures CanFail(s)
    decreases |s.batch|, 0
  {
    if !Asserts(s, RunFunctor) {
      FailsNow(s, RunFunctor);
    } else {
      FunctorLeavesBrink(s, id);
      StepKeepsSane(s, RunFunctor);
      RunningFails(Apply(s, RunFunctor), id);
      FailsLater(s, RunFunctor);
    }
  }

  lemma CallbackLeavesBrink(s: State, id: nat)
    requires Brink(s, id) && Possible(s, RunCallback(false, false)) && Asserts(s, RunCallback(false, false))
    ensures Brink(Apply(s, RunCallback(false, false)), id)
  {
    hide Due;
    DueSnoc(s.queue, Destruction(s.current.value), id);
  }

  function ListenerRank(listener: Listener): nat {
    match listener
    case Active => 2
    case Accepting(_) => 1
    case _ => 0
  }

  lemma QuietStep(s: State, e: Event, id: nat)
    requires Sane(s) && Brink(s, id) && Possible(s, e)
    requires e.BeginAccept? || e.EndAccept? || e.Begin? || e.End? || e.EventsDone?
    ensures Careful(s, e) && Sane(Apply(s, e)) && Brink(Apply(s, e), id)
  {
    StepKeepsSane(s, e);
    hide Sane, Dispatched;
  }

  lemma CallbackStep(s: State, id: nat)
    requires Sane(s) && Brink(s, id) && Possible(s, RunCallback(false, false)) && Asserts(s, RunCallback(false, false))
    ensures var t := Apply(s, RunCallback(false, false));
      Sane(t) && Brink(t, id) && t.place.Handling? && t.active == s.active && |t.callbacks| < |s.callbacks|
  {
    CallbackLeavesBrink(s, id);
    StepKeepsSane(s, RunCallback(false, false));
    hide Sane, Brink;
  }

  lemma {:induction false} HandlingFails(s: State, id: nat)
    requires Sane(s) && s.place.Handling? && Brink(s, id)
    ensures CanFail(s)
    decreases |s.active|, |s.callbacks|, if s.current.Some? then 1 else 0, ListenerRank(s.listener)
  {
    hide CanFail, FailsAfter, Dispatched, Brink, Asserts, DueSoon;
    if s.callbacks != [] {
      var e := RunCallback(false, false);
      if !Asserts(s, e) {
        FailsNow(s, e);
      } else {
        CallbackStep(s, id);
        HandlingFails(Apply(s, e), id);
        FailsLater(s, e);
      }
    } else if s.current.Some? || s.listener.Accepting? || s.listener.Active? {
      var e := if s.current.Some? then End else if s.listener.Active? then BeginAccept else EndAccept;
      QuietStep(s, e, id);
      HandlingFails(Apply(s, e), id);
      FailsLater(s, e);
    } else if s.active == map[] {
      QuietStep(s, EventsDone, id);
      RunningFails(Apply(s, EventsDone), id);
      FailsLater(s, EventsDone);
    } else {
      var x :| x in s.active;
      assert |s.active - {x}| < |s.active|;
      QuietStep(s, Begin(x), id);
      HandlingFails(Apply(s, Begin(x)), id);
      FailsLater(s, Begin(x));
    }
  }

  lemma BrinkFails(s: State, id: nat)
    requires Sane(s) && Brink(s, id)
    ensures CanFail(s)
  {
    hide Brink, CanFail;
    match s.place
    case Handling => HandlingFails(s, id);
    case Running => RunningFails(s, id);
    case Polling =>
      BrinkIsWatched(s, id);
      PollingFails(s, id);
  }

  lemma BrinkIsWatched(s: State, id: nat)
    requires Brink(s, id)
    ensures Held(s, id) && s.conns[id].state.Disconnected? && s.conns[id].channel.Watched()
  {
  }

  // ---------- Each careless step leads to the brink ----------

  lemma SomeCallback(revents: Mask)
    requires !SingleCloser(revents)
    ensures Dispatched(revents) != []
  {
    hide Dispatched;
  }

  lemma CarelessPollFails(s: State, active: map<nat, Mask>, accept: bool)
    requires Inv(s) && Possible(s, Poll(active, accept)) && !Careful(s, Poll(active, accept))
    ensures CanFail(Apply(s, Poll(active, accept)))
  {
    hide CanFail, Dispatched, Closers;
    var id :| id in active && !SingleCloser(active[id]);
    assert Reported(s, active, id);
    var t := Apply(s, Poll(active, accept));
    SomeCallback(active[id]);
    ClosersFail(Apply(t, Begin(id)));
    FailsLater(t, Begin(id));
  }

  lemma CarelessCloseFails(s: State)
    requires Inv(s) && Possible(s, RunFunctor) && !Careful(s, RunFunctor)
    ensures CanFail(Apply(s, RunFunctor))
  {
    hide CanFail;
    var id := s.batch[0].id;
    assert ConnInv(s, id);
    DueRest(s.batch, id);
    InvIsSane(s);
    AssertsHold(s, RunFunctor);
    StepKeepsSane(s, RunFunctor);
    BrinkFails(Apply(s, RunFunctor), id);
  }

  lemma CarelessReadFails(s: State, e: Event)
    requires Inv(s) && Possible(s, e) && !Careful(s, e) && (e.StopRead? || e.StartRead?)
    ensures CanFail(Apply(s, e))
  {
    hide CanFail;
    assert ConnInv(s, e.id);
    InvIsSane(s);
    StepKeepsSane(s, e);
    BrinkFails(Apply(s, e), e.id);
  }

  /** Main result: after a careful run, the next step is careful if and only if no careful continuation
      runs into a failing assert. Care is thus the weakest discipline that keeps every assert. */
  lemma CarefulIff(s: State, e: Event)
    requires CarefullyReached(s) && Possible(s, e)
    ensures Careful(s, e) <==> !CanFail(Apply(s, e))
  {
    ReachedInv(s);
    hide Inv, Possible, Careful, Apply, CanFail;
    if Careful(s, e) {
      StepKeeps(s, e);
      InvIsSafe(Apply(s, e));
    } else {
      CarelessFails(s, e);
    }
  }

  lemma CarelessFails(s: State, e: Event)
    requires Inv(s) && Possible(s, e) && !Careful(s, e)
    ensures CanFail(Apply(s, e))
  {
    hide CanFail, Inv, Apply;
    match e
    case Poll(active, accept) => CarelessPollFails(s, active, accept);
    case RunFunctor => CarelessCloseFails(s);
    case StopRead(_) => CarelessReadFails(s, e);
    case StartRead(_) => CarelessReadFails(s, e);
    case _ =>
  }

  lemma InvIsSafe(s: State)
    requires Inv(s)
    ensures !CanFail(s)
  {
    hide Inv, CarefulRun, Possible, Asserts;
    forall es, t, e ensures !FailsAfter(s, es, t, e) {
      if CarefulRun(s, es, t) && Possible(t, e) {
        RunKeeps(s, es, t);
        AssertsHold(t, e);
      }
    }
  }

  // ---------- Concrete failing runs ----------

  lemma {:induction false} CarefulSnoc(s: State, es: seq<Event>, t: State, e: Event)
    requires CarefulRun(s, es, t) && Possible(t, e) && Careful(t, e)
    ensures CarefulRun(s, es + [e], Apply(t, e))
    decreases |es|
  {
    hide Possible, Careful, Apply;
    if es == [] {
      assert [e][1..] == [];
      assert CarefulRun(Apply(s, e), [], Apply(s, e));
    } else {
      assert (es + [e])[1..] == es[1..] + [e];
      CarefulSnoc(Apply(s, es[0]), es[1..], t, e);
    }
  }

  lemma Next(s: State, e: Event)
    requires CarefullyReached(s) && Possible(s, e) && Careful(s, e)
    ensures CarefullyReached(Apply(s, e))
  {
    var es :| CarefulRun(INIT, es, s);
    CarefulSnoc(INIT, es, s, e);
  }

  lemma AtStart()
    ensures CarefullyReached(INIT)
  {
    assert CarefulRun(INIT, [], INIT);
  }

  /** The first n connections. */
  function FirstIds(n: nat): set<nat> {
    if n == 0 then {} else FirstIds(n - 1) + {n}
  }

  function FirstConns(n: nat): map<nat, Conn> {
    if n == 0 then map[] else FirstConns(n - 1)[n := NewConn()]
  }

  /** Between two iterations of the loop, with nothing queued and fresh connections only. */
  predicate Fresh(s: State, n: nat) {
    && s.place.Polling? && s.current.None? && s.callbacks == [] && s.queue == [] && s.batch == [] && s.active == map[]
    && s.listener.NotPolled? && s.nextConnId == n + 1
    && s.connections == FirstIds(n) && s.conns == FirstConns(n)
  }

  lemma FreshStart()
    ensures CarefullyReached(INIT) && Fresh(INIT, 0)
  {
    AtStart();
  }

  /** Inside the accept of one more connection. */
  lemma AcceptOne(s: State, n: nat) returns (t: State)
    requires CarefullyReached(s) && Fresh(s, n)
    ensures CarefullyReached(t) && t == s.(place := Handling, listener := Accepting(true), nextConnId := n + 2,
      connections := FirstIds(n + 1), conns := FirstConns(n + 1), polled := {})
  {
    hide CarefullyReached, NewConn;
    Next(s, Poll(map[], true));
    t := Apply(s, Poll(map[], true));
    Next(t, BeginAccept);
    t := Apply(t, BeginAccept);
    Next(t, Accept);
    t := Apply(t, Accept);
  }

  /** The accept and the iteration end. */
  lemma AcceptedOne(s: State, n: nat) returns (t: State)
    requires CarefullyReached(s) && Fresh(s, n)
    ensures CarefullyReached(t) && Fresh(t, n + 1)
  {
    hide CarefullyReached, NewConn;
    t := AcceptOne(s, n);
    Next(t, EndAccept);
    t := Apply(t, EndAccept);
    Next(t, EventsDone);
    t := Apply(t, EventsDone);
    Next(t, BatchDone);
    t := Apply(t, BatchDone);
  }

  /** One connection has been accepted, and user code runs in the accept. */
  lemma Accepted() returns (s: State)
    ensures CarefullyReached(s) && s.place.Handling? && s.current.None? && s.active == map[] && s.callbacks == []
    ensures s.conns == map[1 := NewConn()] && s.connections == {1} && s.queue == [] && s.batch == []
    ensures s.listener == Accepting(true)
  {
    hide CarefullyReached, NewConn;
    FreshStart();
    assert FirstIds(1) == {1} && FirstConns(1) == map[1 := NewConn()];
    s := AcceptOne(INIT, 0);
  }

  /** stopRead with nothing to write, then forceClose: the queued close registers the channel again, and a
      hang-up at the next poll closes the connection a second time. */
  lemma StopReadThenForceClose() returns (s: State)
    ensures CarefullyReached(s) && Possible(s, RunFunctor) && s.batch == [ForcedClose(1)]
    ensures s.conns ==
      map[1 := NewConn().(state := Disconnecting, reading := false, channel := Interest(false, false, DELETED))]
    ensures Asserts(s, RunFunctor) && CanFail(Apply(s, RunFunctor))
  {
    hide CarefullyReached, CanFail;
    s := Accepted();
    Next(s, StopRead(1));
    s := Apply(s, StopRead(1));
    Next(s, ForceClose(1));
    s := Apply(s, ForceClose(1));
    Next(s, EndAccept);
    s := Apply(s, EndAccept);
    Next(s, EventsDone);
    s := Apply(s, EventsDone);
    CarefulIff(s, RunFunctor);
  }

  /** shutdown, also followed by stopRead, leaves a connection the server's destructor cannot destroy. */
  lemma ShutdownThenDestructor() returns (s: State, t: State)
    ensures CarefullyReached(s) && s.connections == {1} && 1 in s.conns
    ensures !DestroyAsserts(s.conns[1])
    ensures CarefullyReached(t) && t.connections == {1} && 1 in t.conns
    ensures DestroyAsserts(t.conns[1]) && !ReleaseAsserts(Destroyed(t.conns[1]))
  {
    hide CarefullyReached;
    s := Accepted();
    Next(s, Shutdown(1));
    s := Apply(s, Shutdown(1));
    Next(s, StopRead(1));
    t := Apply(s, StopRead(1));
  }

  lemma PolledForRead()
    ensures NewConn().channel.Reports(POLLIN)
    ensures Dispatched(POLLIN) == [ReadCallback] && SingleCloser(POLLIN)
  {
    assert [ReadCallback][1..] == [];
  }

  lemma TwoConnections() returns (s: State)
    ensures CarefullyReached(s) && Fresh(s, 2)
    ensures s.connections == {1, 2} && s.conns == map[1 := NewConn(), 2 := NewConn()]
  {
    hide CarefullyReached, NewConn;
    assert FirstIds(1) == {1} && FirstConns(1) == map[1 := NewConn()];
    FreshStart();
    s := AcceptedOne(INIT, 0);
    s := AcceptedOne(s, 1);
  }

  /** Destroying the server inside the read callback of one of two polled connections: all are connected,
      but the other one may not be removed yet. */
  lemma DestructorInsideEvent() returns (s: State)
    ensures CarefullyReached(s) && s.connections == {1, 2} && AllConnected(s)
    ensures s.place.Handling? && s.current == Some(1) && s.active == map[2 := POLLIN]
    ensures !RemoveAsserts(s, 2) && !DestructorAsserts(s)
  {
    hide CarefullyReached, Dispatched, SingleCloser;
    PolledForRead();
    s := TwoConnections();
    var active := map[1 := POLLIN, 2 := POLLIN];
    assert forall id :: id in active ==> Reported(s, active, id);
    Next(s, Poll(active, false));
    s := Apply(s, Poll(active, false));
    Next(s, Begin(1));
    s := Apply(s, Begin(1));
    Next(s, RunCallback(false, false));
    s := Apply(s, RunCallback(false, false));
    assert 2 in s.connections && !RemoveAsserts(s, 2);
  }

  /** Destroying the server inside the accept of its first connection: the accept channel is still being
      handled. */
  lemma DestructorInsideAccept() returns (s: State)
    ensures CarefullyReached(s) && s.connections == {1} && AllConnected(s)
    ensures s.place.Handling? && s.listener == Accepting(true)
    ensures !AcceptorAsserts(s) && !DestructorAsserts(s)
  {
    s := Accepted();
  }
}
