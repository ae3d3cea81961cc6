/** Life of all the connections of one StreamServer on one loop: accept, polled events, user calls,
    forced close, removal from the map, destruction, release. One callback of one event, one functor and
    one user call are single steps; user calls fall between any two of them. */
module ConnectionLives {
  import opened Options
  import opened EPollPollers
  import opened Sendings

  datatype Conn = Conn(
    state: ConnState,
    reading: bool,          // reading_
    channel: Interest,
    closes: nat,            // runs of the close callback
    destroys: nat,          // runs of connectDestroyed
    released: bool)         // the last reference is gone

  datatype Functor = ForcedClose(id: nat) | Destruction(id: nat)

  datatype Place = Polling | Handling | Running

  /** The accept channel in the current round of events: one accept per event. */
  datatype Listener = NotPolled | Active | Accepting(done: bool) | Accepted

  datatype State = State(
    place: Place,
    nextConnId: nat,
    connections: set<nat>,       // the server's map
    conns: map<nat, Conn>,       // every connection ever made
    listener: Listener,
    polled: set<nat>,            // activeChannels_, as far as they are connections
    active: map<nat, Mask>,      // those of them still to be handled
    current: Option<nat>,        // the one being handled; none while another channel is
    callbacks: seq<Callback>,    // and what is left of its event
    queue: seq<Functor>, batch: seq<Functor>)

  const INIT := State(Polling, 1, {}, map[], NotPolled, {}, map[], None, [], [], [])

  datatype Event =
    | Poll(active: map<nat, Mask>, accept: bool)
    | BeginAccept                             // the acceptor's handleRead
    | Accept                                  // newConnection, connectEstablished
    | EndAccept
    | Begin(id: nat)                          // handleEvent of one active channel
    | RunCallback(eof: bool, drained: bool)   // its next callback
    | End                                     // handleEvent returns
    | EventsDone
    | RunFunctor
    | BatchDone
    | Send(id: nat)                           // sendInLoop that leaves bytes in the output buffer
    | Shutdown(id: nat)
    | ForceClose(id: nat)
    | StopRead(id: nat)
    | StartRead(id: nat)
    | Release(id: nat)

  // ---------- Steps ----------

  predicate Open(c: Conn) {
    c.state.Connected? || c.state.Disconnecting?
  }

  function NewConn(): Conn {
    Conn(Connected, true, NO_INTEREST.ReadingEnabled(), 0, 0, false)
  }

  /** handleClose. */
  function Closed(c: Conn): Conn {
    c.(state := Disconnected, channel := c.channel.AllDisabled(), closes := c.closes + 1)
  }

  /** connectDestroyed. */
  function Destroyed(c: Conn): Conn {
    var d := if c.state.Connected? then c.(state := Disconnected, channel := c.channel.AllDisabled()) else c;
    d.(channel := d.channel.Removed(), destroys := d.destroys + 1)
  }

  function Stopped(c: Conn): Conn {
    if c.reading || c.channel.read then c.(channel := c.channel.ReadingDisabled(), reading := false) else c
  }

  function Started(c: Conn): Conn {
    if !c.reading || !c.channel.read then c.(channel := c.channel.ReadingEnabled(), reading := true) else c
  }

  function Sent(c: Conn): Conn {
    if c.state.Disconnected? || c.channel.write then c else c.(channel := c.channel.WritingEnabled())
  }

  function Drained(c: Conn): Conn {
    if c.channel.write then c.(channel := c.channel.WritingDisabled()) else c
  }

  function Update(s: State, id: nat, c: Conn): State {
    s.(conns := s.conns[id := c])
  }

  /** handleClose, with the close callback running removeConnectionInLoop at once. */
  function Close(s: State, id: nat): State
    requires id in s.conns
  {
    Update(s, id, Closed(s.conns[id])).(connections := s.connections - {id}, queue := s.queue + [Destruction(id)])
  }

  /** A connection the user still holds. */
  predicate Held(s: State, id: nat) {
    id in s.conns && !s.conns[id].released
  }

  predicate InLoop(s: State) {
    s.place.Handling? || s.place.Running?
  }

  predicate Reported(s: State, active: map<nat, Mask>, id: nat)
    requires id in active
  {
    Held(s, id) && s.conns[id].channel.Reports(active[id])
  }

  /** Nothing in the server, the loop or the event being handled refers to the connection. */
  predicate Unreferenced(s: State, id: nat) {
    && id !in s.connections && id !in s.active
    && s.current != Some(id)
    && (forall f :: f in s.queue ==> f.id != id) && (forall f :: f in s.batch ==> f.id != id)
  }

  predicate Possible(s: State, e: Event) {
    match e
    case BeginAccept => s.place.Handling? && s.current.None? && s.listener.Active?
    case Accept => s.place.Handling? && s.listener == Accepting(false)
    case EndAccept => s.place.Handling? && s.listener.Accepting?
    case Poll(active, _) => s.place.Polling? && forall id :: id in active ==> Reported(s, active, id)
    case Begin(id) => s.place.Handling? && s.current.None? && !s.listener.Accepting? && id in s.active
    case RunCallback(_, _) => s.place.Handling? && s.callbacks != [] && s.current.Some? && s.current.value in s.conns
    case End => s.place.Handling? && s.callbacks == [] && s.current.Some?
    case EventsDone =>
      s.place.Handling? && s.current.None? && s.active == map[] && (s.listener.NotPolled? || s.listener.Accepted?)
    case RunFunctor => s.place.Running? && s.batch != [] && s.batch[0].id in s.conns
    case BatchDone => s.place.Running? && s.batch == []
    case Send(id) => Held(s, id) && InLoop(s)
    case Shutdown(id) => Held(s, id)
    case ForceClose(id) => Held(s, id)
    case StopRead(id) => Held(s, id) && InLoop(s)
    case StartRead(id) => Held(s, id) && InLoop(s)
    case Release(id) => Held(s, id) && Unreferenced(s, id)
  }

  /** Whether a callback calls handleClose. */
  predicate Closes(callback: Callback, eof: bool) {
    callback.CloseCallback? || (callback.ReadCallback? && eof)
  }

  function AfterCallback(s: State, id: nat, callback: Callback, eof: bool, drained: bool): State
    requires id in s.conns
  {
    if Closes(callback, eof) then Close(s, id)
    else if callback.WriteCallback? && drained then Update(s, id, Drained(s.conns[id]))
    else s
  }

  /** The state while the first functor of the batch runs. */
  function Taken(s: State): State
    requires s.batch != []
  {
    s.(batch := s.batch[1..])
  }

  function AfterFunctor(s: State, f: Functor): State
    requires f.id in s.conns
  {
    match f
    case ForcedClose(id) => if Open(s.conns[id]) then Close(s, id) else s
    case Destruction(id) => Update(s, id, Destroyed(s.conns[id]))
  }

  function Apply(s: State, e: Event): State
    requires Possible(s, e)
  {
    match e
    case Accept =>
      Update(s, s.nextConnId, NewConn()).(nextConnId := s.nextConnId + 1,
                                          connections := s.connections + {s.nextConnId}, listener := Accepting(true))
    case BeginAccept => s.(listener := Accepting(false))
    case EndAccept => s.(listener := Accepted)
    case Poll(active, accept) =>
      s.(place := Handling, polled := active.Keys, active := active, listener := if accept then Active else NotPolled)
    case Begin(id) => s.(active := s.active - {id}, current := Some(id), callbacks := Dispatched(s.active[id]))
    case RunCallback(eof, drained) =>
      AfterCallback(s.(callbacks := s.callbacks[1..]), s.current.value, s.callbacks[0], eof, drained)
    case End => s.(current := None)
    case EventsDone => s.(place := Running, listener := NotPolled, polled := {}, batch := s.queue, queue := [])
    case RunFunctor => AfterFunctor(Taken(s), s.batch[0])
    case BatchDone => s.(place := Polling)
    case Send(id) => Update(s, id, Sent(s.conns[id]))
    case Shutdown(id) => if s.conns[id].state.Connected? then Update(s, id, s.conns[id].(state := Disconnecting)) else s
    case ForceClose(id) =>
      if Open(s.conns[id]) then
        Update(s, id, s.conns[id].(state := Disconnecting)).(queue := s.queue + [ForcedClose(id)])
      else s
    case StopRead(id) => Update(s, id, Stopped(s.conns[id]))
    case StartRead(id) => Update(s, id, Started(s.conns[id]))
    case Release(id) => Update(s, id, s.conns[id].(released := true))
  }

  // ---------- Asserts ----------

  /** The asserts of handleClose and, in removeConnectionInLoop, of an erase that finds one entry. */
  predicate CloseAsserts(s: State, id: nat)
    requires id in s.conns
  {
    Open(s.conns[id]) && id in s.connections
  }

  /** The asserts of Channel::remove and removeChannel inside connectDestroyed. */
  predicate DestroyAsserts(c: Conn) {
    (c.state.Connected? || c.channel.Idle()) && c.channel.index != NEW
  }

  /** The assert of EventLoop::removeChannel: while events are handled, only the current channel or one
      that was not polled may be removed. */
  predicate RemoveAsserts(s: State, id: nat) {
    s.place.Handling? ==> s.current == Some(id) || id !in s.polled
  }

  /** The asserts of ~StreamConnection and ~Channel. */
  predicate ReleaseAsserts(c: Conn) {
    c.state.Disconnected? && c.channel.index == NEW
  }

  /** Whether a step runs into no failing assert. */
  predicate Asserts(s: State, e: Event)
    requires Possible(s, e)
  {
    match e
    case RunCallback(eof, _) => Closes(s.callbacks[0], eof) ==> CloseAsserts(s, s.current.value)
    case RunFunctor =>
      var id := s.batch[0].id;
      if s.batch[0].ForcedClose? then Open(s.conns[id]) ==> CloseAsserts(s, id)
      else DestroyAsserts(s.conns[id]) && RemoveAsserts(s, id)
    case Release(id) => ReleaseAsserts(s.conns[id])
    case _ => true
  }

  // ---------- Careful runs ----------

  /** How often connectDestroyed is queued for a connection. */
  function Due(fs: seq<Functor>, id: nat): nat {
    multiset(fs)[Destruction(id)]
  }

  /** The connection is destroyed before the next poll. */
  predicate DueSoon(s: State, id: nat) {
    (s.place.Handling? && Due(s.queue, id) > 0) || (s.place.Running? && Due(s.batch, id) > 0)
  }

  /** How many callbacks of an event can call handleClose. */
  function Closers(callbacks: seq<Callback>): nat {
    if callbacks == [] then 0
    else (if callbacks[0].CloseCallback? || callbacks[0].ReadCallback? then 1 else 0) + Closers(callbacks[1..])
  }

  predicate SingleCloser(revents: Mask) {
    Closers(Dispatched(revents)) <= 1
  }

  /** What can be checked before each step: the kernel reports no event that closes and reads; a queued
      close finds its channel watched, that is, with something enabled; after a close nobody starts
      reading, and nobody stops reading for the first time unless destruction comes before the next poll. */
  predicate Careful(s: State, e: Event)
    requires Possible(s, e)
  {
    match e
    case Poll(active, _) => forall id :: id in active ==> SingleCloser(active[id])
    case RunFunctor =>
      var c := s.conns[s.batch[0].id];
      s.batch[0].ForcedClose? && Open(c) ==> c.channel.Watched()
    case StopRead(id) => Open(s.conns[id]) || !s.conns[id].reading || DueSoon(s, id)
    case StartRead(id) => Open(s.conns[id])
    case _ => true
  }

  ghost predicate Run(s0: State, es: seq<Event>, s: State)
    decreases |es|
  {
    if es == [] then s == s0
    else Possible(s0, es[0]) && Run(Apply(s0, es[0]), es[1..], s)
  }

  ghost predicate CarefulRun(s0: State, es: seq<Event>, s: State)
    decreases |es|
  {
    if es == [] then s == s0
    else Possible(s0, es[0]) && Careful(s0, es[0]) && CarefulRun(Apply(s0, es[0]), es[1..], s)
  }

  ghost predicate CarefullyReached(s: State) {
    exists es :: CarefulRun(INIT, es, s)
  }

  // ---------- Invariant ----------

  /** What holds of one connection, given whether the map holds it, how many destructions are queued, and
      whether one comes before the next poll. */
  predicate ConnOk(c: Conn, inMap: bool, due: nat, soon: bool) {
    && !c.state.Connecting?
    && inMap == !c.state.Disconnected?
    && c.closes == (if c.state.Disconnected? then 1 else 0)
    && c.destroys + due == c.closes
    && (c.channel.index == NEW || c.channel.index == ADDED || c.channel.index == DELETED)
    && (c.channel.index == NEW <==> c.destroys == 1)
    && (Open(c) ==> c.channel.Watched() == !c.channel.Idle() && c.reading == c.channel.read)
    && (c.state.Disconnected? ==> c.channel.Idle() && (c.channel.Watched() ==> soon))
    && (c.released ==> c.state.Disconnected?)
  }

  ghost predicate ConnInv(s: State, id: nat)
    requires id in s.conns
  {
    ConnOk(s.conns[id], id in s.connections, Due(s.batch, id) + Due(s.queue, id), DueSoon(s, id))
  }

  ghost predicate FunctorsKnown(s: State) {
    forall f :: f in s.batch || f in s.queue ==> f.id in s.conns
  }

  ghost predicate Layout(s: State) {
    && (forall id :: id in s.conns <==> 1 <= id < s.nextConnId)
    && s.connections <= s.conns.Keys && s.active.Keys <= s.polled <= s.conns.Keys
    && (s.callbacks != [] ==> s.current.Some?)
    && (s.current.Some? ==> s.current.value in s.polled)
    && (s.place.Handling? || (s.polled == {} && s.current.None? && s.listener.NotPolled?))
    && (s.current.Some? ==> !s.listener.Accepting?)
    && (s.place.Running? || s.batch == [])
    && s.nextConnId >= 1
  }

  /** True in every run at all. */
  ghost predicate Shape(s: State) {
    Layout(s) && FunctorsKnown(s)
  }

  predicate Waits(s: State, id: nat)
    requires id in s.active
  {
    id in s.conns && Open(s.conns[id]) && SingleCloser(s.active[id]) && s.current != Some(id)
  }

  /** How often a connection can still be closed. */
  function Closable(c: Conn): nat {
    if Open(c) then 1 else 0
  }

  /** Every event still to be handled, and the rest of the one being handled, closes an open connection
      at most once. */
  ghost predicate EventsOk(s: State) {
    && (forall id :: id in s.active ==> Waits(s, id))
    && (s.callbacks != [] ==>
          s.current.Some? && s.current.value in s.conns && Closers(s.callbacks) <= Closable(s.conns[s.current.value]))
  }

  ghost predicate Inv(s: State) {
    && Shape(s)
    && (forall id :: id in s.conns ==> ConnInv(s, id))
    && EventsOk(s)
  }

  lemma DueNil(id: nat)
    ensures Due([], id) == 0
  {
  }

  lemma DueSnoc(fs: seq<Functor>, f: Functor, id: nat)
    ensures Due(fs + [f], id) == Due(fs, id) + if f == Destruction(id) then 1 else 0
  {
  }

  lemma DueRest(fs: seq<Functor>, id: nat)
    requires fs != []
    ensures Due(fs, id) == Due(fs[1..], id) + if fs[0] == Destruction(id) then 1 else 0
  {
    assert fs == [fs[0]] + fs[1..];
  }

  lemma NotDue(fs: seq<Functor>, id: nat)
    requires forall f :: f in fs ==> f.id != id
    ensures Due(fs, id) == 0
  {
  }

  /** No possible step runs into a failing assert. */
  lemma AssertsHold(s: State, e: Event)
    requires Inv(s) && Possible(s, e)
    ensures Asserts(s, e)
  {
    match e
    case RunCallback(_, _) =>
      assert ConnInv(s, s.current.value);
    case RunFunctor =>
      assert ConnInv(s, s.batch[0].id);
      DueRest(s.batch, s.batch[0].id);
    case Release(id) =>
      assert ConnInv(s, id);
      NotDue(s.batch, id);
      NotDue(s.queue, id);
    case _ =>
  }

  // ---------- Every careful step keeps the invariant ----------

  /** A close keeps the promise if it comes before the batch, or finds the channel watched. */
  lemma CloseKeeps(s: State, id: nat, other: nat)
    requires id in s.conns && Open(s.conns[id]) && other in s.conns && ConnInv(s, other)
    requires s.place.Handling? || s.conns[id].channel.Watched()
    ensures ConnInv(Close(s, id), other)
  {
    hide Due;
    DueSnoc(s.queue, Destruction(id), other);
  }

  lemma UpdateKeeps(s: State, id: nat, c: Conn, other: nat)
    requires other in s.conns && ConnInv(s, other)
    requires id == other ==> ConnOk(c, id in s.connections, Due(s.batch, id) + Due(s.queue, id), DueSoon(s, id))
    ensures ConnInv(Update(s, id, c), other)
  {
    hide Due, ConnOk;
  }

  lemma CallbackKeeps(s: State, e: Event, other: nat)
    requires Inv(s) && Possible(s, e) && e.RunCallback? && other in s.conns
    ensures other in Apply(s, e).conns && ConnInv(Apply(s, e), other)
  {
    hide Due, EventsOk, Shape;
    AssertsHold(s, e);
    var t := s.(callbacks := s.callbacks[1..]);
    assert ConnInv(s, other) && ConnInv(t, other);
    if Closes(s.callbacks[0], e.eof) {
      CloseKeeps(t, s.current.value, other);
    } else if s.callbacks[0].WriteCallback? && e.drained {
      UpdateKeeps(t, s.current.value, Drained(s.conns[s.current.value]), other);
    }
  }

  lemma TakenKeeps(s: State, other: nat)
    requires s.batch != [] && s.place.Running? && other in s.conns && ConnInv(s, other)
    ensures s.batch[0] != Destruction(other) ==> ConnInv(Taken(s), other)
    ensures s.batch[0] == Destruction(other) ==>
      ConnOk(Destroyed(s.conns[other]), other in s.connections,
             Due(Taken(s).batch, other) + Due(s.queue, other), DueSoon(Taken(s), other))
  {
    hide Due;
    DueRest(s.batch, other);
  }

  lemma FunctorKeeps(s: State, other: nat)
    requires other in s.conns && ConnInv(s, other)
    requires Possible(s, RunFunctor) && Careful(s, RunFunctor)
    ensures other in Apply(s, RunFunctor).conns && ConnInv(Apply(s, RunFunctor), other)
  {
    hide Due, ConnOk;
    TakenKeeps(s, other);
    var f, t := s.batch[0], Taken(s);
    if f.ForcedClose? && Open(s.conns[f.id]) {
      hide ConnInv;
      CloseKeeps(t, f.id, other);
    }
  }

  lemma ForceCloseKeeps(s: State, id: nat, other: nat)
    requires other in s.conns && ConnInv(s, other) && Possible(s, ForceClose(id))
    ensures other in Apply(s, ForceClose(id)).conns && ConnInv(Apply(s, ForceClose(id)), other)
  {
    hide Due;
    DueSnoc(s.queue, ForcedClose(id), other);
  }

  predicate LoopMoves(e: Event) {
    e.Poll? || e.BeginAccept? || e.EndAccept? || e.Begin? || e.End? || e.EventsDone? || e.BatchDone?
  }

  /** The loop moves on: what is due soon stays so. */
  lemma LoopKeeps(s: State, e: Event, other: nat)
    requires Inv(s) && Possible(s, e) && LoopMoves(e) && other in s.conns
    ensures other in Apply(s, e).conns && ConnInv(Apply(s, e), other)
  {
    hide Due, EventsOk;
    assert ConnInv(s, other);
    DueNil(other);
  }

  predicate UserCall(e: Event) {
    e.Send? || e.Shutdown? || e.ForceClose? || e.StopRead? || e.StartRead? || e.Release?
  }

  lemma UserCallKeeps(s: State, e: Event, id: nat)
    requires Possible(s, e) && Careful(s, e) && UserCall(e)
    requires id in s.conns && ConnInv(s, id)
    ensures id in Apply(s, e).conns && ConnInv(Apply(s, e), id)
  {
    hide Due;
    match e
    case ForceClose(x) => ForceCloseKeeps(s, x, id);
    case Send(x) => UpdateKeeps(s, x, Sent(s.conns[x]), id);
    case StopRead(x) => UpdateKeeps(s, x, Stopped(s.conns[x]), id);
    case StartRead(x) => UpdateKeeps(s, x, Started(s.conns[x]), id);
    case Release(x) => UpdateKeeps(s, x, s.conns[x].(released := true), id);
    case Shutdown(x) =>
      if s.conns[x].state.Connected? {
        UpdateKeeps(s, x, s.conns[x].(state := Disconnecting), id);
      }
  }

  lemma OldConnKeeps(s: State, id: nat)
    requires Inv(s) && Possible(s, Accept) && id in s.conns
    ensures id in Apply(s, Accept).conns && ConnInv(Apply(s, Accept), id)
  {
    hide EventsOk, ConnOk, Due;
    assert ConnInv(s, id);
  }

  lemma StepKeepsConn(s: State, e: Event, id: nat)
    requires Inv(s) && Possible(s, e) && Careful(s, e) && id in s.conns
    ensures id in Apply(s, e).conns && ConnInv(Apply(s, e), id)
  {
    assert ConnInv(s, id);
    hide Due, EventsOk, Shape, ConnInv, Inv, Apply, Possible, Careful;
    match e
    case RunCallback(_, _) => CallbackKeeps(s, e, id);
    case RunFunctor => FunctorKeeps(s, id);
    case Accept => OldConnKeeps(s, id);
    case _ =>
      if UserCall(e) {
        UserCallKeeps(s, e, id);
      } else {
        LoopKeeps(s, e, id);
      }
  }

  lemma StepKeepsLayout(s: State, e: Event)
    requires Layout(s) && Possible(s, e)
    ensures Layout(Apply(s, e))
  {
    hide Dispatched, NewConn, Closed, Destroyed, Stopped, Started, Sent, Drained, Open, Closes;
  }

  lemma StepKeepsFunctors(s: State, e: Event)
    requires FunctorsKnown(s) && Possible(s, e)
    ensures FunctorsKnown(Apply(s, e))
  {
    hide Dispatched, NewConn, Closed, Destroyed, Stopped, Started, Sent, Drained, Open, Closes;
  }

  lemma StepKeepsShape(s: State, e: Event)
    requires Shape(s) && Possible(s, e)
    ensures Shape(Apply(s, e))
  {
    hide Layout, FunctorsKnown, Possible, Apply;
    StepKeepsLayout(s, e);
    StepKeepsFunctors(s, e);
  }

  /** The kernel only reports watched channels, and at a poll those are open. */
  lemma PolledAreOpen(s: State, e: Event)
    requires Inv(s) && Possible(s, e) && Careful(s, e) && e.Poll?
    ensures EventsOk(Apply(s, e))
  {
    hide Due;
    forall id | id in e.active ensures Waits(Apply(s, e), id) {
      assert Reported(s, e.active, id);
      assert ConnInv(s, id);
    }
  }

  lemma ClosersRest(callbacks: seq<Callback>, eof: bool)
    requires callbacks != []
    ensures Closers(callbacks[1..]) <= Closers(callbacks)
    ensures Closes(callbacks[0], eof) ==> Closers(callbacks[1..]) == Closers(callbacks) - 1
  {
  }

  lemma CallbackKeepsEvents(s: State, e: Event)
    requires Inv(s) && Possible(s, e) && e.RunCallback?
    ensures EventsOk(Apply(s, e))
  {
    hide Closers, SingleCloser, ConnInv;
    ClosersRest(s.callbacks, e.eof);
    forall id | id in s.active ensures Waits(Apply(s, e), id) {
      assert Waits(s, id);
    }
  }

  lemma StepKeepsEvents(s: State, e: Event)
    requires Inv(s) && Possible(s, e) && Careful(s, e)
    ensures EventsOk(Apply(s, e))
  {
    hide Closers, Dispatched, ConnInv;
    match e
    case Poll(_, _) => PolledAreOpen(s, e);
    case RunCallback(_, _) => CallbackKeepsEvents(s, e);
    case Begin(id) => assert Waits(s, id);
    case _ =>
  }

  lemma AcceptKeeps(s: State)
    requires Inv(s) && Possible(s, Accept)
    ensures s.nextConnId in Apply(s, Accept).conns && ConnInv(Apply(s, Accept), s.nextConnId)
  {
    NotDue(s.batch, s.nextConnId);
    NotDue(s.queue, s.nextConnId);
  }

  lemma NewConns(s: State, e: Event, id: nat)
    requires Shape(s) && Possible(s, e) && id in Apply(s, e).conns && id !in s.conns
    ensures e.Accept? && id == s.nextConnId
  {
  }

  lemma StepKeeps(s: State, e: Event)
    requires Inv(s) && Possible(s, e) && Careful(s, e)
    ensures Inv(Apply(s, e))
  {
    hide Possible, Careful, Apply, ConnInv, Shape, EventsOk;
    var t := Apply(s, e);
    StepKeepsShape(s, e);
    StepKeepsEvents(s, e);
    forall id | id in t.conns ensures ConnInv(t, id) {
      if id in s.conns {
        StepKeepsConn(s, e, id);
      } else {
        NewConns(s, e, id);
        AcceptKeeps(s);
      }
    }
  }

  lemma {:induction false} RunKeeps(s: State, es: seq<Event>, t: State)
    requires Inv(s) && CarefulRun(s, es, t)
    ensures Inv(t)
    decreases |es|
  {
    hide Inv, Possible, Careful, Apply;
    if es != [] {
      StepKeeps(s, es[0]);
      RunKeeps(Apply(s, es[0]), es[1..], t);
    }
  }

  lemma ReachedInv(s: State)
    requires CarefullyReached(s)
    ensures Inv(s)
  {
    var es :| CarefulRun(INIT, es, s);
    RunKeeps(INIT, es, s);
  }

  // ---------- What holds in every careful run ----------

  /** The map is exactly the set of connections not yet closed, no close callback has run twice, every
      closed connection is destroyed once or waits for it, and whatever step comes next, careful or not,
      runs into no failing assert. */
  lemma Lifecycle(s: State)
    requires CarefullyReached(s)
    ensures forall id :: id in s.connections <==> id in s.conns && s.conns[id].closes == 0
    ensures forall id :: id in s.conns ==> s.conns[id].closes <= 1
    ensures forall id :: id in s.conns ==> (s.conns[id].closes == 1 <==> s.conns[id].state.Disconnected?)
    ensures forall id :: id in s.conns ==> s.conns[id].destroys + Due(s.batch + s.queue, id) == s.conns[id].closes
    ensures forall e :: Possible(s, e) ==> Asserts(s, e)
  {
    ReachedInv(s);
    forall id | id in s.conns
      ensures s.conns[id].closes == if id in s.connections then 0 else 1
      ensures s.conns[id].closes == 1 <==> s.conns[id].state.Disconnected?
      ensures s.conns[id].destroys + Due(s.batch + s.queue, id) == s.conns[id].closes
    {
      assert ConnInv(s, id);
    }
    forall e | Possible(s, e) ensures Asserts(s, e) {
      AssertsHold(s, e);
    }
  }

  // ---------- What holds in every run at all ----------

  function Rank(state: ConnState): nat {
    match state
    case Connecting => 0
    case Connected => 1
    case Disconnecting => 2
    case Disconnected => 3
  }

  lemma StepAdvances(s: State, e: Event, id: nat)
    requires Shape(s) && Possible(s, e) && id in s.conns
    ensures id in Apply(s, e).conns
    ensures Rank(s.conns[id].state) <= Rank(Apply(s, e).conns[id].state)
  {
    hide Dispatched;
  }

  /** States only advance: Connecting, Connected, Disconnecting, Disconnected. */
  lemma {:induction false} RunAdvances(s: State, es: seq<Event>, t: State, id: nat)
    requires Shape(s) && Run(s, es, t) && id in s.conns
    ensures id in t.conns && Rank(s.conns[id].state) <= Rank(t.conns[id].state)
    decreases |es|
  {
    hide Shape, Possible, Apply, Rank;
    if es != [] {
      StepKeepsShape(s, es[0]);
      StepAdvances(s, es[0], id);
      RunAdvances(Apply(s, es[0]), es[1..], t, id);
    }
  }

  // ---------- Destruction of the server ----------

  /** The asserts of ~Acceptor: removeChannel's, as above, and ~Channel's that it is not being handled. */
  predicate AcceptorAsserts(s: State) {
    && (s.place.Handling? ==> s.listener.Accepting? || s.listener.NotPolled?)
    && !s.listener.Accepting?
  }

  /** ~StreamServer runs connectDestroyed on every connection in the map at once and drops it, then
      destroys the acceptor. */
  ghost predicate DestructorAsserts(s: State) {
    && (forall id :: id in s.connections ==>
          && id in s.conns && DestroyAsserts(s.conns[id]) && RemoveAsserts(s, id)
          && ReleaseAsserts(Destroyed(s.conns[id])))
    && AcceptorAsserts(s)
  }

  ghost predicate AllConnected(s: State) {
    forall id :: id in s.connections ==> id in s.conns && s.conns[id].state.Connected?
  }

  /** Neither the listening socket nor a connection in the map was polled with the channel being handled,
      except such a connection as that channel. */
  ghost predicate NoOtherPolled(s: State) {
    s.listener.NotPolled? && forall id :: id in s.connections && id in s.polled ==> s.current == Some(id)
  }

  /** All its asserts, those of the loop and of the destructors of connections, acceptor and channels
      included, hold if and only if every connection in the map is connected, and either no events are being
      handled or nothing of the server was polled but the connection being handled. */
  lemma DestructorSafeIff(s: State)
    requires CarefullyReached(s)
    ensures DestructorAsserts(s) <==> AllConnected(s) && (s.place.Handling? ==> NoOtherPolled(s))
  {
    ReachedInv(s);
    forall id | id in s.connections
      ensures id in s.conns && s.conns[id].channel.index != NEW && Open(s.conns[id])
    {
      assert ConnInv(s, id);
    }
  }
}
