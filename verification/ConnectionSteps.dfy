/** What the steps of a server mean for one of its connections: which of them move its state, switch its
    channel, close it and queue work for it, and what remains of that over a whole run. */
module ConnectionSteps {
  import opened Options
  import opened EPollPollers
  import opened Sendings
  import opened ConnectionLives

  /** The step closes the connection: a hang-up, a read at the end of the stream, a forced close. */
  predicate ClosesIt(s: State, e: Event, id: nat)
    requires id in s.conns
  {
    && (s.conns[id].state == Connected || s.conns[id].state == Disconnecting)
    && ((e.RunCallback? && s.callbacks != [] && s.current == Some(id)
         && (s.callbacks[0] == CloseCallback || (s.callbacks[0] == ReadCallback && e.eof)))
        || (e.RunFunctor? && s.batch != [] && s.batch[0] == ForcedClose(id)))
  }

  /** The step takes the last byte from the output buffer of the connection. */
  predicate DrainsIt(s: State, e: Event, id: nat) {
    e.RunCallback? && s.callbacks != [] && s.current == Some(id) && s.callbacks[0] == WriteCallback && e.drained
  }

  /** A connection ends by a close and by nothing else, and starts to end when the user of a connected one
      asks for it. A close runs the close callback once and takes the connection from the map. */
  predicate Moved(s: State, e: Event, id: nat, t: State)
    requires id in s.conns && id in t.conns
  {
    var was, now := s.conns[id], t.conns[id];
    && now.state == (if ClosesIt(s, e, id) then Disconnected
                     else if was.state == Connected && (e == Shutdown(id) || e == ForceClose(id)) then Disconnecting
                     else was.state)
    && now.closes == was.closes + (if ClosesIt(s, e, id) then 1 else 0)
    && (id in t.connections <==> id in s.connections && !ClosesIt(s, e, id))
  }

  lemma RunMoves(s: State, e: Event, id: nat)
    requires Inv(s) && Possible(s, e) && (e.RunCallback? || e.RunFunctor?) && id in s.conns
    ensures id in Apply(s, e).conns && Moved(s, e, id, Apply(s, e))
  {
    hide Dispatched, EventsOk, Layout;
    assert ConnInv(s, id);
    AssertsHold(s, e);
  }

  lemma OtherMoves(s: State, e: Event, id: nat)
    requires Layout(s) && Possible(s, e) && !e.RunCallback? && !e.RunFunctor? && id in s.conns
    ensures id in Apply(s, e).conns && Moved(s, e, id, Apply(s, e))
  {
    hide Dispatched;
  }

  lemma StateMoves(s: State, e: Event, id: nat)
    requires Inv(s) && Possible(s, e) && id in s.conns
    ensures id in Apply(s, e).conns && Moved(s, e, id, Apply(s, e))
  {
    hide Inv, Possible, Apply, Moved;
    if e.RunCallback? || e.RunFunctor? {
      RunMoves(s, e, id);
    } else {
      LayoutHolds(s);
      OtherMoves(s, e, id);
    }
  }

  /** What a step leaves of what a connection asks the poller for: a connection written to while it is open
      waits for room, until its output buffer is empty; once closed it asks for nothing. Its channel leaves
      the poller when its destruction runs, and only then. */
  predicate Switched(s: State, e: Event, id: nat, now: Interest)
    requires id in s.conns
  {
    var was := s.conns[id].channel;
    && now.read == (if ClosesIt(s, e, id) || e == StopRead(id) then false else e == StartRead(id) || was.read)
    && now.write == (if ClosesIt(s, e, id) || DrainsIt(s, e, id) then false
                     else was.write || (e == Send(id) && s.conns[id].state != Disconnected))
    && (now.index == -1 <==> was.index == -1 || (e.RunFunctor? && s.batch != [] && s.batch[0] == Destruction(id)))
  }

  lemma CallbackSwitches(s: State, e: Event, id: nat)
    requires Inv(s) && Possible(s, e) && e.RunCallback? && id in s.conns
    ensures id in Apply(s, e).conns && Switched(s, e, id, Apply(s, e).conns[id].channel)
  {
    hide Dispatched, Destroyed, EventsOk, Layout, Due;
    assert ConnInv(s, id);
    AssertsHold(s, e);
  }

  lemma FunctorSwitches(s: State, e: Event, id: nat)
    requires Inv(s) && Possible(s, e) && e.RunFunctor? && id in s.conns
    ensures id in Apply(s, e).conns && Switched(s, e, id, Apply(s, e).conns[id].channel)
  {
    hide Dispatched, Drained, EventsOk, Layout;
    assert ConnInv(s, id);
    AssertsHold(s, e);
  }

  lemma UserSwitches(s: State, e: Event, id: nat)
    requires Inv(s) && Possible(s, e) && Careful(s, e) && UserCall(e) && id in s.conns
    ensures id in Apply(s, e).conns && Switched(s, e, id, Apply(s, e).conns[id].channel)
  {
    hide Due, EventsOk, Layout;
    assert ConnInv(s, id);
  }

  lemma LoopSwitches(s: State, e: Event, id: nat)
    requires Layout(s) && Possible(s, e) && (LoopMoves(e) || e.Accept?) && id in s.conns
    ensures id in Apply(s, e).conns && Switched(s, e, id, Apply(s, e).conns[id].channel)
  {
    hide Dispatched;
  }

  lemma LayoutHolds(s: State)
    requires Inv(s)
    ensures Layout(s)
  {
  }

  lemma InterestMoves(s: State, e: Event, id: nat)
    requires Inv(s) && Possible(s, e) && Careful(s, e) && id in s.conns
    ensures id in Apply(s, e).conns && Switched(s, e, id, Apply(s, e).conns[id].channel)
  {
    hide Inv, Possible, Careful, Apply, Switched;
    if e.RunCallback? {
      CallbackSwitches(s, e, id);
    } else if e.RunFunctor? {
      FunctorSwitches(s, e, id);
    } else if UserCall(e) {
      UserSwitches(s, e, id);
    } else {
      LayoutHolds(s);
      LoopSwitches(s, e, id);
    }
  }

  /** What a step queues for the end of the iteration: one forced close for a forceClose of an open
      connection, one destruction for a close. */
  function Queued(s: State, e: Event): seq<Functor>
    requires Possible(s, e)
  {
    if e.ForceClose? && (s.conns[e.id].state == Connected || s.conns[e.id].state == Disconnecting) then
      [ForcedClose(e.id)]
    else if e.RunCallback? && ClosesIt(s, e, s.current.value) then [Destruction(s.current.value)]
    else if e.RunFunctor? && ClosesIt(s, e, s.batch[0].id) then [Destruction(s.batch[0].id)]
    else []
  }

  lemma Joined<T>(a: seq<T>, b: seq<T>, c: seq<T>, k: nat)
    requires k <= |a|
    ensures a[k..] + (b + c) == (a + b)[k..] + c
  {
  }

  lemma FunctorQueues(s: State, e: Event)
    requires Inv(s) && Possible(s, e) && e.RunFunctor?
    ensures s.batch != [] && Apply(s, e).batch == s.batch[1..] && Apply(s, e).queue == s.queue + Queued(s, e)
  {
    hide Dispatched, Destroyed, Closed, ConnInv, EventsOk, Layout;
    AssertsHold(s, e);
  }

  lemma CallbackQueues(s: State, e: Event)
    requires Inv(s) && Possible(s, e) && e.RunCallback?
    ensures Apply(s, e).batch == s.batch && Apply(s, e).queue == s.queue + Queued(s, e)
  {
    hide Dispatched, Drained, Closed, ConnInv, EventsOk, Layout;
    AssertsHold(s, e);
  }

  lemma UserQueues(s: State, e: Event)
    requires Possible(s, e) && UserCall(e)
    ensures Apply(s, e).batch == s.batch && Apply(s, e).queue == s.queue + Queued(s, e)
  {
    hide Stopped, Started, Sent, Unreferenced;
  }

  lemma LoopQueues(s: State, e: Event)
    requires Layout(s) && Possible(s, e) && (LoopMoves(e) || e.Accept?)
    ensures Apply(s, e).batch + Apply(s, e).queue == (s.batch + s.queue)[0..] + Queued(s, e)
  {
    hide Dispatched;
  }

  /** What is queued is carried out in that order, one functor after the other, and nothing else is. */
  lemma QueueMoves(s: State, e: Event)
    requires Inv(s) && Possible(s, e)
    ensures e.RunFunctor? ==> s.batch != []
    ensures var t := Apply(s, e);
      t.batch + t.queue == (s.batch + s.queue)[if e.RunFunctor? then 1 else 0..] + Queued(s, e)
  {
    hide Inv, Possible, Apply, Queued;
    if e.RunFunctor? {
      FunctorQueues(s, e);
      Joined(s.batch, s.queue, Queued(s, e), 1);
    } else if e.RunCallback? {
      CallbackQueues(s, e);
      Joined(s.batch, s.queue, Queued(s, e), 0);
    } else if UserCall(e) {
      UserQueues(s, e);
      Joined(s.batch, s.queue, Queued(s, e), 0);
    } else {
      LayoutHolds(s);
      LoopQueues(s, e);
    }
  }

  /** A new connection is connected and asks for reads only; the others stay as they are. */
  lemma AcceptAdds(s: State)
    requires Possible(s, Accept)
    ensures var t := Apply(s, Accept);
      && t.conns == s.conns[s.nextConnId := Conn(Connected, true, Interest(true, false, 1), 0, 0, false)]
      && t.connections == s.connections + {s.nextConnId} && t.nextConnId == s.nextConnId + 1
  {
  }

  // ---------- Over runs ----------

  /** Whether the user wants to read: what the last startRead or stopRead says, if there is one. */
  function WantsRead(es: seq<Event>, id: nat, before: bool): bool {
    if es == [] then before
    else WantsRead(es[1..], id, es[0] == StartRead(id) || (es[0] != StopRead(id) && before))
  }

  function ReadsNow(s: State, id: nat): bool {
    if id in s.conns then s.conns[id].channel.read else true
  }

  lemma WantsStep(s: State, e: Event, id: nat)
    requires Inv(s) && Possible(s, e) && Careful(s, e)
    requires id in Apply(s, e).conns ==> Apply(s, e).conns[id].state != Disconnected
    ensures id in s.conns ==> s.conns[id].state != Disconnected
    ensures ReadsNow(Apply(s, e), id) == WantsRead([e], id, ReadsNow(s, id))
  {
    if id in s.conns {
      hide Inv, Possible, Careful, Apply;
      StateMoves(s, e, id);
      InterestMoves(s, e, id);
    } else if id in Apply(s, e).conns {
      NewConns(s, e, id);
      AcceptAdds(s);
    }
  }

  /** In every careful run an open connection asks for reads exactly if the user wants to read. */
  lemma {:induction false} ReadsIffWanted(s: State, es: seq<Event>, t: State, id: nat)
    requires Inv(s) && CarefulRun(s, es, t)
    requires id in t.conns && t.conns[id].state != Disconnected
    ensures id in s.conns ==> s.conns[id].state != Disconnected
    ensures t.conns[id].channel.read == WantsRead(es, id, ReadsNow(s, id))
    decreases |es|
  {
    hide Inv, Possible, Careful, Apply;
    if es != [] {
      StepKeeps(s, es[0]);
      ReadsIffWanted(Apply(s, es[0]), es[1..], t, id);
      WantsStep(s, es[0], id);
    }
  }
}
