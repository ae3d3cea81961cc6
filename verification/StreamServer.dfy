/** StreamServer and the callbacks of its connections, with their asserts. */
module StreamServers {
  import opened Options
  import opened EPollPollers
  import opened Sendings
  import opened ConnectionLives

  /** All the callbacks of an event, one after the other, and its end. */
  function AfterEvent(s: State, eof: bool, drained: bool): State
    requires s.place.Handling? && s.current.Some? && s.current.value in s.conns
    decreases |s.callbacks|
  {
    if s.callbacks == [] then Apply(s, End) else AfterEvent(Apply(s, RunCallback(eof, drained)), eof, drained)
  }

  /** One server and its loop, the connections kept as values. Each method is one callback, functor or
      user call; its contract is the machine's step, and the asserts of the source are proved on the way. */
  class StreamServer {
    var place: Place
    var nextConnId: nat
    var connections: set<nat>
    var conns: map<nat, Conn>
    var listener: Listener
    var polled: set<nat>
    var active: map<nat, Mask>
    var current: Option<nat>
    var callbacks: seq<Callback>
    var queue: seq<Functor>
    var batch: seq<Functor>

    ghost function View(): State
      reads this
    {
      State(place, nextConnId, connections, conns, listener, polled, active, current, callbacks, queue, batch)
    }

    constructor ()
      ensures View() == INIT
    {
      place, nextConnId, connections, conns := Polling, 1, {}, map[];
      listener, polled, active, current, callbacks, queue, batch := NotPolled, {}, map[], None, [], [], [];
    }

    /** newConnection: the map entry, then connectEstablished at once, already on the loop thread. */
    method NewConnection()
      requires Possible(View(), Accept)
      modifies this
      ensures View() == Apply(old(View()), Accept)
    {
      listener := Accepting(true);
      var id := nextConnId;
      nextConnId := nextConnId + 1;
      conns := conns[id := Conn(Connecting, true, NO_INTEREST, 0, 0, false)];
      connections := connections + {id};
      ConnectEstablished(id);
    }

    /** Its second requires is its assert. */
    method ConnectEstablished(id: nat)
      requires id in conns
      requires conns[id].state.Connecting?
      modifies this`conns
      ensures var c := old(conns[id]);
        conns == old(conns)[id := c.(state := Connected, channel := c.channel.ReadingEnabled())]
    {
      conns := conns[id := conns[id].(state := Connected)];
      conns := conns[id := conns[id].(channel := conns[id].channel.ReadingEnabled())];
    }

    /** removeConnectionInLoop: the erase must find exactly one entry. */
    method RemoveConnectionInLoop(id: nat)
      requires id in connections
      modifies this`connections, this`queue
      ensures connections == old(connections) - {id}
      ensures queue == old(queue) + [Functor.Destruction(id)]
    {
      var n := if id in connections then 1 else 0;
      connections := connections - {id};
      assert n == 1;
      queue := queue + [Functor.Destruction(id)];
    }

    /** handleClose; its requires are its asserts. */
    method HandleClose(id: nat)
      requires id in conns && CloseAsserts(View(), id)
      modifies this`conns, this`connections, this`queue
      ensures View() == Close(old(View()), id)
    {
      assert conns[id].state == Connected || conns[id].state == Disconnecting;
      conns := conns[id := conns[id].(state := Disconnected)];
      conns := conns[id := conns[id].(channel := conns[id].channel.AllDisabled())];
      conns := conns[id := conns[id].(closes := conns[id].closes + 1)];
      RemoveConnectionInLoop(id);
    }

    /** The next callback of the event being handled. */
    method RunCallback(eof: bool, drained: bool)
      requires Possible(View(), Event.RunCallback(eof, drained))
      requires Asserts(View(), Event.RunCallback(eof, drained))
      modifies this
      ensures View() == Apply(old(View()), Event.RunCallback(eof, drained))
    {
      hide Interest.AllDisabled, Interest.WritingDisabled;
      var callback := callbacks[0];
      callbacks := callbacks[1..];
      match callback
      case CloseCallback =>
        HandleClose(current.value);
      case ErrorCallback =>
      case ReadCallback =>
        if eof {
          HandleClose(current.value);
        }
      case WriteCallback =>
        if drained {
          conns := conns[current.value := Drained(conns[current.value])];
        }
    }

    /** handleEvent of one active channel, without user calls from its callbacks. */
    method HandleEvent(id: nat, eof: bool, drained: bool)
      requires Inv(View()) && Possible(View(), Begin(id))
      modifies this
      ensures Inv(View()) && current == None
      ensures BeginsEvent(old(View()), id) && View() == AfterEvent(Apply(old(View()), Begin(id)), eof, drained)
    {
      hide Inv, Possible, Apply, Asserts;
      ghost var start := View();
      BeginStarts(start, id);
      StepKeeps(start, Begin(id));
      current := Some(id);
      callbacks := Dispatched(active[id]);
      active := active - {id};
      while callbacks != []
        invariant Inv(View()) && place.Handling? && current.Some? && current.value in conns
        invariant AfterEvent(View(), eof, drained) == AfterEvent(Apply(start, Begin(id)), eof, drained)
        decreases |callbacks|
      {
        CallbackIsNext(View(), eof, drained);
        RunCallback(eof, drained);
      }
      EndIsLast(View(), eof, drained);
      current := None;
    }

    method Shutdown(id: nat)
      requires Possible(View(), Event.Shutdown(id))
      modifies this`conns
      ensures View() == Apply(old(View()), Event.Shutdown(id))
    {
      if conns[id].state == Connected {
        conns := conns[id := conns[id].(state := Disconnecting)];
      }
    }

    method ForceClose(id: nat)
      requires Possible(View(), Event.ForceClose(id))
      modifies this`conns, this`queue
      ensures View() == Apply(old(View()), Event.ForceClose(id))
    {
      if conns[id].state == Connected || conns[id].state == Disconnecting {
        conns := conns[id := conns[id].(state := Disconnecting)];
        queue := queue + [Functor.ForcedClose(id)];
      }
    }

    /** connectDestroyed: Channel::remove asserts that no events are enabled, the loop that the channel is
        not active but for the current one, the poller that it knows the channel. */
    method ConnectDestroyed(id: nat)
      requires id in conns && DestroyAsserts(conns[id]) && RemoveAsserts(View(), id)
      modifies this`conns
      ensures conns == old(conns)[id := Destroyed(old(conns[id]))]
    {
      var c := conns[id];
      if c.state == Connected {
        c := c.(state := Disconnected);
        c := c.(channel := c.channel.AllDisabled());
      }
      assert c.channel.Idle() && c.channel.index != NEW;
      c := c.(channel := c.channel.Removed(), destroys := c.destroys + 1);
      conns := conns[id := c];
    }

    method RunFunctor()
      requires Possible(View(), Event.RunFunctor) && Asserts(View(), Event.RunFunctor)
      modifies this
      ensures View() == Apply(old(View()), Event.RunFunctor)
    {
      hide Interest.AllDisabled, Interest.Removed;
      var f := batch[0];
      batch := batch[1..];
      match f
      case ForcedClose(id) =>
        if conns[id].state == Connected || conns[id].state == Disconnecting {
          HandleClose(id);
        }
      case Destruction(id) =>
        ConnectDestroyed(id);
    }

    /** The destructor's loop over the map: safe, the connections' own destructors included, exactly when
        all of them are connected and, inside an event, nothing else of the server was polled. */
    method Destruct()
      requires CarefullyReached(View()) && AllConnected(View())
      requires place.Handling? ==> NoOtherPolled(View())
      modifies this`conns, this`connections
      ensures connections == {}
      ensures conns.Keys == old(conns).Keys
      ensures forall id :: id in conns ==>
        conns[id] == if id in old(connections) then Destroyed(old(conns)[id]) else old(conns)[id]
      ensures forall id :: id in old(connections) ==> id in conns && ReleaseAsserts(conns[id])
    {
      hide Destroyed, DestroyAsserts, ReleaseAsserts, CarefullyReached;
      DestructorSafeIff(View());
      ghost var was, all := conns, connections;
      while connections != {}
        invariant connections <= all
        invariant conns.Keys == was.Keys
        invariant forall id :: id in all ==>
          id in was && DestroyAsserts(was[id]) && RemoveAsserts(View(), id) && ReleaseAsserts(Destroyed(was[id]))
        invariant forall id :: id in conns ==>
          conns[id] == if id in all - connections then Destroyed(was[id]) else was[id]
        decreases |connections|
      {
        var id :| id in connections;
        connections := connections - {id};
        ConnectDestroyed(id);
      }
    }
  }

  predicate BeginsEvent(s: State, id: nat) {
    Possible(s, Begin(id)) && Apply(s, Begin(id)).place.Handling? && id in s.conns
  }

  lemma BeginStarts(s: State, id: nat)
    requires Inv(s) && Possible(s, Begin(id))
    ensures BeginsEvent(s, id) && Careful(s, Begin(id)) && Apply(s, Begin(id)).current == Some(id)
    ensures id in s.active
    ensures Apply(s, Begin(id)) ==
      s.(active := s.active - {id}, current := Some(id), callbacks := Dispatched(s.active[id]))
  {
  }

  lemma CallbackIsNext(s: State, eof: bool, drained: bool)
    requires Inv(s) && s.place.Handling? && s.current.Some? && s.current.value in s.conns && s.callbacks != []
    ensures Possible(s, RunCallback(eof, drained)) && Asserts(s, RunCallback(eof, drained))
    ensures var t := Apply(s, RunCallback(eof, drained));
      && Inv(t) && t.place.Handling? && t.current == s.current && s.current.value in t.conns
      && |t.callbacks| == |s.callbacks| - 1
      && AfterEvent(t, eof, drained) == AfterEvent(s, eof, drained)
  {
    AssertsHold(s, RunCallback(eof, drained));
    StepKeeps(s, RunCallback(eof, drained));
  }

  lemma EndIsLast(s: State, eof: bool, drained: bool)
    requires Inv(s) && s.place.Handling? && s.current.Some? && s.current.value in s.conns && s.callbacks == []
    ensures AfterEvent(s, eof, drained) == s.(current := None) && Inv(s.(current := None))
  {
    StepKeeps(s, End);
  }
}
