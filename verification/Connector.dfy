/** The Connector: which sockets it owns, and how long it waits between attempts. Every loop callback,
    timer expiry and queued functor is one step. */
module Connectors {
  import opened Options
  import opened EPollPollers

  const MAX_RETRY_DELAY_MS := 30000
  const INIT_RETRY_DELAY_MS := 500

  const EINTR := 4
  const EAGAIN := 11
  const EADDRINUSE := 98
  const EADDRNOTAVAIL := 99
  const ENETUNREACH := 101
  const EISCONN := 106
  const ECONNREFUSED := 111
  const EINPROGRESS := 115

  datatype Phase = Disconnected | Connecting | Connected

  /** What connect(2) says about a new socket. */
  datatype Outcome = InProgress | TryAgain | Hopeless

  /** The errno of connect(2), 0 for success, as the switch in connect groups them. */
  function OutcomeOf(errno: int): Outcome {
    if errno in {0, EINPROGRESS, EINTR, EISCONN} then InProgress
    else if errno in {EAGAIN, EADDRINUSE, EADDRNOTAVAIL, ECONNREFUSED, ENETUNREACH} then TryAgain
    else Hopeless
  }

  lemma OutcomeOfErrno(errno: int)
    ensures OutcomeOf(errno).InProgress? <==> errno == 0 || errno == 115 || errno == 4 || errno == 106
    ensures OutcomeOf(errno).TryAgain? <==>
      errno == 11 || errno == 98 || errno == 99 || errno == 111 || errno == 101
  {
  }

  /** What has been done with a socket: how often closed, how often handed to the callback. */
  datatype Fate = Fate(closed: nat, handed: nat)

  datatype State = State(
    phase: Phase,
    connect: bool,
    channel: Option<nat>,     // the socket the channel watches
    retryDelay: nat,
    resets: nat,              // resetChannel functors queued
    stops: nat,               // stopInLoop functors queued
    timers: nat,              // retry timers pending
    delays: seq<nat>,         // delays asked for since construction or restart
    sockets: seq<Fate>)       // every socket ever opened

  const INIT := State(Disconnected, false, None, INIT_RETRY_DELAY_MS, 0, 0, 0, [], [])

  datatype Event =
    | Start(outcome: Outcome)
    | TimerFires(outcome: Outcome)
    | Restart(outcome: Outcome)
    | Stop
    | StopInLoop
    | ResetChannel
    | HandleEvent(revents: Mask, usable: bool) // usable: no SO_ERROR and not connected to itself

  // ---------- Steps ----------

  function Closed(s: State, fd: nat): State
    requires fd < |s.sockets|
  {
    s.(sockets := s.sockets[fd := s.sockets[fd].(closed := s.sockets[fd].closed + 1)])
  }

  function Handed(s: State, fd: nat): State
    requires fd < |s.sockets|
  {
    s.(sockets := s.sockets[fd := s.sockets[fd].(handed := s.sockets[fd].handed + 1)])
  }

  function Min(a: nat, b: nat): nat {
    if a < b then a else b
  }

  /** retry. */
  function Retried(s: State, fd: nat): State
    requires fd < |s.sockets|
  {
    var t := Closed(s, fd).(phase := Disconnected);
    if t.connect then
      t.(timers := t.timers + 1, delays := t.delays + [t.retryDelay],
         retryDelay := Min(2 * t.retryDelay, MAX_RETRY_DELAY_MS))
    else t
  }

  /** The channel gives up its socket; it is itself reset by a functor. */
  function Dropped(s: State): State
    requires s.channel.Some? && s.channel.value < |s.sockets|
  {
    Retried(s.(resets := s.resets + 1), s.channel.value)
  }

  /** startInLoop on a new socket. */
  function Started(s: State, outcome: Outcome): State {
    if !s.connect then s
    else
      var fd := |s.sockets|;
      var t := s.(sockets := s.sockets + [Fate(0, 0)]);
      match outcome
      case InProgress => t.(phase := Connecting, channel := Some(fd))
      case TryAgain => Retried(t, fd)
      case Hopeless => Closed(t, fd)
  }

  predicate ChannelUsable(s: State) {
    s.phase.Connecting? ==> s.channel.Some? && s.channel.value < |s.sockets|
  }

  /** handleWrite. */
  function Written(s: State, usable: bool): State
    requires ChannelUsable(s)
  {
    if !s.phase.Connecting? then s
    else if !usable then Dropped(s)
    else
      var t := s.(resets := s.resets + 1, phase := Connected);
      if s.connect then Handed(t, s.channel.value) else Closed(t, s.channel.value)
  }

  /** handleError. */
  function Failed(s: State): State
    requires ChannelUsable(s)
  {
    if s.phase.Connecting? then Dropped(s) else s
  }

  function Callbacks(s: State, callbacks: seq<Callback>, usable: bool): State
    requires ChannelUsable(s)
    decreases |callbacks|
  {
    if callbacks == [] then s
    else
      var t := match callbacks[0]
        case ErrorCallback => Failed(s)
        case WriteCallback => Written(s, usable)
        case _ => s;
      Callbacks(t, callbacks[1..], usable)
  }

  /** What can happen next. */
  predicate Possible(s: State, e: Event) {
    match e
    case Start(_) => true
    case TimerFires(_) => s.timers > 0
    case Restart(_) => true
    case Stop => true
    case StopInLoop => s.stops > 0
    case ResetChannel => s.resets > 0
    case HandleEvent(_, _) => s.phase.Connecting?
  }

  /** The assert of startInLoop, with restart called on a connected connector only, and the assert of
      connecting. */
  predicate Safe(s: State, e: Event) {
    match e
    case Start(outcome) => s.phase.Disconnected? && (outcome.InProgress? ==> s.channel.None?)
    case TimerFires(outcome) => s.phase.Disconnected? && (s.connect && outcome.InProgress? ==> s.channel.None?)
    case Restart(outcome) => s.phase.Connected? && (outcome.InProgress? ==> s.channel.None?)
    case _ => true
  }

  function Apply(s: State, e: Event): State
    requires Possible(s, e) && Safe(s, e) && ChannelUsable(s)
  {
    match e
    case Start(outcome) => Started(s.(connect := true), outcome)
    case TimerFires(outcome) => Started(s.(timers := s.timers - 1), outcome)
    case Restart(outcome) =>
      Started(s.(phase := Disconnected, retryDelay := INIT_RETRY_DELAY_MS, delays := [], connect := true), outcome)
    case Stop => s.(connect := false, stops := s.stops + 1)
    case StopInLoop => if s.phase.Connecting? then Dropped(s.(stops := s.stops - 1)) else s.(stops := s.stops - 1)
    case ResetChannel => s.(resets := s.resets - 1, channel := None)
    case HandleEvent(revents, usable) => Callbacks(s, Dispatched(revents), usable)
  }

  ghost predicate Run(s0: State, es: seq<Event>, s: State)
    decreases |es|
  {
    if es == [] then s == s0
    else
      && Possible(s0, es[0]) && Safe(s0, es[0]) && ChannelUsable(s0)
      && Run(Apply(s0, es[0]), es[1..], s)
  }

  // ---------- Invariant ----------

  function Pow2(k: nat): nat {
    if k == 0 then 1 else 2 * Pow2(k - 1)
  }

  /** The delay before retry number k, counted from 0. */
  function Backoff(k: nat): nat {
    Min(INIT_RETRY_DELAY_MS * Pow2(k), MAX_RETRY_DELAY_MS)
  }

  /** The one socket still to be settled is the one being connected. */
  predicate Owned(s: State, fd: nat) {
    s.phase.Connecting? && s.channel == Some(fd)
  }

  ghost predicate Ledger(s: State) {
    && (s.channel.Some? ==> s.channel.value < |s.sockets|)
    && (forall fd :: 0 <= fd < |s.sockets| ==>
          s.sockets[fd].closed + s.sockets[fd].handed == if Owned(s, fd) then 0 else 1)
  }

  ghost predicate Channels(s: State) {
    && s.resets <= 1
    && (s.phase.Connecting? ==> s.resets == 0)
    && (s.channel.Some? <==> s.phase.Connecting? || s.resets == 1)
  }

  ghost predicate Delays(s: State) {
    && s.retryDelay == Backoff(|s.delays|)
    && forall k :: 0 <= k < |s.delays| ==> s.delays[k] == Backoff(k)
  }

  ghost predicate Inv(s: State) {
    Ledger(s) && Channels(s) && Delays(s)
  }

  lemma BackoffDoubles(k: nat)
    ensures Backoff(k + 1) == Min(2 * Backoff(k), MAX_RETRY_DELAY_MS)
  {
  }

  lemma RetriedDelays(s: State, fd: nat)
    requires fd < |s.sockets| && Delays(s)
    ensures Delays(Retried(s, fd))
  {
    hide Backoff;
    BackoffDoubles(|s.delays|);
  }

  lemma SameDelays(s: State, t: State)
    requires s.delays == t.delays && s.retryDelay == t.retryDelay
    ensures Delays(s) <==> Delays(t)
  {
  }

  lemma DroppedKeeps(s: State)
    requires Inv(s) && s.phase.Connecting?
    ensures Inv(Dropped(s)) && Dropped(s).phase.Disconnected?
  {
    hide Delays;
    var t := s.(resets := s.resets + 1);
    SameDelays(s, t);
    RetriedDelays(t, s.channel.value);
  }

  lemma StartedKeeps(s: State, outcome: Outcome)
    requires Inv(s) && s.phase.Disconnected?
    requires s.connect && outcome.InProgress? ==> s.channel.None?
    ensures Inv(Started(s, outcome))
  {
    hide Backoff;
    BackoffDoubles(|s.delays|);
  }

  lemma WrittenKeeps(s: State, usable: bool)
    requires Inv(s)
    ensures Inv(Written(s, usable))
    ensures !Written(s, usable).phase.Connecting?
  {
    hide Delays;
    if s.phase.Connecting? && !usable {
      DroppedKeeps(s);
    } else {
      SameDelays(s, Written(s, usable));
    }
  }

  lemma {:induction false} CallbacksKeep(s: State, callbacks: seq<Callback>, usable: bool)
    requires Inv(s)
    ensures Inv(Callbacks(s, callbacks, usable))
    decreases |callbacks|
  {
    hide Delays, Dropped;
    if callbacks != [] {
      match callbacks[0]
      case ErrorCallback =>
        if s.phase.Connecting? {
          DroppedKeeps(s);
        }
        CallbacksKeep(Failed(s), callbacks[1..], usable);
      case WriteCallback =>
        WrittenKeeps(s, usable);
        CallbacksKeep(Written(s, usable), callbacks[1..], usable);
      case _ =>
        CallbacksKeep(s, callbacks[1..], usable);
    }
  }

  lemma StepKeeps(s: State, e: Event)
    requires Inv(s) && Possible(s, e) && Safe(s, e)
    ensures Inv(Apply(s, e))
  {
    hide Started, Dropped, Callbacks, Dispatched;
    match e
    case Start(outcome) =>
      StartedKeeps(s.(connect := true), outcome);
    case TimerFires(outcome) =>
      StartedKeeps(s.(timers := s.timers - 1), outcome);
    case Restart(outcome) =>
      var t := s.(phase := Disconnected, retryDelay := INIT_RETRY_DELAY_MS, delays := [], connect := true);
      StartedKeeps(t, outcome);
    case StopInLoop =>
      if s.phase.Connecting? {
        DroppedKeeps(s.(stops := s.stops - 1));
      }
    case HandleEvent(revents, usable) =>
      CallbacksKeep(s, Dispatched(revents), usable);
    case _ =>
  }

  lemma {:induction false} RunKeeps(s: State, es: seq<Event>, t: State)
    requires Inv(s) && Run(s, es, t)
    ensures Inv(t)
    decreases |es|
  {
    hide Inv, Apply, Possible, Safe;
    if es != [] {
      StepKeeps(s, es[0]);
      RunKeeps(Apply(s, es[0]), es[1..], t);
    }
  }

  // ---------- Results over whole runs ----------

  predicate Unsettled(f: Fate) {
    f.closed == 0 && f.handed == 0
  }

  /** In every reachable state a socket that is neither closed nor handed over exists exactly when the
      connector is connecting, it is the one the channel watches, and every other socket was closed once
      or handed over once, never both. The delays asked for since construction or restart are 500 ms,
      doubling up to 30 s. */
  lemma SocketLedger(es: seq<Event>, s: State)
    requires Run(INIT, es, s)
    ensures s.phase.Connecting? <==> exists fd :: 0 <= fd < |s.sockets| && Unsettled(s.sockets[fd])
    ensures forall fd :: 0 <= fd < |s.sockets| && Unsettled(s.sockets[fd]) ==> s.channel == Some(fd)
    ensures forall fd :: 0 <= fd < |s.sockets| && !Unsettled(s.sockets[fd]) ==>
      s.sockets[fd] == Fate(1, 0) || s.sockets[fd] == Fate(0, 1)
    ensures s.retryDelay == Min(500 * Pow2(|s.delays|), 30000)
    ensures forall k :: 0 <= k < |s.delays| ==> s.delays[k] == Min(500 * Pow2(k), 30000)
  {
    RunKeeps(INIT, es, s);
    if s.phase.Connecting? {
      assert Unsettled(s.sockets[s.channel.value]);
    }
  }

  /** The assert of handleWrite at each write callback of one event: a connector no longer connecting
      has been disconnected by the error callback before it. */
  predicate CallbacksSafe(s: State, callbacks: seq<Callback>, usable: bool)
    requires ChannelUsable(s)
    decreases |callbacks|
  {
    if callbacks == [] then true
    else
      match callbacks[0]
      case ErrorCallback => CallbacksSafe(Failed(s), callbacks[1..], usable)
      case WriteCallback => !s.phase.Connected? && CallbacksSafe(Written(s, usable), callbacks[1..], usable)
      case _ => CallbacksSafe(s, callbacks[1..], usable)
  }

  /** At most one write callback, and it comes last. */
  predicate WriteLast(callbacks: seq<Callback>) {
    forall k :: 0 <= k < |callbacks| - 1 ==> callbacks[k] != WriteCallback
  }

  lemma {:induction false} WriteLastIsSafe(s: State, callbacks: seq<Callback>, usable: bool)
    requires ChannelUsable(s) && !s.phase.Connected? && WriteLast(callbacks)
    ensures CallbacksSafe(s, callbacks, usable)
    decreases |callbacks|
  {
    hide Dropped, Handed, Closed;
    if callbacks != [] {
      var rest := callbacks[1..];
      match callbacks[0]
      case ErrorCallback =>
        assert Failed(s).phase.Disconnected? by { FailedDisconnects(s); }
        WriteLastIsSafe(Failed(s), rest, usable);
      case WriteCallback =>
        assert rest == [];
      case _ =>
        WriteLastIsSafe(s, rest, usable);
    }
  }

  lemma FailedDisconnects(s: State)
    requires ChannelUsable(s) && !s.phase.Connected?
    ensures Failed(s).phase.Disconnected?
  {
  }

  lemma EventIsSafe(es: seq<Event>, s: State, revents: Mask, usable: bool)
    requires Run(INIT, es, s) && Possible(s, HandleEvent(revents, usable))
    ensures ChannelUsable(s) && CallbacksSafe(s, Dispatched(revents), usable)
  {
    hide CallbacksSafe, Has;
    RunKeeps(INIT, es, s);
    WriteLastIsSafe(s, Dispatched(revents), usable);
  }

  // ---------- One event ----------

  lemma {:induction false} CallbacksConcat(s: State, a: seq<Callback>, b: seq<Callback>, usable: bool)
    requires ChannelUsable(s)
    ensures ChannelUsable(Callbacks(s, a, usable))
    ensures Callbacks(s, a + b, usable) == Callbacks(Callbacks(s, a, usable), b, usable)
    decreases |a|
  {
    hide Dropped, Handed, Closed;
    if a == [] {
      assert a + b == b;
    } else {
      assert (a + b)[0] == a[0] && (a + b)[1..] == a[1..] + b;
      StillUsable(s, usable);
      match a[0]
      case ErrorCallback => CallbacksConcat(Failed(s), a[1..], b, usable);
      case WriteCallback => CallbacksConcat(Written(s, usable), a[1..], b, usable);
      case _ => CallbacksConcat(s, a[1..], b, usable);
    }
  }

  lemma StillUsable(s: State, usable: bool)
    requires ChannelUsable(s)
    ensures ChannelUsable(Failed(s)) && ChannelUsable(Written(s, usable))
  {
  }

  /** One event amounts to an optional handleError and then an optional handleWrite. */
  lemma EventIsTwoCallbacks(s: State, revents: Mask, usable: bool)
    requires ChannelUsable(s)
    ensures
      var t := if Has(revents, POLLERR | POLLNVAL) then Failed(s) else s;
      ChannelUsable(t) &&
      Callbacks(s, Dispatched(revents), usable) == if Has(revents, POLLOUT) then Written(t, usable) else t
  {
    hide Has, Dropped, Written, Failed;
    StillUsable(s, usable);
    var close := if Has(revents, POLLHUP) && !Has(revents, POLLIN) then [CloseCallback] else [];
    var error := if Has(revents, POLLERR | POLLNVAL) then [ErrorCallback] else [];
    var read := if Has(revents, POLLIN | POLLPRI | POLLRDHUP) then [ReadCallback] else [];
    var write := if Has(revents, POLLOUT) then [WriteCallback] else [];
    assert Dispatched(revents) == close + error + read + write;
    CallbacksConcat(s, close + error + read, write, usable);
    CallbacksConcat(s, close + error, read, usable);
    CallbacksConcat(s, close, error, usable);
  }

  // ---------- Which sockets are handed over ----------

  /** A write without an error on the channel's socket, found usable, while a connection is wanted. */
  predicate Welcome(s: State, e: Event) {
    && e.HandleEvent? && s.phase.Connecting? && s.connect && e.usable
    && Has(e.revents, POLLOUT) && !Has(e.revents, POLLERR | POLLNVAL)
  }

  /** What one event on the watched channel does to its socket: an error closes it, and so does a write unless
      it is usable and wanted, when it is handed over; what is closed with a connection still wanted is
      retried after the current delay. */
  lemma EventSettles(s: State, revents: Mask, usable: bool)
    requires s.phase.Connecting? && s.channel.Some? && s.channel.value < |s.sockets|
    requires s.sockets[s.channel.value] == Fate(0, 0)
    ensures var t := Callbacks(s, Dispatched(revents), usable);
      var failed, written := Has(revents, POLLERR | POLLNVAL), Has(revents, POLLOUT);
      var handed, again := !failed && written && usable && s.connect, failed || (written && !usable);
      && t.connect == s.connect && t.channel == s.channel
      && t.phase == (if again then Disconnected else if written then Connected else Connecting)
      && t.sockets == (if !failed && !written then s.sockets
                       else s.sockets[s.channel.value := if handed then Fate(0, 1) else Fate(1, 0)])
      && t.timers == s.timers + (if again && s.connect then 1 else 0)
      && t.delays == s.delays + (if again && s.connect then [s.retryDelay] else [])
  {
    EventIsTwoCallbacks(s, revents, usable);
    hide Has;
  }

  /** The sockets handed over in a run, in order. */
  function Handovers(s: State, es: seq<Event>): seq<nat>
    decreases |es|
  {
    if es == [] || !(Possible(s, es[0]) && Safe(s, es[0]) && ChannelUsable(s)) then []
    else
      (if Welcome(s, es[0]) && s.channel.Some? then [s.channel.value] else []) + Handovers(Apply(s, es[0]), es[1..])
  }

  /** A connecting connector watches its last socket. */
  predicate WatchesLast(s: State) {
    s.phase.Connecting? ==> s.channel.Some? && s.channel.value + 1 == |s.sockets|
  }

  function HandedIn(sockets: seq<Fate>, fd: nat): nat {
    if fd < |sockets| then sockets[fd].handed else 0
  }

  lemma EventHandsOver(s: State, e: Event, fd: nat)
    requires Inv(s) && WatchesLast(s) && Possible(s, e) && e.HandleEvent?
    ensures HandedIn(Apply(s, e).sockets, fd) ==
      HandedIn(s.sockets, fd) + if Welcome(s, e) && s.channel == Some(fd) then 1 else 0
    ensures WatchesLast(Apply(s, e)) && |s.sockets| == |Apply(s, e).sockets|
  {
    WatchedIsFresh(s);
    EventSettles(s, e.revents, e.usable);
    hide Callbacks, Dispatched, Has, Inv;
  }

  lemma WatchedIsFresh(s: State)
    requires Ledger(s) && s.phase.Connecting? && s.channel.Some?
    ensures s.channel.value < |s.sockets| && s.sockets[s.channel.value] == Fate(0, 0)
  {
    assert Owned(s, s.channel.value);
  }

  /** One step hands over the watched socket if it is welcome, and no other. */
  lemma StepHandsOver(s: State, e: Event, fd: nat)
    requires Inv(s) && WatchesLast(s) && Possible(s, e) && Safe(s, e)
    ensures HandedIn(Apply(s, e).sockets, fd) ==
      HandedIn(s.sockets, fd) + if Welcome(s, e) && s.channel == Some(fd) then 1 else 0
    ensures WatchesLast(Apply(s, e)) && |s.sockets| <= |Apply(s, e).sockets|
  {
    if e.HandleEvent? {
      EventHandsOver(s, e, fd);
    } else {
      hide Callbacks, Dispatched, Has, Delays;
    }
  }

  lemma {:induction false} RunHandsOver(s: State, es: seq<Event>, t: State, fd: nat)
    requires Inv(s) && WatchesLast(s) && Run(s, es, t)
    ensures HandedIn(t.sockets, fd) == HandedIn(s.sockets, fd) + multiset(Handovers(s, es))[fd]
    ensures WatchesLast(t)
    decreases |es|
  {
    if es != [] {
      var u := Apply(s, es[0]);
      StepKeeps(s, es[0]);
      StepHandsOver(s, es[0], fd);
      assert Welcome(s, es[0]) ==> s.channel.Some?;
      hide Inv, Apply, Possible, Safe, Welcome, WatchesLast;
      RunHandsOver(u, es[1..], t, fd);
    }
  }

  /** Over whole runs a socket was handed over exactly if a usable write event came for it while a connection
      was wanted, each time one did. */
  lemma HandedExactlyIfWelcome(es: seq<Event>, s: State, fd: nat)
    requires Run(INIT, es, s) && fd < |s.sockets|
    ensures s.sockets[fd].handed == multiset(Handovers(INIT, es))[fd] <= 1
  {
    RunHandsOver(INIT, es, s, fd);
    SocketLedger(es, s);
  }

  /** A connector that becomes connected has handed over its last socket if it wanted the connection, and
      closed it otherwise. */
  lemma BecomesConnected(es: seq<Event>, s: State, e: Event)
    requires Run(INIT, es, s) && Possible(s, e) && Safe(s, e) && ChannelUsable(s)
    requires !s.phase.Connected? && Apply(s, e).phase.Connected?
    ensures var t := Apply(s, e);
      |t.sockets| == |s.sockets| > 0 && t.sockets[|t.sockets| - 1] == if s.connect then Fate(0, 1) else Fate(1, 0)
  {
    RunKeeps(INIT, es, s);
    RunHandsOver(INIT, es, s, 0);
    OnlyEventsConnect(s, e);
    WatchedIsFresh(s);
    hide Run, Callbacks, Dispatched, Has, Inv, Safe;
    EventSettles(s, e.revents, e.usable);
  }

  lemma OnlyEventsConnect(s: State, e: Event)
    requires Possible(s, e) && Safe(s, e) && ChannelUsable(s)
    requires !s.phase.Connected? && Apply(s, e).phase.Connected?
    ensures e.HandleEvent?
  {
    hide Callbacks, Dispatched;
  }

  // ---------- After a stop ----------

  predicate NoStarts(es: seq<Event>) {
    forall k :: 0 <= k < |es| ==> !es[k].Start? && !es[k].Restart?
  }

  lemma StepWhileStopped(s: State, e: Event)
    requires Possible(s, e) && Safe(s, e) && ChannelUsable(s) && !s.connect && !e.Start? && !e.Restart?
    ensures var t := Apply(s, e);
      !t.connect && |t.sockets| == |s.sockets| && t.timers <= s.timers && t.delays == s.delays
  {
    if e.HandleEvent? {
      hide Dispatched;
      CallbacksWhileStopped(s, Dispatched(e.revents), e.usable);
    }
  }

  lemma {:induction false} CallbacksWhileStopped(s: State, callbacks: seq<Callback>, usable: bool)
    requires ChannelUsable(s) && !s.connect
    ensures var t := Callbacks(s, callbacks, usable);
      !t.connect && |t.sockets| == |s.sockets| && t.timers <= s.timers && t.delays == s.delays
    decreases |callbacks|
  {
    if callbacks != [] {
      match callbacks[0]
      case ErrorCallback => CallbacksWhileStopped(Failed(s), callbacks[1..], usable);
      case WriteCallback => CallbacksWhileStopped(Written(s, usable), callbacks[1..], usable);
      case _ => CallbacksWhileStopped(s, callbacks[1..], usable);
    }
  }

  lemma {:induction false} RunWhileStopped(s: State, es: seq<Event>, t: State)
    requires Run(s, es, t) && !s.connect && NoStarts(es)
    ensures !t.connect && |t.sockets| == |s.sockets| && t.timers <= s.timers && t.delays == s.delays
    decreases |es|
  {
    hide Apply, Possible, Safe, ChannelUsable;
    if es != [] {
      StepWhileStopped(s, es[0]);
      RunWhileStopped(Apply(s, es[0]), es[1..], t);
    }
  }

  /** After a stop no socket is opened and no retry asked for until the next start or restart. */
  lemma NoAttemptAfterStop(s: State, es: seq<Event>, t: State)
    requires ChannelUsable(s) && Run(Apply(s, Stop), es, t) && NoStarts(es)
    ensures |t.sockets| == |s.sockets| && t.delays == s.delays && t.timers <= s.timers
  {
    RunWhileStopped(Apply(s, Stop), es, t);
  }

  /** The queued half of a stop gives up the attempt in progress: its socket is closed, and retried only if a
      start came in between. */
  lemma StopGivesUp(s: State)
    requires Possible(s, StopInLoop) && ChannelUsable(s)
    ensures var t := Apply(s, StopInLoop);
      && !t.phase.Connecting? && t.connect == s.connect && t.channel == s.channel
      && (s.phase.Connecting? ==>
            var was := s.sockets[s.channel.value];
            && t.sockets == s.sockets[s.channel.value := was.(closed := was.closed + 1)]
            && t.timers == s.timers + (if s.connect then 1 else 0))
      && (!s.phase.Connecting? ==> t.sockets == s.sockets && t.timers == s.timers && t.phase == s.phase)
  {
  }

  lemma {:induction false} StaysGivenUp(s: State, es: seq<Event>, t: State)
    requires Run(s, es, t) && !s.connect && NoStarts(es)
    ensures !s.phase.Connecting? ==> !t.phase.Connecting?
    ensures (exists k :: 0 <= k < |es| && es[k].StopInLoop?) ==> !t.phase.Connecting?
    decreases |es|
  {
    if es != [] {
      var u := Apply(s, es[0]);
      StepWhileStopped(s, es[0]);
      StoppedConnects(s, es[0]);
      hide Apply, Possible, Safe, ChannelUsable;
      StaysGivenUp(u, es[1..], t);
      if k :| 0 < k < |es| && es[k].StopInLoop? {
        assert es[1..][k - 1].StopInLoop?;
      }
    }
  }

  lemma StoppedConnects(s: State, e: Event)
    requires Possible(s, e) && Safe(s, e) && ChannelUsable(s) && !s.connect && !e.Start? && !e.Restart?
    ensures !s.phase.Connecting? || e.StopInLoop? ==> !Apply(s, e).phase.Connecting?
  {
    hide Dispatched;
  }

  /** A stop carried out ends the attempt for good: until the next start or restart nothing is connecting. */
  lemma StopEndsAttempts(s: State, es: seq<Event>, t: State, k: nat)
    requires ChannelUsable(s) && Run(Apply(s, Stop), es, t) && NoStarts(es)
    requires k < |es| && es[k].StopInLoop?
    ensures !t.phase.Connecting?
  {
    StaysGivenUp(Apply(s, Stop), es, t);
  }

  /** What an attempt does: it opens one socket if a connection is wanted, watches it while connect is in
      progress, closes it otherwise, and asks for a retry after the current delay if connect may be tried again. */
  lemma AttemptMade(s: State, e: Event)
    requires Possible(s, e) && Safe(s, e) && ChannelUsable(s) && (e.Start? || e.TimerFires? || e.Restart?)
    ensures var t, wanted := Apply(s, e), s.connect || !e.TimerFires?;
      var watched, again := wanted && e.outcome.InProgress?, wanted && e.outcome.TryAgain?;
      && t.connect == wanted
      && t.sockets == s.sockets + (if watched then [Fate(0, 0)] else if wanted then [Fate(1, 0)] else [])
      && t.phase == (if watched then Connecting else Disconnected)
      && t.channel == (if watched then Some(|s.sockets|) else s.channel)
      && t.timers == s.timers + (if again then 1 else 0) - (if e.TimerFires? then 1 else 0)
      && t.delays == (if e.Restart? then [] else s.delays)
                     + (if again then [if e.Restart? then 500 else s.retryDelay] else [])
  {
    assert s.sockets + [] == s.sockets && s.delays + [] == s.delays;
  }

  /** A restart opens one socket and counts delays from the beginning. */
  lemma RestartBeginsAnew(s: State, outcome: Outcome)
    requires Safe(s, Restart(outcome)) && ChannelUsable(s)
    ensures var t := Apply(s, Restart(outcome));
      && t.connect && |t.sockets| == |s.sockets| + 1
      && t.delays == (if outcome.TryAgain? then [500] else [])
      && t.retryDelay == (if outcome.TryAgain? then 1000 else 500)
      && t.timers == s.timers + (if outcome.TryAgain? then 1 else 0)
      && (t.phase.Connecting? <==> outcome.InProgress?)
  {
  }

  // ---------- Retry timers ----------

  /** A run in which start is called only while no retry timer is pending. */
  ghost predicate PatientRun(s0: State, es: seq<Event>, s: State)
    decreases |es|
  {
    if es == [] then s == s0
    else
      && Possible(s0, es[0]) && Safe(s0, es[0]) && ChannelUsable(s0) && (es[0].Start? ==> s0.timers == 0)
      && PatientRun(Apply(s0, es[0]), es[1..], s)
  }

  /** At most one retry timer, and none unless disconnected. */
  predicate OneTimer(s: State) {
    s.timers <= 1 && (s.timers == 1 ==> s.phase.Disconnected?)
  }

  lemma {:induction false} CallbacksOneTimer(s: State, callbacks: seq<Callback>, usable: bool)
    requires ChannelUsable(s) && OneTimer(s)
    ensures OneTimer(Callbacks(s, callbacks, usable))
    decreases |callbacks|
  {
    if callbacks != [] {
      var rest := callbacks[1..];
      match callbacks[0]
      case ErrorCallback => CallbacksOneTimer(Failed(s), rest, usable);
      case WriteCallback => CallbacksOneTimer(Written(s, usable), rest, usable);
      case _ => CallbacksOneTimer(s, rest, usable);
    }
  }

  lemma StepOneTimer(s: State, e: Event)
    requires Possible(s, e) && Safe(s, e) && ChannelUsable(s)
    requires OneTimer(s) && (e.Start? ==> s.timers == 0)
    ensures OneTimer(Apply(s, e))
  {
    hide Callbacks, Dispatched;
    if e.HandleEvent? {
      CallbacksOneTimer(s, Dispatched(e.revents), e.usable);
    }
  }

  lemma {:induction false} RunOneTimer(s: State, es: seq<Event>, t: State)
    requires OneTimer(s) && PatientRun(s, es, t)
    ensures OneTimer(t)
    decreases |es|
  {
    hide Apply, Possible, Safe, ChannelUsable, OneTimer;
    if es != [] {
      StepOneTimer(s, es[0]);
      RunOneTimer(Apply(s, es[0]), es[1..], t);
    }
  }

  /** With start never called while a retry is pending, a retry timer always finds the connector
      disconnected: the assert of startInLoop holds. */
  lemma TimerFindsDisconnected(es: seq<Event>, s: State, outcome: Outcome)
    requires PatientRun(INIT, es, s) && Possible(s, TimerFires(outcome))
    ensures s.phase.Disconnected? && s.timers == 1
  {
    RunOneTimer(INIT, es, s);
  }

  /** Some patient continuation lets a timer fire while the connector is not disconnected. */
  ghost predicate TimerSurprises(s: State) {
    exists es, t :: PatientRun(s, es, t) && t.timers > 0 && !t.phase.Disconnected?
  }

  /** The exact condition at a call of start: no timer will ever fire in the wrong state if and only if
      none is pending, or the attempt ends at once in an error that is not retried. */
  lemma StartSafeIff(es: seq<Event>, s: State, outcome: Outcome)
    requires PatientRun(INIT, es, s) && Safe(s, Start(outcome)) && ChannelUsable(s)
    ensures !TimerSurprises(Apply(s, Start(outcome))) <==> s.timers == 0 || outcome.Hopeless?
  {
    RunOneTimer(INIT, es, s);
    PatientIsRun(INIT, es, s);
    RunKeeps(INIT, es, s);
    hide Inv, PatientRun, TimerSurprises;
    var t := Apply(s, Start(outcome));
    if s.timers == 0 || outcome.Hopeless? {
      OneTimerNeverSurprises(t);
    } else {
      SecondTimerSurprises(s, outcome);
    }
  }

  lemma {:induction false} PatientIsRun(s: State, es: seq<Event>, t: State)
    requires PatientRun(s, es, t)
    ensures Run(s, es, t)
    decreases |es|
  {
    hide Apply, Possible, Safe, ChannelUsable;
    if es != [] {
      PatientIsRun(Apply(s, es[0]), es[1..], t);
    }
  }

  lemma OneTimerNeverSurprises(s: State)
    requires OneTimer(s)
    ensures !TimerSurprises(s)
  {
    hide PatientRun;
    forall es, t ensures !(PatientRun(s, es, t) && t.timers > 0 && !t.phase.Disconnected?) {
      if PatientRun(s, es, t) {
        RunOneTimer(s, es, t);
      }
    }
  }

  lemma Surprise(s: State, es: seq<Event>, t: State)
    requires PatientRun(s, es, t) && t.timers > 0 && !t.phase.Disconnected?
    ensures TimerSurprises(s)
  {
  }

  lemma OneStepRun(s: State, e: Event)
    requires Possible(s, e) && Safe(s, e) && ChannelUsable(s) && !e.Start?
    ensures PatientRun(s, [e], Apply(s, e))
  {
    hide Apply, Possible, Safe, ChannelUsable;
    assert [e][1..] == [];
    assert PatientRun(Apply(s, e), [], Apply(s, e));
  }

  lemma TwoStepRun(s: State, e: Event, f: Event)
    requires Possible(s, e) && Safe(s, e) && ChannelUsable(s) && !e.Start?
    requires Possible(Apply(s, e), f) && Safe(Apply(s, e), f) && ChannelUsable(Apply(s, e)) && !f.Start?
    ensures PatientRun(s, [e, f], Apply(Apply(s, e), f))
  {
    hide Apply, Possible, Safe, ChannelUsable;
    OneStepRun(Apply(s, e), f);
    assert [e, f][1..] == [f];
  }

  /** With a retry pending, a second attempt is under way, or comes with the first of two timers. */
  lemma SecondTimerSurprises(s: State, outcome: Outcome)
    requires Inv(s) && s.timers > 0 && Safe(s, Start(outcome)) && ChannelUsable(s) && !outcome.Hopeless?
    ensures TimerSurprises(Apply(s, Start(outcome)))
  {
    hide PatientRun, TimerSurprises;
    var t := Apply(s, Start(outcome));
    var fire := TimerFires(InProgress);
    if outcome.InProgress? {
      NoRun(t);
      Surprise(t, [], t);
    } else if t.resets == 0 {
      assert t.channel.None?;
      OneStepRun(t, fire);
      Surprise(t, [fire], Apply(t, fire));
    } else {
      TwoStepRun(t, ResetChannel, fire);
      Surprise(t, [ResetChannel, fire], Apply(Apply(t, ResetChannel), fire));
    }
  }

  lemma NoRun(s: State)
    ensures PatientRun(s, [], s)
  {
  }

  /** A concrete case: a second start while a retry is pending. */
  lemma SecondStart() returns (s: State)
    ensures PatientRun(INIT, [Start(TryAgain)], s) && Safe(s, Start(InProgress)) && ChannelUsable(s)
    ensures TimerSurprises(Apply(s, Start(InProgress)))
  {
    hide PatientRun, TimerSurprises;
    s := Apply(INIT, Start(TryAgain));
    FirstStart(TryAgain);
    StartSafeIff([Start(TryAgain)], s, InProgress);
  }

  lemma FirstStart(outcome: Outcome)
    ensures PatientRun(INIT, [Start(outcome)], Apply(INIT, Start(outcome)))
  {
    hide Apply;
    assert [Start(outcome)][1..] == [];
    assert PatientRun(Apply(INIT, Start(outcome)), [], Apply(INIT, Start(outcome)));
  }

  /** The assert of connecting holds in a disconnected connector exactly when no channel is waiting to
      be reset. */
  lemma ConnectingAssertIff(es: seq<Event>, s: State)
    requires Run(INIT, es, s) && !s.phase.Connecting?
    ensures s.channel.None? <==> s.resets == 0
  {
    RunKeeps(INIT, es, s);
  }

  /** restart from the new-connection callback comes before the reset, and breaks it. */
  lemma RestartFromCallback()
    ensures exists es, s :: Run(INIT, es, s) && s.phase.Connected? && !Safe(s, Restart(InProgress))
  {
    var e1, e2 := Start(InProgress), HandleEvent(POLLOUT, true);
    var s1 := Apply(INIT, e1);
    assert Dispatched(POLLOUT) == [WriteCallback];
    assert [WriteCallback][1..] == [];
    var s2 := Apply(s1, e2);
    assert s2 == Written(s1, true);
    assert Run(s2, [], s2);
    assert [e2][1..] == [] && Run(s1, [e2], s2);
    assert [e1, e2][1..] == [e2] && Run(INIT, [e1, e2], s2);
  }

  // ---------- The code ----------

  /** The connector itself. Results of system calls are parameters; sockets are numbered as they are
      opened. */
  class Connector {
    var phase: Phase
    var connect: bool
    var channel: Option<nat>
    var retryDelay: nat
    var resets: nat
    var stops: nat
    var timers: nat
    ghost var delays: seq<nat>
    var sockets: seq<Fate>    // the kernel's side: every socket ever opened

    ghost function View(): State
      reads this
    {
      State(phase, connect, channel, retryDelay, resets, stops, timers, delays, sockets)
    }

    constructor ()
      ensures View() == INIT
    {
      phase, connect, channel, retryDelay := Disconnected, false, None, INIT_RETRY_DELAY_MS;
      resets, stops, timers, delays, sockets := 0, 0, 0, [], [];
    }

    /** close(2). */
    method CloseSocket(fd: nat)
      requires fd < |sockets|
      modifies this`sockets
      ensures View() == Closed(old(View()), fd)
    {
      sockets := sockets[fd := sockets[fd].(closed := sockets[fd].closed + 1)];
    }

    /** newConnectionCallback. */
    method HandOver(fd: nat)
      requires fd < |sockets|
      modifies this`sockets
      ensures View() == Handed(old(View()), fd)
    {
      sockets := sockets[fd := sockets[fd].(handed := sockets[fd].handed + 1)];
    }

    method Retry(sockfd: nat)
      requires sockfd < |sockets|
      modifies this
      ensures View() == Retried(old(View()), sockfd)
    {
      CloseSocket(sockfd);
      phase := Disconnected;
      if connect {
        timers := timers + 1;
        delays := delays + [retryDelay];
        retryDelay := if retryDelay * 2 < MAX_RETRY_DELAY_MS then retryDelay * 2 else MAX_RETRY_DELAY_MS;
      }
    }

    /** connecting; its requires is its assert. */
    method ConnectingOn(sockfd: nat)
      requires channel == None
      modifies this`phase, this`channel
      ensures phase == Connecting && channel == Some(sockfd)
    {
      phase := Connecting;
      channel := Some(sockfd);
    }

    /** socket(2). */
    method OpenSocket() returns (sockfd: nat)
      modifies this`sockets
      ensures sockfd == |old(sockets)| && sockets == old(sockets) + [Fate(0, 0)]
    {
      sockfd := |sockets|;
      sockets := sockets + [Fate(0, 0)];
    }

    /** savedErrno is that of connect(2), 0 for success. */
    method Connect(savedErrno: int)
      requires connect && (OutcomeOf(savedErrno).InProgress? ==> channel == None)
      modifies this
      ensures View() == Started(old(View()), OutcomeOf(savedErrno))
    {
      var sockfd := OpenSocket();
      if savedErrno == 0 || savedErrno == EINPROGRESS || savedErrno == EINTR || savedErrno == EISCONN {
        ConnectingOn(sockfd);
      } else if savedErrno == EAGAIN || savedErrno == EADDRINUSE || savedErrno == EADDRNOTAVAIL
                || savedErrno == ECONNREFUSED || savedErrno == ENETUNREACH {
        Retry(sockfd);
      } else {
        CloseSocket(sockfd);
      }
    }

    /** startInLoop; its first requires is its assert. */
    method StartInLoop(savedErrno: int)
      requires phase == Disconnected
      requires connect && OutcomeOf(savedErrno).InProgress? ==> channel == None
      modifies this
      ensures View() == Started(old(View()), OutcomeOf(savedErrno))
    {
      if connect {
        Connect(savedErrno);
      }
    }

    method Start(savedErrno: int)
      requires Safe(View(), Event.Start(OutcomeOf(savedErrno))) && ChannelUsable(View())
      modifies this
      ensures View() == Apply(old(View()), Event.Start(OutcomeOf(savedErrno)))
    {
      connect := true;
      StartInLoop(savedErrno);
    }

    method Restart(savedErrno: int)
      requires Safe(View(), Event.Restart(OutcomeOf(savedErrno))) && ChannelUsable(View())
      modifies this
      ensures View() == Apply(old(View()), Event.Restart(OutcomeOf(savedErrno)))
    {
      phase := Disconnected;
      retryDelay := INIT_RETRY_DELAY_MS;
      delays := [];
      connect := true;
      StartInLoop(savedErrno);
    }

    method Stop()
      requires ChannelUsable(View())
      modifies this`connect, this`stops
      ensures View() == Apply(old(View()), Event.Stop)
    {
      connect := false;
      stops := stops + 1;
    }

    method StopInLoop()
      requires stops > 0 && ChannelUsable(View())
      modifies this
      ensures View() == Apply(old(View()), Event.StopInLoop)
    {
      stops := stops - 1;
      if phase == Connecting {
        phase := Disconnected;
        var sockfd := RemoveAndResetChannel();
        Retry(sockfd);
      }
    }

    method RemoveAndResetChannel() returns (sockfd: nat)
      requires channel.Some?
      modifies this`resets
      ensures sockfd == channel.value && resets == old(resets) + 1
    {
      sockfd := channel.value;
      resets := resets + 1;
    }

    method ResetChannel()
      requires resets > 0 && ChannelUsable(View())
      modifies this`resets, this`channel
      ensures View() == Apply(old(View()), Event.ResetChannel)
    {
      resets := resets - 1;
      channel := None;
    }

    /** handleWrite; its last requires is its assert. */
    method HandleWrite(usable: bool)
      requires ChannelUsable(View())
      requires phase != Connecting ==> phase == Disconnected
      modifies this
      ensures old(phase) == Connecting ==>
        var was := old(sockets)[old(channel).value];
        sockets == old(sockets)[old(channel).value :=
          if usable && connect then was.(handed := was.handed + 1) else was.(closed := was.closed + 1)]
      ensures View() == Written(old(View()), usable)
    {
      if phase == Connecting {
        var sockfd := RemoveAndResetChannel();
        if !usable {
          Retry(sockfd);
        } else {
          phase := Connected;
          if connect {
            HandOver(sockfd);
          } else {
            CloseSocket(sockfd);
          }
        }
      } else {
        assert phase == Disconnected;
      }
    }

    method HandleError()
      requires ChannelUsable(View())
      modifies this
      ensures View() == Failed(old(View()))
    {
      if phase == Connecting {
        var sockfd := RemoveAndResetChannel();
        Retry(sockfd);
      }
    }

    /** One event on the watched channel: the connector sets an error and a write callback only. */
    method HandleEvent(revents: Mask, usable: bool)
      requires phase == Connecting && ChannelUsable(View())
      modifies this
      ensures View() == Apply(old(View()), Event.HandleEvent(revents, usable))
    {
      ghost var before := View();
      if Has(revents, POLLERR | POLLNVAL) {
        HandleError();
        FailedDisconnects(before);
      }
      if Has(revents, POLLOUT) {
        HandleWrite(usable);
      }
      EventIsTwoCallbacks(before, revents, usable);
    }
  }
}
