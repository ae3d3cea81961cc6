/** The queue of functors of the event loop and its wake-up through an eventfd. */
module EventLoops {

  /** A functor; running it queues the functors it spawns, in order. */
  datatype Task = Task(id: nat, spawns: seq<Task>)

  /** Where the loop thread is: outside loop(), at the test of quit_, about to poll, handling the
      active channels (the wake-up channel still among them or not), about to swap the queue,
      running the batch. */
  datatype Place = Idle | Check | Poll | Handle(woken: bool) | Swap | RunBatch

  datatype State = State(
    place: Place, quit: bool,
    calling: bool,            // callingPendingFunctors_
    eventfd: nat,
    pending: seq<Task>, batch: seq<Task>,
    // threads between the two halves of an operation
    owes: bool,               // the loop thread has pushed but not yet written the eventfd
    pushers: nat,             // other threads between push and write
    quitters: nat,            // other threads between quit_ = true and write
    // history
    pushed: seq<Task>, executed: seq<Task>,
    early: nat,               // tasks still pending that the loop thread queued while outside loop()
    mark: nat)                // how many tasks had been pushed when poll last returned

  const INIT := State(Idle, false, false, 0, [], [], false, 0, 0, [], [], 0, 0)

  datatype Event =
    | Start                   // loop() is entered
    | Push(task: Task)        // another thread: push under the lock
    | Write                   // another thread: the write that follows
    | LoopPush(task: Task)    // queueInLoop on the loop thread
    | LoopWrite
    | Quit                    // another thread: quit_ = true
    | QuitWrite
    | LoopQuit                // quit() on the loop thread
    | TestQuit
    | PollReturns
    | HandleRead              // the wake-up channel's callback drains the eventfd
    | EventsDone
    | SwapQueue
    | RunTask
    | BatchDone

  predicate Enabled(s: State, e: Event) {
    match e
    case Start => s.place.Idle? && !s.owes
    case Push(_) => true
    case Write => s.pushers > 0
    case LoopPush(_) => !s.owes && (s.place.Idle? || s.place.Handle? || s.place.RunBatch?)
    case LoopWrite => s.owes
    case Quit => true
    case QuitWrite => s.quitters > 0
    case LoopQuit => !s.owes && (s.place.Idle? || s.place.Handle? || s.place.RunBatch?)
    case TestQuit => s.place.Check?
    case PollReturns => s.place.Poll?
    case HandleRead => s.place == Handle(true) && !s.owes
    case EventsDone => s.place == Handle(false) && !s.owes
    case SwapQueue => s.place.Swap?
    case RunTask => s.place.RunBatch? && !s.owes && s.batch != []
    case BatchDone => s.place.RunBatch? && !s.owes && s.batch == []
  }

  function Apply(s: State, e: Event): State
    requires Enabled(s, e)
  {
    match e
    case Start => s.(place := Check, quit := false)
    case Push(t) => s.(pending := s.pending + [t], pushed := s.pushed + [t], pushers := s.pushers + 1)
    case Write => s.(eventfd := s.eventfd + 1, pushers := s.pushers - 1)
    case LoopPush(t) =>
      s.(pending := s.pending + [t], pushed := s.pushed + [t], owes := s.calling,
         early := s.early + if s.place.Idle? then 1 else 0)
    case LoopWrite => s.(eventfd := s.eventfd + 1, owes := false)
    case Quit => s.(quit := true, quitters := s.quitters + 1)
    case QuitWrite => s.(eventfd := s.eventfd + 1, quitters := s.quitters - 1)
    case LoopQuit => s.(quit := true)
    case TestQuit => s.(place := if s.quit then Idle else Poll)
    case PollReturns => s.(place := Handle(s.eventfd > 0), mark := |s.pushed|)
    case HandleRead => s.(place := Handle(false), eventfd := 0)
    case EventsDone => s.(place := Swap)
    case SwapQueue => s.(place := RunBatch, calling := true, batch := s.pending, pending := [], early := 0)
    case RunTask => s.(executed := s.executed + [s.batch[0]], batch := s.batch[1..])
    case BatchDone => s.(place := Check, calling := false)
  }

  ghost predicate Run(s0: State, es: seq<Event>, s: State)
    decreases |es|
  {
    if es == [] then s == s0
    else Enabled(s0, es[0]) && Run(Apply(s0, es[0]), es[1..], s)
  }

  ghost predicate CanRun(s0: State, s: State) {
    exists es :: Run(s0, es, s)
  }

  ghost predicate Reachable(s: State) {
    CanRun(INIT, s)
  }

  lemma NoStep(s: State)
    ensures CanRun(s, s)
  {
    assert Run(s, [], s);
  }

  lemma {:induction false} RunTrans(s0: State, es: seq<Event>, s: State, fs: seq<Event>, t: State)
    requires Run(s0, es, s) && Run(s, fs, t)
    ensures Run(s0, es + fs, t)
    decreases |es|
  {
    hide Enabled, Apply;
    if es == [] {
      assert es + fs == fs;
    } else {
      RunTrans(Apply(s0, es[0]), es[1..], s, fs, t);
      assert (es + fs)[0] == es[0] && (es + fs)[1..] == es[1..] + fs;
    }
  }

  lemma CanRunTrans(s0: State, s: State, t: State)
    requires CanRun(s0, s) && CanRun(s, t)
    ensures CanRun(s0, t)
  {
    var es :| Run(s0, es, s);
    var fs :| Run(s, fs, t);
    RunTrans(s0, es, s, fs, t);
  }

  lemma OneStep(s0: State, s: State, e: Event)
    requires CanRun(s0, s) && Enabled(s, e)
    ensures CanRun(s0, Apply(s, e))
  {
    assert Run(Apply(s, e), [e][1..], Apply(s, e));
    assert Run(s, [e], Apply(s, e));
    CanRunTrans(s0, s, Apply(s, e));
  }

  /** Someone has signalled the loop, or is about to. */
  predicate Signalled(s: State) {
    s.eventfd > 0 || s.pushers > 0 || s.owes
  }

  /** Every pushed task is executed, in the batch or pending, in push order; what was pushed before poll
      last returned is collected by the end of the iteration. */
  ghost predicate Collected(s: State) {
    && s.executed + s.batch + s.pending == s.pushed
    && s.mark <= |s.executed| + |s.batch| + if s.place.Handle? || s.place.Swap? then |s.pending| else 0
  }

  ghost predicate Placed(s: State) {
    && (s.calling <==> s.place.RunBatch?)
    && (!s.place.RunBatch? ==> s.batch == [])
    && (s.owes ==> s.place.RunBatch?)
    && (s.place == Handle(true) ==> s.eventfd > 0)
    && (s.place.RunBatch? ==> s.early == 0)
    && (s.place.Poll? && s.quit ==> s.eventfd > 0 || s.quitters > 0)
  }

  /** More tasks are pending than were queued early, and the loop will not collect them in this
      iteration: then it has been signalled. */
  ghost predicate Woken(s: State) {
    (s.place.RunBatch? || s.place.Check? || s.place.Poll? || s.place.Idle?) && |s.pending| > s.early ==> Signalled(s)
  }

  ghost predicate Inv(s: State) {
    Collected(s) && Placed(s) && Woken(s)
  }

  lemma StepCollects(s: State, e: Event)
    requires Collected(s) && Placed(s) && Enabled(s, e)
    ensures Collected(Apply(s, e))
  {
    match e
    case Push(t) => assert s.executed + s.batch + (s.pending + [t]) == s.executed + s.batch + s.pending + [t];
    case LoopPush(t) => assert s.executed + s.batch + (s.pending + [t]) == s.executed + s.batch + s.pending + [t];
    case SwapQueue => assert s.executed + s.pending + [] == s.executed + s.batch + s.pending;
    case RunTask => assert s.executed + s.batch == s.executed + [s.batch[0]] + s.batch[1..];
    case _ =>
  }

  lemma StepKeepsPlace(s: State, e: Event)
    requires Placed(s) && Enabled(s, e)
    ensures Placed(Apply(s, e))
  {
  }

  lemma StepWakes(s: State, e: Event)
    requires Placed(s) && Woken(s) && Enabled(s, e)
    ensures Woken(Apply(s, e))
  {
  }

  lemma StepKeeps(s: State, e: Event)
    requires Inv(s) && Enabled(s, e)
    ensures Inv(Apply(s, e))
  {
    hide Collected, Placed, Woken, Enabled, Apply;
    StepCollects(s, e);
    StepKeepsPlace(s, e);
    StepWakes(s, e);
  }

  lemma {:induction false} RunKeeps(s0: State, es: seq<Event>, s: State)
    requires Inv(s0) && Run(s0, es, s)
    ensures Inv(s)
    decreases |es|
  {
    hide Inv, Enabled, Apply;
    if es != [] {
      StepKeeps(s0, es[0]);
      RunKeeps(Apply(s0, es[0]), es[1..], s);
    }
  }

  lemma ReachableInv(s: State)
    requires Reachable(s)
    ensures Inv(s)
  {
    hide Run;
    var es :| Run(INIT, es, s);
    RunKeeps(INIT, es, s);
  }

  /** No lost wake-up: about to poll with more tasks pending than the loop thread queued before loop(),
      the eventfd is readable or a producer is still to write it. */
  lemma NoLostWakeup(s: State)
    requires Reachable(s) && s.place.Poll? && |s.pending| > s.early
    ensures s.eventfd > 0 || s.pushers > 0
  {
    ReachableInv(s);
  }

  /** Only tasks the loop thread queued while outside loop() are early, and only until the next swap. */
  lemma EarlyOnlyBeforeLoop(s: State, e: Event)
    requires Enabled(s, e) && Apply(s, e).early > s.early
    ensures e.LoopPush? && s.place.Idle? && Apply(s, e).early == s.early + 1
  {
  }

  predicate SetsQuit(e: Event) {
    e.Quit? || e.LoopQuit?
  }

  predicate NoStart(es: seq<Event>) {
    forall k :: 0 <= k < |es| ==> !es[k].Start?
  }

  predicate NoQuit(es: seq<Event>) {
    forall k :: 0 <= k < |es| ==> !SetsQuit(es[k])
  }

  lemma {:induction false} QuitStays(s0: State, es: seq<Event>, s: State)
    requires Run(s0, es, s)
    ensures NoStart(es) && s0.quit ==> s.quit
    ensures NoQuit(es) ==> (s.quit <==> s0.quit && NoStart(es))
    decreases |es|
  {
    if es != [] {
      QuitStays(Apply(s0, es[0]), es[1..], s);
      assert NoStart(es) <==> !es[0].Start? && NoStart(es[1..]) by { HeadAndTail(es); }
      assert NoQuit(es) ==> !SetsQuit(es[0]) && NoQuit(es[1..]);
    }
  }

  lemma HeadAndTail(es: seq<Event>)
    requires es != []
    ensures NoStart(es) <==> !es[0].Start? && NoStart(es[1..])
  {
    assert forall k :: 1 <= k < |es| ==> es[k] == es[1..][k - 1];
  }

  /** A quit() of any thread after the last entry into loop() is never slept through: its flag is still
      set, and about to poll the eventfd is readable or someone is still to write it. */
  lemma NoLostQuit(es: seq<Event>, s1: State, quit: Event, fs: seq<Event>, s: State)
    requires Run(INIT, es, s1) && SetsQuit(quit) && Enabled(s1, quit) && Run(Apply(s1, quit), fs, s)
    requires NoStart(fs)
    ensures s.quit
    ensures s.place.Poll? ==> s.eventfd > 0 || s.quitters > 0
  {
    RunKeeps(INIT, es, s1);
    StepKeeps(s1, quit);
    RunKeeps(Apply(s1, quit), fs, s);
    QuitStays(Apply(s1, quit), fs, s);
  }

  /** A quit() followed by no other holds if and only if loop() is not entered after it: entering erases
      an earlier one. */
  lemma QuitHoldsIff(s1: State, quit: Event, fs: seq<Event>, s: State)
    requires SetsQuit(quit) && Enabled(s1, quit) && Run(Apply(s1, quit), fs, s)
    requires NoQuit(fs)
    ensures s.quit <==> NoStart(fs)
  {
    QuitStays(Apply(s1, quit), fs, s);
  }

  /** Tasks run exactly once, in push order; an iteration runs all that was pushed before its poll
      returned. */
  lemma FifoExactlyOnce(s: State)
    requires Reachable(s)
    ensures s.executed + s.batch + s.pending == s.pushed
    ensures s.place.Check? || s.place.Poll? || s.place.Idle? ==> s.mark <= |s.executed|
  {
    ReachableInv(s);
  }

  /** A signal has reached the eventfd or is on its way, for a task or for a quit. */
  predicate Wakes(s: State) {
    Signalled(s) || s.quitters > 0
  }

  /** The loop is outside an iteration, and not in the middle of queueing. */
  predicate Outside(s: State) {
    (s.place.Idle? || s.place.Check? || s.place.Poll?) && !s.owes && !s.calling
  }

  predicate NoPoll(es: seq<Event>) {
    forall k :: 0 <= k < |es| ==> !es[k].PollReturns?
  }

  /** Another thread queues a task or quits. */
  predicate OthersSignal(es: seq<Event>) {
    exists k :: 0 <= k < |es| && (es[k].Push? || es[k].Quit?)
  }

  lemma OutsideStep(s: State, e: Event)
    requires Outside(s) && Enabled(s, e) && !e.PollReturns?
    ensures var t := Apply(s, e);
      && Outside(t) && s.pending <= t.pending
      && (Wakes(t) <==> Wakes(s) || e.Push? || e.Quit?)
  {
  }

  lemma SignalSplits(es: seq<Event>)
    requires es != []
    ensures OthersSignal(es) <==> es[0].Push? || es[0].Quit? || OthersSignal(es[1..])
    ensures NoPoll(es) ==> !es[0].PollReturns? && NoPoll(es[1..])
  {
    if k :| 0 <= k < |es| && (es[k].Push? || es[k].Quit?) {
      assert k > 0 ==> es[1..][k - 1] == es[k];
    }
    if k :| 0 <= k < |es[1..]| && (es[1..][k].Push? || es[1..][k].Quit?) {
      assert es[k + 1] == es[1..][k];
    }
  }

  /** Under every interleaving up to the next return of poll: the loop is signalled exactly if it was
      before, or another thread queues a task or quits. What the loop thread itself queues does not count. */
  lemma {:induction false} OutsideSignalledIff(s: State, es: seq<Event>, t: State)
    requires Outside(s) && Run(s, es, t) && NoPoll(es)
    ensures Outside(t) && s.pending <= t.pending
    ensures Wakes(t) <==> Wakes(s) || OthersSignal(es)
    decreases |es|
  {
    hide Outside, Wakes, Enabled, Apply, NoPoll, OthersSignal;
    if es == [] {
      NoSignal();
    } else {
      SignalSplits(es);
      OutsideStep(s, es[0]);
      OutsideSignalledIff(Apply(s, es[0]), es[1..], t);
    }
  }

  lemma NoSignal()
    ensures !OthersSignal([])
  {
  }

  /** The exception is exact: a task queued on the loop thread outside loop() is still pending at the first
      poll, and wakes it if and only if, under whatever interleaving, the loop was signalled before or
      another thread queues a task or quits. */
  lemma EarlyTaskIsSignalledIff(s: State, t: Task, es: seq<Event>, v: State)
    requires Reachable(s) && s.place.Idle?
    requires Enabled(s, LoopPush(t)) && Run(Apply(s, LoopPush(t)), es, v) && NoPoll(es)
    ensures s.pending + [t] <= v.pending
    ensures Wakes(v) <==> Wakes(s) || OthersSignal(es)
  {
    ReachableInv(s);
    OutsideSignalledIff(Apply(s, LoopPush(t)), es, v);
  }

  /** Concretely, with no other thread the first poll sleeps over it. */
  lemma EarlyTaskSleeps(t: Task) returns (v: State)
    ensures Run(INIT, [LoopPush(t), Start, TestQuit], v)
    ensures v.place.Poll? && v.pending == [t] && !Wakes(v)
  {
    var s1 := Apply(INIT, LoopPush(t));
    var s2 := Apply(s1, Start);
    v := Apply(s2, TestQuit);
    assert Run(v, [], v);
    assert [TestQuit][1..] == [] && Run(s2, [TestQuit], v);
    assert [Start, TestQuit][1..] == [TestQuit] && Run(s1, [Start, TestQuit], v);
    assert [LoopPush(t), Start, TestQuit][1..] == [Start, TestQuit];
  }

  // ---------- The loop itself, without interference ----------

  /** The tasks spawned by running some tasks, in order. */
  function Spawned(ts: seq<Task>): seq<Task> {
    if ts == [] then [] else Spawned(ts[..|ts| - 1]) + ts[|ts| - 1].spawns
  }

  class EventLoop {
    var looping: bool
    var quit: bool
    var callingPendingFunctors: bool
    var eventfd: nat
    var pendingFunctors: seq<Task>
    ghost var place: Place
    ghost var batch: seq<Task>
    ghost var pushers: nat
    ghost var quitters: nat
    ghost var pushed: seq<Task>
    ghost var executed: seq<Task>
    ghost var early: nat
    ghost var mark: nat

    ghost function View(): State
      reads this
    {
      State(place, quit, callingPendingFunctors, eventfd, pendingFunctors, batch, false, pushers, quitters,
            pushed, executed, early, mark)
    }

    constructor ()
      ensures View() == INIT && !looping
    {
      looping, quit, callingPendingFunctors, eventfd, pendingFunctors := false, false, false, 0, [];
      place, batch, pushers, quitters, pushed, executed, early, mark := Idle, [], 0, 0, [], [], 0, 0;
    }

    method Wakeup()
      modifies this`eventfd
      ensures eventfd == old(eventfd) + 1
    {
      eventfd := eventfd + 1;
    }

    /** A read of the eventfd takes the whole counter. */
    method HandleRead()
      modifies this`eventfd
      ensures eventfd == 0
    {
      eventfd := 0;
    }

    /** queueInLoop on the loop thread: the eventfd is written only while functors are being called. */
    method QueueInLoop(t: Task)
      requires callingPendingFunctors <==> place.RunBatch?
      requires place.Idle? || place.Handle? || place.RunBatch?
      modifies this`pendingFunctors, this`eventfd, this`pushed, this`early
      ensures CanRun(old(View()), View())
      ensures pendingFunctors == old(pendingFunctors) + [t] && pushed == old(pushed) + [t]
      ensures eventfd == old(eventfd) + if callingPendingFunctors then 1 else 0
    {
      ghost var s := View();
      NoStep(s);
      OneStep(s, s, LoopPush(t));
      pendingFunctors := pendingFunctors + [t];
      pushed, early := pushed + [t], early + if place.Idle? then 1 else 0;
      if callingPendingFunctors {
        OneStep(s, Apply(s, LoopPush(t)), LoopWrite);
        Wakeup();
      }
    }

    /** Run one functor of the batch: whatever it spawns is queued, and the eventfd written, at once. */
    method RunFunctor(t: Task)
      requires place.RunBatch? && callingPendingFunctors && batch != [] && t == batch[0]
      modifies this`pendingFunctors, this`eventfd, this`pushed, this`early, this`executed, this`batch
      ensures CanRun(old(View()), View())
      ensures executed == old(executed) + [t] && batch == old(batch)[1..]
      ensures pendingFunctors == old(pendingFunctors) + t.spawns
      ensures eventfd == old(eventfd) + |t.spawns|
    {
      hide Run, CanRun;
      ghost var s0 := View();
      NoStep(s0);
      OneStep(s0, s0, RunTask);
      executed, batch := executed + [t], batch[1..];
      var i := 0;
      while i < |t.spawns|
        invariant 0 <= i <= |t.spawns|
        invariant CanRun(s0, View())
        invariant executed == old(executed) + [t] && batch == old(batch)[1..]
        invariant pendingFunctors == old(pendingFunctors) + t.spawns[..i]
        invariant eventfd == old(eventfd) + i
      {
        ghost var s := View();
        QueueInLoop(t.spawns[i]);
        CanRunTrans(s0, s, View());
        assert t.spawns[..i + 1] == t.spawns[..i] + [t.spawns[i]];
        i := i + 1;
      }
      assert t.spawns[..i] == t.spawns;
    }

    /** The locked swap at the start of doPendingFunctors. */
    method TakeQueue() returns (functors: seq<Task>)
      requires place.Swap? && !callingPendingFunctors && batch == []
      modifies this`callingPendingFunctors, this`pendingFunctors, this`place, this`batch, this`early
      ensures CanRun(old(View()), View()) && place.RunBatch? && callingPendingFunctors
      ensures functors == old(pendingFunctors) == batch && pendingFunctors == []
    {
      NoStep(View());
      OneStep(View(), View(), SwapQueue);
      callingPendingFunctors := true;
      functors := pendingFunctors;
      pendingFunctors := [];
      place, batch, early := RunBatch, functors, 0;
    }

    /** Its end. */
    method EndBatch()
      requires place.RunBatch? && batch == []
      modifies this`callingPendingFunctors, this`place
      ensures CanRun(old(View()), View()) && place.Check? && !callingPendingFunctors
    {
      NoStep(View());
      OneStep(View(), View(), BatchDone);
      callingPendingFunctors := false;
      place := Check;
    }

    /** Swap the queue, run the batch. */
    method DoPendingFunctors()
      requires place.Swap? && !callingPendingFunctors && batch == []
      modifies this
      ensures CanRun(old(View()), View()) && place.Check? && !callingPendingFunctors && batch == []
      ensures executed == old(executed) + old(pendingFunctors)
      ensures pendingFunctors == Spawned(old(pendingFunctors))
      ensures eventfd == old(eventfd) + |pendingFunctors|
      ensures quit == old(quit) && looping == old(looping)
    {
      hide Run, CanRun, View;
      ghost var s0 := View();
      var functors := TakeQueue();
      var i := 0;
      while i < |functors|
        invariant 0 <= i <= |functors|
        invariant CanRun(s0, View()) && place.RunBatch? && callingPendingFunctors && batch == functors[i..]
        invariant executed == old(executed) + functors[..i]
        invariant pendingFunctors == Spawned(functors[..i])
        invariant eventfd == old(eventfd) + |pendingFunctors|
        invariant quit == old(quit) && looping == old(looping)
      {
        ghost var s := View();
        RunFunctor(functors[i]);
        CanRunTrans(s0, s, View());
        assert functors[..i + 1] == functors[..i] + [functors[i]];
        assert functors[..i + 1][..i] == functors[..i];
        i := i + 1;
      }
      assert functors[..i] == functors;
      ghost var s := View();
      EndBatch();
      CanRunTrans(s0, s, View());
    }

    /** One round of the while loop: poll, handle the active channels (their callbacks queue the
        given tasks), run the pending functors; or leave when quit_ is set. */
    method Round(queued: seq<Task>) returns (go: bool)
      requires place.Check? && !callingPendingFunctors && batch == []
      modifies this
      ensures CanRun(old(View()), View()) && go == !old(quit)
      ensures !callingPendingFunctors && batch == []
      ensures !go ==> place.Idle? && executed == old(executed) && pendingFunctors == old(pendingFunctors)
      ensures go ==> place.Check? && executed == old(executed) + (old(pendingFunctors) + queued)
      ensures go ==> pendingFunctors == Spawned(old(pendingFunctors) + queued) && eventfd == |pendingFunctors|
    {
      hide Run, CanRun, Spawned;
      ghost var s0 := View();
      NoStep(s0);
      OneStep(s0, s0, TestQuit);
      if quit {
        place, looping := Idle, false;
        return false;
      }
      place := Poll;
      ghost var s := View();
      PollAndHandle(queued);
      CanRunTrans(s0, s, View());
      s := View();
      DoPendingFunctors();
      CanRunTrans(s0, s, View());
      go := true;
    }

    /** The wake-up channel is active exactly if the eventfd is readable; then it is drained. */
    method PollAndHandle(queued: seq<Task>)
      requires place.Poll? && !callingPendingFunctors && batch == []
      modifies this`place, this`mark, this`eventfd, this`pendingFunctors, this`pushed, this`early
      ensures CanRun(old(View()), View()) && place == Swap && eventfd == 0
      ensures pendingFunctors == old(pendingFunctors) + queued
    {
      hide Run, CanRun;
      ghost var s0 := View();
      NoStep(s0);
      OneStep(s0, s0, PollReturns);
      place, mark := Handle(eventfd > 0), |pushed|;
      if eventfd > 0 {
        OneStep(s0, View(), Event.HandleRead);
        HandleRead();
        place := Handle(false);
      }
      var i := 0;
      while i < |queued|
        invariant 0 <= i <= |queued|
        invariant CanRun(s0, View()) && place == Handle(false) && eventfd == 0
        invariant pendingFunctors == old(pendingFunctors) + queued[..i]
      {
        ghost var s := View();
        QueueInLoop(queued[i]);
        CanRunTrans(s0, s, View());
        assert queued[..i + 1] == queued[..i] + [queued[i]];
        i := i + 1;
      }
      assert queued[..i] == queued;
      OneStep(s0, View(), EventsDone);
      place := Swap;
    }

    /** quit() from another thread sets the flag and writes the eventfd; the loop thread only sets it. */
    method QuitLoop(inLoopThread: bool)
      requires inLoopThread ==> place.Idle? || place.Handle? || place.RunBatch?
      modifies this`quit, this`eventfd
      ensures CanRun(old(View()), View())
      ensures quit && eventfd == old(eventfd) + if inLoopThread then 0 else 1
    {
      ghost var s := View();
      NoStep(s);
      quit := true;
      if inLoopThread {
        OneStep(s, s, LoopQuit);
      } else {
        OneStep(s, s, Quit);
        OneStep(s, Apply(s, Quit), QuitWrite);
        Wakeup();
      }
    }
  }
}
