/** Whole runs of the timer thread with actions that delete their own timer. Such an action can end its
    tick early, so timers that are due wait for a later one; nothing else delays a timer. */
module TimerDelays {
  import opened Heaps
  import opened Timers

  datatype Firing = Firing(timer: Timer, at: nat)

  /** How a timer was added, and the first pass after that. */
  datatype Birth = Birth(pass: nat, interval: nat, action: nat, isRepeat: bool)

  datatype State = State(
    timeline: nat,
    timers: multiset<Timer>,
    nextId: nat,
    ran: bool,              // the pass of this tick is over, the timeline not advanced yet
    // history
    born: map<nat, Birth>,  // by id
    fires: seq<Firing>,
    ends: set<nat>)         // the passes that a self-deletion ended

  const INIT := State(0, multiset{}, 1, false, map[], [], {})

  datatype Event =
    | Add(interval: nat, action: nat, isRepeat: bool, isNoDelay: bool)
    | Delete(timer: Timer)
    | Pass(fired: seq<Timer>, after: multiset<Timer>, deletes: SelfDeletes)
    | Advance

  ghost predicate Enabled(s: State, e: Event) {
    match e
    case Add(interval, _, isRepeat, _) => isRepeat ==> interval >= 1
    case Delete(t) => t in s.timers
    case Pass(fired, after, deletes) => !s.ran && Tick(s.timers, after, fired, s.timeline, deletes)
    case Advance => s.ran
  }

  function Fired(fired: seq<Timer>, at: nat): (r: seq<Firing>)
    ensures |r| == |fired| && forall i :: 0 <= i < |r| ==> r[i] == Firing(fired[i], at)
  {
    if fired == [] then [] else Fired(fired[..|fired| - 1], at) + [Firing(fired[|fired| - 1], at)]
  }

  function Apply(s: State, e: Event): State {
    match e
    case Add(interval, action, isRepeat, isNoDelay) =>
      s.(timers := s.timers + multiset{NewTimer(s.nextId, interval, s.timeline, action, isRepeat, isNoDelay)},
         nextId := s.nextId + 1,
         born := s.born[s.nextId := Birth(NextPass(s.timeline, s.ran), interval, action, isRepeat)])
    case Delete(t) => s.(timers := s.timers - multiset{t})
    case Pass(fired, after, deletes) =>
      s.(timers := after, ran := true, fires := s.fires + Fired(fired, s.timeline),
         ends := if Ended(fired, s.timeline, deletes) then s.ends + {s.timeline} else s.ends)
    case Advance => s.(timeline := s.timeline + 1, ran := false)
  }

  ghost predicate Run(s0: State, es: seq<Event>, s: State)
    decreases |es|
  {
    if es == [] then s == s0
    else Enabled(s0, es[0]) && Run(Apply(s0, es[0]), es[1..], s)
  }

  // ---------- Invariant ----------

  /** Every pass in the range was ended by a self-deletion. */
  predicate AllEnded(ends: set<nat>, from: nat, until: nat) {
    forall u :: from <= u < until ==> u in ends
  }

  predicate AsAdded(t: Timer, birth: Birth) {
    t.interval == birth.interval && t.action == birth.action && t.isRepeat == birth.isRepeat
  }

  /** A timer in the heap is overdue only by passes that were ended. */
  predicate TimerOk(s: State, t: Timer) {
    && t.id in s.born && s.born[t.id].pass <= NextPass(s.timeline, s.ran) && AsAdded(t, s.born[t.id])
    && AllEnded(s.ends, Max(t.deadline, s.born[t.id].pass), NextPass(s.timeline, s.ran))
  }

  /** A firing came not before its deadline, and later only by passes that were ended. */
  predicate FiringOk(s: State, f: Firing) {
    && f.timer.id in s.born && s.born[f.timer.id].pass <= f.at < NextPass(s.timeline, s.ran)
    && f.timer.deadline <= f.at && AsAdded(f.timer, s.born[f.timer.id])
    && AllEnded(s.ends, Max(f.timer.deadline, s.born[f.timer.id].pass), f.at)
  }

  /** The next deadline is an interval after any firing before it. */
  predicate Later(f: Firing, t: Timer) {
    f.timer.id == t.id ==> f.timer.interval == t.interval && t.isRepeat && f.at + t.interval <= t.deadline
  }

  ghost predicate Inv(s: State) {
    && Proper(s.timers, s.nextId) && s.nextId >= 1
    && (forall id :: id in s.born ==> 1 <= id < s.nextId)
    && (forall t :: t in s.timers ==> TimerOk(s, t))
    && (forall f :: f in s.fires ==> FiringOk(s, f))
    && (forall f, t :: f in s.fires && t in s.timers ==> Later(f, t))
    && (forall i, j :: 0 <= i < j < |s.fires| ==> Later(s.fires[i], s.fires[j].timer))
  }

  // ---------- A pass ----------

  /** What a tick leaves in the heap: a timer that was not due or whose tick was ended, or the next round
      of one that fired. */
  lemma AfterPass(s: State, e: Event, t: Timer)
    requires Inv(s) && Enabled(s, e) && e.Pass? && t in e.after
    ensures TimerOk(Apply(s, e), t)
    ensures forall f :: f in s.fires ==> Later(f, t)
    ensures forall i :: 0 <= i < |e.fired| ==> Later(Firing(e.fired[i], s.timeline), t)
  {
    TickOutcome(s.timers, e.after, e.fired, s.timeline, e.deletes, s.nextId);
    RestMembers(s.timers, e.fired, s.nextId);
    hide Tick, Ended;
    if t in s.timers && t !in e.fired {
      StaysAfterPass(s, e, t);
    } else {
      var i :| 0 <= i < |e.fired| && Returns(e.fired[i], t, s.timeline, e.deletes);
      assert e.fired[i] in e.fired && TimerOk(s, e.fired[i]);
      ReturnsAfterPass(s, e, i, t);
    }
  }

  lemma StaysAfterPass(s: State, e: Event, t: Timer)
    requires Inv(s) && e.Pass? && !s.ran && t in s.timers && t !in e.fired
    requires forall u :: u in e.fired ==> u in s.timers
    requires !Ended(e.fired, s.timeline, e.deletes) ==>
      forall u :: u in s.timers ==> (u in e.fired <==> u.deadline <= s.timeline)
    ensures TimerOk(Apply(s, e), t)
    ensures forall f :: f in s.fires ==> Later(f, t)
    ensures forall i :: 0 <= i < |e.fired| ==> Later(Firing(e.fired[i], s.timeline), t)
  {
    hide Ended;
    assert TimerOk(s, t);
    forall i | 0 <= i < |e.fired| ensures e.fired[i].id != t.id {
      assert e.fired[i] in e.fired;
    }
  }

  lemma ReturnsAfterPass(s: State, e: Event, i: nat, t: Timer)
    requires Inv(s) && e.Pass? && !s.ran && i < |e.fired| && e.fired[i] in s.timers && DistinctIds(e.fired)
    requires Returns(e.fired[i], t, s.timeline, e.deletes) && e.fired[i].deadline <= s.timeline
    requires TimerOk(s, e.fired[i])
    ensures TimerOk(Apply(s, e), t)
    ensures forall f :: f in s.fires ==> Later(f, t)
    ensures forall j :: 0 <= j < |e.fired| ==> Later(Firing(e.fired[j], s.timeline), t)
  {
    hide Ended;
    assert s.timers[e.fired[i]] == 1;
    forall f | f in s.fires ensures Later(f, t) {
      assert Later(f, e.fired[i]);
    }
  }

  /** What a tick fires was due and on time but for ended passes. */
  lemma FiredInPass(s: State, e: Event, i: nat)
    requires Inv(s) && Enabled(s, e) && e.Pass? && i < |e.fired|
    ensures e.fired[i] in s.timers && FiringOk(Apply(s, e), Firing(e.fired[i], s.timeline))
    ensures forall f :: f in s.fires ==> Later(f, e.fired[i])
  {
    RestMembers(s.timers, e.fired, s.nextId);
    hide Ended;
    assert e.fired[i] in e.fired && TimerOk(s, e.fired[i]);
  }

  lemma OldFiring(s: State, e: Event, f: Firing)
    requires FiringOk(s, f) && Enabled(s, e) && (f.timer.id in s.born ==> f.timer.id != s.nextId)
    ensures FiringOk(Apply(s, e), f)
  {
    hide Tick, Ended;
  }

  lemma PassTimers(s: State, e: Event)
    requires Inv(s) && Enabled(s, e) && e.Pass?
    ensures var t := Apply(s, e);
      && (forall x :: x in t.timers ==> TimerOk(t, x))
      && (forall f, x :: f in t.fires && x in t.timers ==> Later(f, x))
  {
    hide Tick, TimerOk, Inv, Enabled, Later, Ended;
    forall x | x in e.after
      ensures TimerOk(Apply(s, e), x) && forall f :: f in Apply(s, e).fires ==> Later(f, x)
    {
      AfterPass(s, e, x);
    }
  }

  lemma PassFires(s: State, e: Event)
    requires Inv(s) && Enabled(s, e) && e.Pass?
    ensures forall f :: f in Apply(s, e).fires ==> FiringOk(Apply(s, e), f)
  {
    hide Tick, TimerOk, FiringOk, Later, Ended, Proper;
    forall f | f in Apply(s, e).fires ensures FiringOk(Apply(s, e), f) {
      if f in s.fires {
        KnownFiring(s, f);
        OldFiring(s, e, f);
      } else {
        var i :| 0 <= i < |e.fired| && f == Firing(e.fired[i], s.timeline);
        FiredInPass(s, e, i);
      }
    }
  }

  lemma KnownFiring(s: State, f: Firing)
    requires Inv(s) && f in s.fires
    ensures FiringOk(s, f) && f.timer.id != s.nextId
  {
  }

  lemma PassSpacing(s: State, e: Event)
    requires Inv(s) && Enabled(s, e) && e.Pass?
    ensures var fires := Apply(s, e).fires;
      forall i, j :: 0 <= i < j < |fires| ==> Later(fires[i], fires[j].timer)
  {
    TickOutcome(s.timers, e.after, e.fired, s.timeline, e.deletes, s.nextId);
    hide Tick, TimerOk, FiringOk, Ended, Proper;
    var fires, n := Apply(s, e).fires, |s.fires|;
    forall i, j | 0 <= i < j < |fires| ensures Later(fires[i], fires[j].timer) {
      if j < n {
        assert Later(s.fires[i], s.fires[j].timer);
      } else if i < n {
        FiredInPass(s, e, j - n);
        assert s.fires[i] in s.fires;
      } else {
        assert e.fired[i - n].id != e.fired[j - n].id;
      }
    }
  }

  lemma PassProper(s: State, e: Event)
    requires Inv(s) && Enabled(s, e) && e.Pass?
    ensures var t := Apply(s, e);
      && Proper(t.timers, t.nextId) && t.nextId >= 1 && (forall id :: id in t.born ==> 1 <= id < t.nextId)
  {
    TickOutcome(s.timers, e.after, e.fired, s.timeline, e.deletes, s.nextId);
  }

  lemma PassKeeps(s: State, e: Event)
    requires Inv(s) && Enabled(s, e) && e.Pass?
    ensures Inv(Apply(s, e))
  {
    PassTimers(s, e);
    PassFires(s, e);
    PassSpacing(s, e);
    PassProper(s, e);
    hide Apply, TimerOk, FiringOk, Later, Proper, Enabled;
  }

  // ---------- The other steps ----------

  lemma AddProper(s: State, e: Event)
    requires Inv(s) && Enabled(s, e) && e.Add?
    ensures Proper(Apply(s, e).timers, s.nextId + 1)
    ensures forall f, t :: f in s.fires && t in Apply(s, e).timers ==> Later(f, t)
    ensures forall t :: t in Apply(s, e).timers ==> t in s.timers || t.id == s.nextId
  {
    hide TimerOk;
    forall f | f in s.fires ensures f.timer.id != s.nextId {
      KnownFiring(s, f);
    }
  }

  lemma AddKeeps(s: State, e: Event)
    requires Inv(s) && Enabled(s, e) && e.Add?
    ensures Inv(Apply(s, e))
  {
    var t := Apply(s, e);
    AddProper(s, e);
    hide Proper, Later, FiringOk;
    forall f | f in s.fires ensures FiringOk(t, f) {
      KnownFiring(s, f);
      OldFiring(s, e, f);
    }
    forall x | x in t.timers ensures TimerOk(t, x) {
      assert x in s.timers ==> TimerOk(s, x);
    }
  }

  lemma DeleteProper(timers: multiset<Timer>, t: Timer, nextId: nat)
    requires Proper(timers, nextId)
    ensures Proper(timers - multiset{t}, nextId)
    ensures forall x :: x in timers - multiset{t} ==> x in timers
  {
  }

  lemma DeleteKeeps(s: State, t: Timer)
    requires Inv(s) && t in s.timers
    ensures Inv(Apply(s, Delete(t)))
  {
    DeleteProper(s.timers, t, s.nextId);
    hide Later, Proper;
  }

  lemma AdvanceKeeps(s: State)
    requires Inv(s) && s.ran
    ensures Inv(Apply(s, Advance))
  {
    hide Later, Proper;
  }

  lemma StepKeeps(s: State, e: Event)
    requires Inv(s) && Enabled(s, e)
    ensures Inv(Apply(s, e))
  {
    hide Tick, Inv, Apply;
    match e
    case Add(_, _, _, _) => AddKeeps(s, e);
    case Delete(t) => DeleteKeeps(s, t);
    case Pass(_, _, _) => PassKeeps(s, e);
    case Advance => AdvanceKeeps(s);
  }

  lemma {:induction false} RunKeeps(s0: State, es: seq<Event>, s: State)
    requires Inv(s0) && Run(s0, es, s)
    ensures Inv(s)
    decreases |es|
  {
    hide Inv, Enabled, Apply;
    if es != [] {
      StepKeeps(s0, es[0]);
      RunKeeps(Apply(s0, es[0]), es[1..], s);
    }
  }

  // ---------- Results over whole runs ----------

  lemma {:induction false} CountEnded(ends: set<nat>, from: nat, until: nat)
    requires AllEnded(ends, from, until) && from <= until
    ensures until - from <= |ends|
    decreases until
  {
    if from < until {
      CountEnded(ends - {until - 1}, from, until - 1);
    }
  }

  /** No timer fires before its deadline, and one fires late by at most as many ticks as were ended by
      self-deletions since; without any it fires exactly at its deadline, or in the first tick after it was
      added if that is later. */
  lemma LateBySelfDeletesOnly(es: seq<Event>, s: State, i: nat)
    requires Run(INIT, es, s) && i < |s.fires|
    ensures var f := s.fires[i];
      && f.timer.id in s.born && f.timer.deadline <= f.at && AsAdded(f.timer, s.born[f.timer.id])
      && AllEnded(s.ends, Max(f.timer.deadline, s.born[f.timer.id].pass), f.at)
      && 0 <= f.at - Max(f.timer.deadline, s.born[f.timer.id].pass) <= |s.ends|
  {
    RunKeeps(INIT, es, s);
    var f := s.fires[i];
    assert f in s.fires;
    CountEnded(s.ends, Max(f.timer.deadline, s.born[f.timer.id].pass), f.at);
  }

  /** Nothing is missed: a timer still in the heap is overdue by at most as many ticks. */
  lemma OverdueBySelfDeletesOnly(es: seq<Event>, s: State, t: Timer)
    requires Run(INIT, es, s) && t in s.timers
    ensures t.id in s.born && AllEnded(s.ends, Max(t.deadline, s.born[t.id].pass), NextPass(s.timeline, s.ran))
    ensures NextPass(s.timeline, s.ran) - Max(t.deadline, s.born[t.id].pass) <= |s.ends|
  {
    RunKeeps(INIT, es, s);
    assert TimerOk(s, t);
    if Max(t.deadline, s.born[t.id].pass) <= NextPass(s.timeline, s.ran) {
      CountEnded(s.ends, Max(t.deadline, s.born[t.id].pass), NextPass(s.timeline, s.ran));
    }
  }

  /** Nothing fires twice: firings of one timer are at least its interval apart, and only of a repeat. */
  lemma NotTwice(es: seq<Event>, s: State, i: nat, j: nat)
    requires Run(INIT, es, s) && i < j < |s.fires| && s.fires[i].timer.id == s.fires[j].timer.id
    ensures s.fires[j].timer.isRepeat && s.fires[i].at + s.fires[j].timer.interval <= s.fires[j].at
  {
    RunKeeps(INIT, es, s);
    assert Later(s.fires[i], s.fires[j].timer) && s.fires[j] in s.fires;
  }
}
