/** Whole runs of the timer thread: adds and deletes from other threads fall anywhere between the
    locked pass of a tick and the later advance of the timeline. No action deletes a timer here. */
module TimerRuns {
  import opened Bytes
  import opened Options
  import opened Heaps
  import opened Timers

  /** What addTimer promised: the first firing time, then every interval if repeating. */
  datatype Promise = Promise(first: nat, interval: nat, action: nat, isRepeat: bool) {
    predicate Due(u: nat) {
      u == first || (isRepeat && interval >= 1 && u > first && (u - first) % interval == 0)
    }
  }

  datatype State = State(
    timeline: nat,
    timers: map<nat, Timer>,      // by id
    nextId: nat,
    ran: bool,                    // the pass of this tick is over, the timeline not advanced yet
    // history
    promises: map<nat, Promise>,
    stops: map<nat, nat>,         // for a deleted timer, the pass it did not live to see
    fires: map<nat, seq<nat>>,    // the timelines of the passes that fired each timer
    actions: map<nat, seq<nat>>)  // the actions these firings ran

  datatype Event =
    | Add(interval: nat, action: nat, isRepeat: bool, isNoDelay: bool)
    | Delete(id: nat)
    | Pass
    | Advance

  const INIT := State(0, map[], 1, false, map[], map[], map[], map[])

  predicate Enabled(s: State, e: Event) {
    match e
    case Add(interval, _, isRepeat, _) => isRepeat ==> interval >= 1
    case Delete(_) => true
    case Pass => !s.ran
    case Advance => s.ran
  }

  function Apply(s: State, e: Event): State {
    match e
    case Add(interval, action, isRepeat, isNoDelay) =>
      var first := if isNoDelay || interval == 0 then NextPass(s.timeline, s.ran) else s.timeline + interval;
      s.(timers := s.timers[s.nextId := NewTimer(s.nextId, interval, s.timeline, action, isRepeat, isNoDelay)],
         nextId := s.nextId + 1,
         promises := s.promises[s.nextId := Promise(first, interval, action, isRepeat)],
         fires := s.fires[s.nextId := []], actions := s.actions[s.nextId := []])
    case Delete(id) =>
      if id in s.timers then s.(timers := s.timers - {id}, stops := s.stops[id := NextPass(s.timeline, s.ran)]) else s
    case Pass =>
      s.(timers := PassMap(s.timers, s.timeline), ran := true,
         fires := map id | id in s.fires ::
           if id in s.timers && s.timers[id].deadline <= s.timeline then s.fires[id] + [s.timeline] else s.fires[id],
         actions := map id | id in s.actions ::
           if id in s.timers && s.timers[id].deadline <= s.timeline then s.actions[id] + [s.timers[id].action]
           else s.actions[id])
    case Advance =>
      s.(timeline := s.timeline + 1, ran := false)
  }

  /** A pass fires every due timer once: repeats move on by their interval, the others are gone. */
  function PassMap(timers: map<nat, Timer>, now: nat): map<nat, Timer> {
    map id | id in timers && (timers[id].deadline <= now ==> timers[id].isRepeat) ::
      if timers[id].deadline <= now then Again(timers[id], now) else timers[id]
  }

  ghost predicate Run(s0: State, es: seq<Event>, s: State)
    decreases |es|
  {
    if es == [] then s == s0
    else Enabled(s0, es[0]) && Run(Apply(s0, es[0]), es[1..], s)
  }

  ghost predicate Reachable(s: State) {
    exists es :: Run(INIT, es, s)
  }

  // ---------- The tick loop refines a pass ----------

  /** The heap holds exactly the timers of the map. */
  ghost predicate Represents(heap: multiset<Timer>, timers: map<nat, Timer>, nextId: nat) {
    && Proper(heap, nextId)
    && forall t :: t in heap <==> t.id in timers && timers[t.id] == t
  }

  /** One timer of the heap after a tick is the image of the timer with its id before it. */
  lemma ImageOf(before: multiset<Timer>, after: multiset<Timer>, fired: seq<Timer>, now: nat,
                timers: map<nat, Timer>, nextId: nat, t: Timer)
    requires Represents(before, timers, nextId) && t in after
    requires forall u :: u in fired ==> u in before
    requires forall u :: u in before ==> (u in fired <==> u.deadline <= now)
    requires (t in before && t !in fired) || exists i :: 0 <= i < |fired| && Returns(fired[i], t, now, {})
    ensures t.id in PassMap(timers, now) && PassMap(timers, now)[t.id] == t
  {
    hide Proper;
    if i :| 0 <= i < |fired| && Returns(fired[i], t, now, {}) {
      assert fired[i] in before && fired[i] in fired;
    }
  }

  lemma ImageIn(before: multiset<Timer>, fired: seq<Timer>, now: nat, timers: map<nat, Timer>, nextId: nat, t: Timer)
    requires Represents(before, timers, nextId)
    requires forall id :: id in timers ==> timers[id].id == id
    requires forall u :: u in before ==> (u in fired <==> u.deadline <= now)
    requires t.id in PassMap(timers, now) && PassMap(timers, now)[t.id] == t
    ensures (t in before && t !in fired) || exists i :: 0 <= i < |fired| && Returns(fired[i], t, now, {})
  {
    hide Proper;
    var u := timers[t.id];
    assert u in before;
    if u.deadline <= now {
      var i :| 0 <= i < |fired| && fired[i] == u;
      assert Returns(fired[i], t, now, {});
    }
  }

  /** addTimer and deleteTimer on the heap are the steps on the map. */
  lemma AddRefines(heap: multiset<Timer>, timers: map<nat, Timer>, nextId: nat, t: Timer)
    requires Represents(heap, timers, nextId) && t.id == nextId >= 1 && (t.isRepeat ==> t.interval >= 1)
    requires forall id :: id in timers ==> 1 <= id < nextId
    ensures Represents(heap + multiset{t}, timers[nextId := t], nextId + 1)
  {
    assert t !in heap;
  }

  lemma DeleteRefines(heap: multiset<Timer>, timers: map<nat, Timer>, nextId: nat, id: nat)
    requires Represents(heap, timers, nextId)
    requires forall i :: i in timers ==> timers[i].id == i
    ensures id in timers ==> Represents(heap - multiset{timers[id]}, timers - {id}, nextId)
    ensures id !in timers ==> forall t :: t in heap ==> t.id != id
  {
    if id in timers {
      var t := timers[id];
      assert t in heap;
      assert forall u :: u in heap - multiset{t} <==> u in heap && u != t;
    }
  }

  lemma HeapAfter(before: multiset<Timer>, after: multiset<Timer>, fired: seq<Timer>, now: nat,
                  timers: map<nat, Timer>, nextId: nat)
    requires Represents(before, timers, nextId) && Proper(after, nextId)
    requires forall id :: id in timers ==> timers[id].id == id
    requires forall u :: u in fired ==> u in before
    requires forall u :: u in before ==> (u in fired <==> u.deadline <= now)
    requires forall t :: t in after <==>
      (t in before && t !in fired) || exists i :: 0 <= i < |fired| && Returns(fired[i], t, now, {})
    ensures Represents(after, PassMap(timers, now), nextId)
  {
    hide Proper, PassMap, Returns;
    forall t ensures t in after <==> t.id in PassMap(timers, now) && PassMap(timers, now)[t.id] == t {
      if t in after {
        ImageOf(before, after, fired, now, timers, nextId, t);
      }
      if t.id in PassMap(timers, now) && PassMap(timers, now)[t.id] == t {
        ImageIn(before, fired, now, timers, nextId, t);
      }
    }
  }

  /** The heap after a tick without self-deletion holds the map after a pass; the tick fired the
      due timers, each once. */
  lemma TickRefinesPass(before: multiset<Timer>, after: multiset<Timer>, fired: seq<Timer>, now: nat,
                        timers: map<nat, Timer>, nextId: nat)
    requires Represents(before, timers, nextId) && Tick(before, after, fired, now, {})
    requires forall id :: id in timers ==> timers[id].id == id
    ensures Represents(after, PassMap(timers, now), nextId)
    ensures DistinctIds(fired)
    ensures forall t :: t in fired <==> t.id in timers && timers[t.id] == t && t.deadline <= now
  {
    TickOutcome(before, after, fired, now, {}, nextId);
    RestMembers(before, fired, nextId);
    hide Tick, DistinctIds, Proper, PassMap, Returns;
    HeapAfter(before, after, fired, now, timers, nextId);
  }

  // ---------- What should be observed ----------

  /** All promised times before a given pass. */
  function Expected(p: Promise, until: nat): seq<nat> {
    if until == 0 then [] else Expected(p, until - 1) + if p.Due(until - 1) then [until - 1] else []
  }

  // ---------- Invariant, one timer at a time ----------

  /** A timer in the heap fires next at the first promised time not before the next pass. */
  ghost predicate OnTime(t: Timer, p: Promise, next: nat) {
    && t.interval == p.interval && t.isRepeat == p.isRepeat
    && p.Due(Max(t.deadline, next))
    && forall u :: next <= u < t.deadline ==> !p.Due(u)
  }

  ghost predicate Kept(p: Promise, live: Option<Timer>, stop: Option<nat>, times: seq<nat>, next: nat) {
    && (p.isRepeat ==> p.interval >= 1)
    && times == Expected(p, if stop.Some? then stop.value else next)
    && (stop.Some? ==> live.None? && stop.value <= next)
    && (live.Some? ==> OnTime(live.value, p, next))
    && (live.None? && stop.None? ==> forall u :: next <= u ==> !p.Due(u))
  }

  function Lookup<V>(m: map<nat, V>, id: nat): Option<V> {
    if id in m then Some(m[id]) else None
  }

  ghost predicate Inv(s: State) {
    && s.nextId >= 1
    && (forall id :: id in s.promises <==> 1 <= id < s.nextId)
    && (forall id :: id in s.fires <==> 1 <= id < s.nextId)
    && (forall id :: id in s.timers || id in s.stops ==> 1 <= id < s.nextId)
    && (forall id :: id in s.timers ==> s.timers[id].id == id)
    && (forall id :: id in s.promises ==> KeptId(s, id))
  }

  // ---------- Promised times ----------

  /** Strictly between two multiples of d that are d apart there is no other. */
  lemma Between(d: nat, q: nat, base: nat)
    requires d >= 1
    ensures !(d * base < d * q < d * base + d)
  {
    MulStep(d, base, q);
    MulStep(d, q, base);
  }

  lemma NoMultipleBetween(x: nat, y: nat, d: nat)
    requires d >= 1 && x % d == 0 && x < y < x + d
    ensures y % d != 0
  {
    Between(d, y / d, x / d);
  }

  lemma NextMultiple(x: nat, d: nat)
    requires d >= 1 && x % d == 0
    ensures (x + d) % d == 0
  {
    QuotientIs(x + d, d, x / d + 1);
  }

  /** Promised times of a repeating timer are exactly an interval apart. */
  lemma NextPromise(p: Promise, t: nat)
    requires p.isRepeat && p.interval >= 1 && p.Due(t)
    ensures p.Due(t + p.interval)
    ensures forall u :: t < u < t + p.interval ==> !p.Due(u)
  {
    var x, d := t - p.first, p.interval;
    NextMultiple(x, d);
    forall u | t < u < t + d ensures !p.Due(u) {
      NoMultipleBetween(x, u - p.first, d);
    }
  }

  /** The promised times of a repeating timer are first, first + d, first + 2d, and so on. */
  lemma PromisedTimes(p: Promise, u: nat)
    requires p.isRepeat && p.interval >= 1
    ensures p.Due(u) <==> exists k: nat :: u == p.first + k * p.interval
  {
    var d := p.interval;
    if p.Due(u) {
      var k := (u - p.first) / d;
      assert u == p.first + k * d;
    }
    if k: nat :| u == p.first + k * d {
      QuotientIs(d * k, d, k);
      assert d * k == k * d && (d * k) % d == 0;
    }
  }

  lemma {:induction false} NothingBefore(p: Promise, until: nat)
    requires until <= p.first
    ensures Expected(p, until) == []
  {
    if until > 0 { NothingBefore(p, until - 1); }
  }

  // ---------- Every step keeps the invariant ----------

  lemma NewTimerKept(s: State, e: Event)
    requires e.Add? && Enabled(s, e) && s.nextId !in s.stops
    ensures KeptId(Apply(s, e), s.nextId)
  {
    NothingBefore(Apply(s, e).promises[s.nextId], NextPass(s.timeline, s.ran));
  }

  /** One pass, for one timer. */
  lemma PassKept(p: Promise, live: Option<Timer>, stop: Option<nat>, times: seq<nat>, now: nat)
    requires Kept(p, live, stop, times, now)
    ensures var fires := live.Some? && live.value.deadline <= now;
      Kept(p,
           if !fires then live else if live.value.isRepeat then Some(Again(live.value, now)) else None,
           stop, if fires then times + [now] else times, now + 1)
  {
    if live.Some? && live.value.deadline <= now {
      assert p.Due(now);
      if p.isRepeat {
        NextPromise(p, now);
      }
    } else if live.Some? {
      assert !p.Due(now);
    }
  }

  /** The part of the invariant that is about one id. */
  ghost predicate KeptId(s: State, id: nat) {
    id in s.promises && id in s.fires &&
    Kept(s.promises[id], Lookup(s.timers, id), Lookup(s.stops, id), s.fires[id], NextPass(s.timeline, s.ran))
  }

  lemma StepKeepsId(s: State, e: Event, id: nat)
    requires KeptId(s, id) && Enabled(s, e) && id != s.nextId
    ensures KeptId(Apply(s, e), id)
  {
    if e.Pass? {
      PassKept(s.promises[id], Lookup(s.timers, id), Lookup(s.stops, id), s.fires[id], s.timeline);
    }
  }

  lemma StepKeeps(s: State, e: Event)
    requires Inv(s) && Enabled(s, e)
    ensures Inv(Apply(s, e))
  {
    hide Kept, KeptId;
    var s' := Apply(s, e);
    forall id | id in s'.promises ensures KeptId(s', id) {
      if e.Add? && id == s.nextId {
        NewTimerKept(s, e);
      } else {
        StepKeepsId(s, e, id);
      }
    }
  }

  lemma {:induction false} RunKeeps(s0: State, es: seq<Event>, s: State)
    requires Inv(s0) && Run(s0, es, s)
    ensures Inv(s)
    decreases |es|
  {
    if es != [] {
      StepKeeps(s0, es[0]);
      RunKeeps(Apply(s0, es[0]), es[1..], s);
    }
  }

  /** In every run a timer has fired at exactly its promised times: up to the next pass, or up to
      the pass before which it was deleted. No drift, nothing missed, nothing else. */
  lemma FiresExactlyAsPromised(s: State, id: nat)
    requires Reachable(s) && 1 <= id < s.nextId
    ensures id in s.promises && id in s.fires
    ensures s.fires[id] == Expected(s.promises[id], if id in s.stops then s.stops[id] else NextPass(s.timeline, s.ran))
  {
    var es :| Run(INIT, es, s);
    RunKeeps(INIT, es, s);
  }

  // ---------- Which action runs ----------

  /** A timer has kept its action, and every firing of it ran that action. */
  predicate ActionOk(s: State, id: nat) {
    && (id in s.timers ==> id in s.promises && s.timers[id].action == s.promises[id].action)
    && (id in s.promises ==>
          && id in s.actions && id in s.fires && |s.actions[id]| == |s.fires[id]|
          && forall k :: 0 <= k < |s.actions[id]| ==> s.actions[id][k] == s.promises[id].action)
    && (id in s.actions || id in s.fires ==> id in s.promises)
  }

  lemma StepKeepsAction(s: State, e: Event, id: nat)
    requires ActionOk(s, id) && Enabled(s, e)
    ensures ActionOk(Apply(s, e), id)
  {
  }

  lemma {:induction false} RunKeepsAction(s0: State, es: seq<Event>, s: State, id: nat)
    requires ActionOk(s0, id) && Run(s0, es, s)
    ensures ActionOk(s, id)
    decreases |es|
  {
    hide ActionOk, Enabled, Apply;
    if es != [] {
      StepKeepsAction(s0, es[0], id);
      RunKeepsAction(Apply(s0, es[0]), es[1..], s, id);
    }
  }

  /** Every firing of a timer, at each of its promised times, runs the action it was added with. */
  lemma RunsItsAction(s: State, id: nat, k: nat)
    requires Reachable(s) && id in s.promises && id in s.fires && k < |s.fires[id]|
    ensures id in s.actions && k < |s.actions[id]| && s.actions[id][k] == s.promises[id].action
  {
    var es :| Run(INIT, es, s);
    RunKeepsAction(INIT, es, s, id);
  }
}
