/** TimerManager: timers in an array heap, run by the tick loop. */
module Timers {
  import opened Heaps

  /** The constructor of Timer. */
  function NewTimer(id: nat, interval: nat, timeline: nat, action: nat, isRepeat: bool, isNoDelay: bool): (t: Timer)
    ensures t.id == id && t.interval == interval && t.action == action && t.isRepeat == isRepeat
    ensures t.deadline == timeline + if isNoDelay then 0 else interval
  {
    Timer(id, interval, if isNoDelay then timeline else interval + timeline, action, isRepeat)
  }

  /** Ids name timers uniquely, have been handed out already, and repeats have a positive interval. */
  ghost predicate Proper(timers: multiset<Timer>, nextId: nat) {
    && (forall t :: t in timers ==> timers[t] == 1 && 1 <= t.id < nextId && (t.isRepeat ==> t.interval >= 1))
    && (forall t, u :: t in timers && u in timers && t.id == u.id ==> t == u)
  }

  /** A timer as it is added again after firing at time now. */
  function Again(t: Timer, now: nat): Timer {
    NewTimer(t.id, t.interval, now, t.action, t.isRepeat, false)
  }

  /** The timeline of the next pass; ran says that this tick's pass is over, the timeline not advanced. */
  function NextPass(timeline: nat, ran: bool): nat {
    if ran then timeline + 1 else timeline
  }

  function Max(a: nat, b: nat): nat {
    if a < b then b else a
  }

  /** The timers whose action, when it runs in this tick, deletes that very timer. */
  type SelfDeletes = set<nat>

  /** What a tick puts back: the repeating timers it fired, except one that deleted itself. */
  function PutBack(fired: seq<Timer>, now: nat, deletes: SelfDeletes): multiset<Timer> {
    if fired == [] then multiset{}
    else
      var last := fired[|fired| - 1];
      PutBack(fired[..|fired| - 1], now, deletes)
        + if last.isRepeat && last.id !in deletes then multiset{Again(last, now)} else multiset{}
  }

  /** The tick at time now: fired are due timers in deadline order, none later than what stays.
      The tick goes on until nothing is due or an action deletes its own timer. */
  ghost predicate Tick(before: multiset<Timer>, after: multiset<Timer>, fired: seq<Timer>, now: nat,
                       deletes: SelfDeletes)
  {
    && multiset(fired) <= before
    && after == before - multiset(fired) + PutBack(fired, now, deletes)
    && (forall i :: 0 <= i < |fired| ==> fired[i].deadline <= now)
    && InOrderOfDeadlines(before, fired)
    && (forall i :: 0 <= i < |fired| - 1 ==> fired[i].id !in deletes)
    && (Ended(fired, now, deletes) || forall t :: t in before - multiset(fired) ==> now < t.deadline)
  }

  /** fired goes from early to late, and nothing that stays is earlier. */
  ghost predicate InOrderOfDeadlines(before: multiset<Timer>, fired: seq<Timer>) {
    && (forall i, j :: 0 <= i < j < |fired| ==> fired[i].deadline <= fired[j].deadline)
    && (forall i, t :: 0 <= i < |fired| && t in before - multiset(fired) ==> fired[i].deadline <= t.deadline)
  }

  predicate Ended(fired: seq<Timer>, now: nat, deletes: SelfDeletes) {
    fired != [] && fired[|fired| - 1].id in deletes
  }

  /** t is in s, and no other timer in s has the id. */
  ghost predicate Only(s: seq<Timer>, t: Timer, id: nat) {
    && t in s && t.id == id
    && forall u :: u in s && u.id == id ==> u == t
  }

  class TimerManager {
    var timeline: nat
    var autoIncrementId: nat
    var timer: seq<Timer>

    ghost predicate Valid()
      reads this
    {
      IsHeap(timer) && Proper(multiset(timer), autoIncrementId) && autoIncrementId >= 1
    }

    constructor ()
      ensures Valid() && timeline == 0 && autoIncrementId == 1 && timer == []
    {
      timeline, autoIncrementId, timer := 0, 1, [];
    }

    /** push_back and push_heap; the caller's id, or the next one. */
    method AddTimer(interval: nat, action: nat, isRepeat: bool, isNoDelay: bool, id: int := -1) returns (r: nat)
      requires IsHeap(timer) && (id == -1 || id >= 0)
      modifies this`timer, this`autoIncrementId
      ensures IsHeap(timer)
      ensures r == if id != -1 then id else old(autoIncrementId)
      ensures autoIncrementId == old(autoIncrementId) + if id != -1 then 0 else 1
      ensures multiset(timer) ==
        old(multiset(timer)) + multiset{NewTimer(r, interval, timeline, action, isRepeat, isNoDelay)}
    {
      if id != -1 {
        r := id;
      } else {
        r := autoIncrementId;
        autoIncrementId := autoIncrementId + 1;
      }
      var event := NewTimer(r, interval, timeline, action, isRepeat, isNoDelay);
      var pushed := timer + [event];
      timer := PushHeap(pushed);
    }

    /** Erase the first timer with the id, if any, and rebuild the heap. */
    method DeleteTimer(timerId: nat) returns (cleared: nat)
      modifies this`timer
      ensures cleared == 0
      ensures timerId >= 1 ==> IsHeap(timer)
      ensures timerId < 1 ==> timer == old(timer)
      ensures timerId >= 1 && (forall t :: t in old(timer) ==> t.id != timerId) ==>
        multiset(timer) == old(multiset(timer))
      ensures forall t :: timerId >= 1 && Only(old(timer), t, timerId) ==>
        multiset(timer) == old(multiset(timer)) - multiset{t}
    {
      if timerId < 1 {
        return timerId;
      }
      var i := 0;
      while i < |timer| && timer[i].id != timerId
        invariant 0 <= i <= |timer|
        invariant forall k :: 0 <= k < i ==> timer[k].id != timerId
      {
        i := i + 1;
      }
      if i < |timer| {
        EraseRemoves(timer, i);
        timer := timer[..i] + timer[i + 1..];
      }
      cleared := 0;
      timer := MakeHeap(timer);
    }

    /** One pass under the lock; the action of each fired timer runs, and may delete that timer. */
    method RunLocked(deletes: SelfDeletes) returns (fired: seq<Timer>)
      requires Valid()
      modifies this`timer, this`autoIncrementId
      ensures Valid() && autoIncrementId == old(autoIncrementId)
      ensures Tick(old(multiset(timer)), multiset(timer), fired, timeline, deletes)
    {
      hide Tick, Partial, Proper, HeapFrom, IsHeap, PutBack, LastIsEarliest, Popped;
      fired := [];
      ghost var before, nextId := multiset(timer), autoIncrementId;
      NothingFired(before, nextId, timeline, deletes);
      if timer != [] {
        var top := PopTop(deletes, before, fired);
        while top.deadline <= timeline
          invariant timer != [] && top == timer[|timer| - 1] && autoIncrementId == nextId
          invariant Popped(before, timer, fired, timeline, nextId, deletes)
          invariant top.deadline > timeline ==> Tick(before, multiset(timer), fired, timeline, deletes)
          invariant Proper(multiset(timer), nextId)
          decreases |before| - |fired|
        {
          var goOn := FireNext(top, deletes, before, fired);
          fired := fired + [top];
          if !goOn {
            break;
          }
          if timer == [] {
            EmptyStops(before, fired, timeline, deletes);
            break;
          }
          top := PopTop(deletes, before, fired);
        }
        timer := MakeHeap(timer);
      } else {
        EmptyIsHeap();
      }
    }

    /** pop_heap and back(), seen as a step of the tick in progress. */
    method PopTop(deletes: SelfDeletes, ghost before: multiset<Timer>, ghost fired: seq<Timer>) returns (top: Timer)
      requires timer != [] && IsHeap(timer)
      requires Proper(before, autoIncrementId) && Proper(multiset(timer), autoIncrementId)
      requires Partial(before, multiset(timer), fired, timeline, deletes)
      modifies this`timer
      ensures timer != [] && top == timer[|timer| - 1]
      ensures Proper(multiset(timer), autoIncrementId)
      ensures Popped(before, timer, fired, timeline, autoIncrementId, deletes)
      ensures top.deadline > timeline ==> Tick(before, multiset(timer), fired, timeline, deletes)
    {
      hide Tick, Partial, Proper, HeapFrom, IsHeap, LastIsEarliest, Popped;
      timer := PopHeap(timer);
      top := timer[|timer| - 1];
      PoppedAgain(before, timer, fired, timeline, autoIncrementId, deletes);
    }

    /** Fire the popped timer, seen as a step of the tick in progress. */
    method FireNext(top: Timer, deletes: SelfDeletes, ghost before: multiset<Timer>, ghost fired: seq<Timer>)
      returns (goOn: bool)
      requires timer != [] && top == timer[|timer| - 1] && top.deadline <= timeline
      requires Popped(before, timer, fired, timeline, autoIncrementId, deletes)
      modifies this`timer, this`autoIncrementId
      ensures IsHeap(timer) && autoIncrementId == old(autoIncrementId) && |fired| < |before|
      ensures Proper(before, autoIncrementId) && Proper(multiset(timer), autoIncrementId)
      ensures goOn ==> Partial(before, multiset(timer), fired + [top], timeline, deletes)
      ensures !goOn ==> Tick(before, multiset(timer), fired + [top], timeline, deletes)
    {
      hide Tick, Partial, Proper, HeapFrom, IsHeap, PutBack, LastIsEarliest;
      FireStep(before, timer, fired, timeline, autoIncrementId, deletes);
      goOn := Fire(top, deletes);
    }

    /** Run the action of the popped timer; unless that deleted it, remove it and put a repeat back. */
    method Fire(top: Timer, deletes: SelfDeletes) returns (goOn: bool)
      requires timer != [] && HeapFrom(timer, 0, |timer| - 1)
      requires Proper(multiset(timer), autoIncrementId)
      requires top == timer[|timer| - 1]
      modifies this`timer, this`autoIncrementId
      ensures IsHeap(timer) && autoIncrementId == old(autoIncrementId)
      ensures goOn <==> top.id !in deletes
      ensures multiset(timer) == old(multiset(timer)) - multiset{top} + PutBack([top], timeline, deletes)
    {
      hide PutBack, Proper, IsHeap, HeapFrom, NewTimer;
      PutBackOne(top, timeline, deletes);
      RunAction(top, deletes);
      var it := Find(top.id);
      if it == |timer| {
        return false;
      }
      PopBack(timer);
      timer := timer[..|timer| - 1];
      if top.isRepeat {
        var _ := AddTimer(top.interval, top.action, top.isRepeat, false, top.id);
      }
      return true;
    }

    /** The action of a timer of the tick; all it may do here is delete that timer. */
    method RunAction(top: Timer, deletes: SelfDeletes)
      requires timer != [] && Proper(multiset(timer), autoIncrementId) && top == timer[|timer| - 1]
      modifies this`timer
      ensures top.id !in deletes ==> timer == old(timer)
      ensures top.id in deletes ==>
        && IsHeap(timer) && multiset(timer) == old(multiset(timer)) - multiset{top}
        && forall t :: t in timer ==> t.id != top.id
    {
      hide Proper, Only, IsHeap;
      ghost var before := timer;
      OnlyTop(before, autoIncrementId);
      if top.id in deletes {
        var _ := DeleteTimer(top.id);
        TopIsGone(before, timer, autoIncrementId);
      }
    }

    /** std::find by id; the size when there is none. */
    method Find(id: nat) returns (i: nat)
      ensures i <= |timer| && (i < |timer| ==> timer[i].id == id)
      ensures forall k :: 0 <= k < i ==> timer[k].id != id
    {
      i := 0;
      while i < |timer| && timer[i].id != id
        invariant 0 <= i <= |timer|
        invariant forall k :: 0 <= k < i ==> timer[k].id != id
      {
        i := i + 1;
      }
    }

    /** The rest of the period, after the lock is released. */
    method Advance()
      modifies this`timeline
      ensures timeline == old(timeline) + 1
    {
      timeline := timeline + 1;
    }
  }

  /** With unique ids, erasing by the id of the popped timer erases exactly that timer. */
  lemma OnlyTop(s: seq<Timer>, nextId: nat)
    requires s != [] && Proper(multiset(s), nextId)
    ensures var top := s[|s| - 1];
      top.id >= 1 && Only(s, top, top.id)
  {
    var top := s[|s| - 1];
    assert top in multiset(s);
    forall u | u in s && u.id == top.id ensures u == top {
      assert u in multiset(s);
    }
  }

  lemma TopIsGone(s: seq<Timer>, r: seq<Timer>, nextId: nat)
    requires s != [] && Proper(multiset(s), nextId)
    requires multiset(r) == multiset(s) - multiset{s[|s| - 1]}
    ensures forall t :: t in r ==> t.id != s[|s| - 1].id
  {
    assert s[|s| - 1] in multiset(s);
    forall t | t in r ensures t.id != s[|s| - 1].id {
      assert t in multiset(r);
      assert t in multiset(s) && t != s[|s| - 1];
    }
  }

  /** pop_back after pop_heap. */
  lemma PopBack(s: seq<Timer>)
    requires s != [] && HeapFrom(s, 0, |s| - 1)
    ensures IsHeap(s[..|s| - 1])
    ensures multiset(s[..|s| - 1]) == multiset(s) - multiset{s[|s| - 1]}
  {
    assert forall i, j :: 0 <= i < j < |s| - 1 && IsChild(i, j) ==> InOrder(s, i, j);
    assert s == s[..|s| - 1] + [s[|s| - 1]];
  }

  lemma EraseRemoves(s: seq<Timer>, i: nat)
    requires i < |s|
    ensures multiset(s) == multiset(s[..i] + s[i + 1..]) + multiset{s[i]}
  {
    assert s == s[..i] + [s[i]] + s[i + 1..];
  }

  /** A tick in progress: what was fired so far makes a tick except for the timers still due. */
  ghost predicate Partial(before: multiset<Timer>, current: multiset<Timer>, fired: seq<Timer>, now: nat,
                          deletes: SelfDeletes)
  {
    && multiset(fired) <= before
    && current == before - multiset(fired) + PutBack(fired, now, deletes)
    && (forall i :: 0 <= i < |fired| ==> fired[i].deadline <= now && fired[i].id !in deletes)
    && InOrderOfDeadlines(before, fired)
  }

  /** The state of the loop with the earliest timer popped to the end. */
  ghost predicate Popped(before: multiset<Timer>, s: seq<Timer>, fired: seq<Timer>, now: nat, nextId: nat,
                         deletes: SelfDeletes)
  {
    && s != [] && HeapFrom(s, 0, |s| - 1)
    && LastIsEarliest(s)
    && Proper(before, nextId) && Proper(multiset(s), nextId)
    && Partial(before, multiset(s), fired, now, deletes)
  }

  lemma NothingFired(before: multiset<Timer>, nextId: nat, now: nat, deletes: SelfDeletes)
    requires Proper(before, nextId)
    ensures Partial(before, before, [], now, deletes)
    ensures before == multiset{} ==> Tick(before, before, [], now, deletes)
  {
  }

  /** Repeats come back strictly later than the tick. */
  lemma {:induction false} PutBackLater(fired: seq<Timer>, now: nat, deletes: SelfDeletes)
    requires forall i :: 0 <= i < |fired| ==> fired[i].isRepeat ==> fired[i].interval >= 1
    ensures forall t :: t in PutBack(fired, now, deletes) ==> now < t.deadline
  {
    if fired != [] {
      PutBackLater(fired[..|fired| - 1], now, deletes);
    }
  }

  lemma PutBackSnoc(fired: seq<Timer>, top: Timer, now: nat, deletes: SelfDeletes)
    ensures PutBack(fired + [top], now, deletes) == PutBack(fired, now, deletes) + PutBack([top], now, deletes)
  {
    assert (fired + [top])[..|fired|] == fired && [top][..0] == [];
  }

  /** A popped timer that is due was there before the tick and has not fired yet. */
  lemma TopIsPending(before: multiset<Timer>, s: seq<Timer>, fired: seq<Timer>, now: nat, nextId: nat,
                     deletes: SelfDeletes)
    requires Popped(before, s, fired, now, nextId, deletes) && s[|s| - 1].deadline <= now
    ensures s[|s| - 1] in before - multiset(fired)
    ensures forall t :: t in before - multiset(fired) ==> s[|s| - 1].deadline <= t.deadline
  {
    forall t | t in before - multiset(fired) ensures s[|s| - 1].deadline <= t.deadline {
      assert t in multiset(s);
      assert t in s;
    }
    forall i | 0 <= i < |fired| ensures fired[i].isRepeat ==> fired[i].interval >= 1 {
      assert fired[i] in multiset(fired);
    }
    PutBackLater(fired, now, deletes);
    assert s[|s| - 1] in multiset(s);
  }

  lemma PutBackOne(t: Timer, now: nat, deletes: SelfDeletes)
    ensures PutBack([t], now, deletes) == if t.isRepeat && t.id !in deletes then multiset{Again(t, now)} else multiset{}
  {
    assert [t][..0] == [];
  }

  lemma MoveOut<T>(a: multiset<T>, f: multiset<T>, p: multiset<T>, q: multiset<T>, x: T)
    requires f <= a && x in a - f
    ensures f + multiset{x} <= a && |f| < |a|
    ensures (a - f + p) - multiset{x} + q == a - (f + multiset{x}) + (p + q)
  {
    var rest := a - f - multiset{x};
    assert a == f + multiset{x} + rest;
    assert a - f == rest + multiset{x} && a - (f + multiset{x}) == rest;
    assert (rest + multiset{x} + p) - multiset{x} + q == rest + (p + q);
  }

  /** Taking a timer out, and perhaps putting it back with another deadline, keeps ids unique. */
  lemma ReplaceProper(current: multiset<Timer>, top: Timer, now: nat, nextId: nat, deletes: SelfDeletes)
    requires Proper(current, nextId) && top in current
    ensures Proper(current - multiset{top} + PutBack([top], now, deletes), nextId)
  {
    PutBackOne(top, now, deletes);
    var rest := current - multiset{top};
    assert forall t :: t in rest ==> t in current && t != top && t.id != top.id;
  }

  lemma FireOrder(before: multiset<Timer>, fired: seq<Timer>, top: Timer)
    requires multiset(fired) <= before && top in before - multiset(fired)
    requires forall t :: t in before - multiset(fired) ==> top.deadline <= t.deadline
    requires InOrderOfDeadlines(before, fired)
    ensures InOrderOfDeadlines(before, fired + [top])
  {
    var g := fired + [top];
    assert multiset(g) == multiset(fired) + multiset{top};
    forall i, t | 0 <= i < |g| && t in before - multiset(g) ensures g[i].deadline <= t.deadline {
      assert t in before - multiset(fired);
    }
  }

  /** What stays, when one more timer has fired. */
  lemma FireCount(before: multiset<Timer>, fired: seq<Timer>, top: Timer, now: nat, deletes: SelfDeletes)
    requires multiset(fired) <= before && top in before - multiset(fired)
    ensures multiset(fired + [top]) <= before && |fired| < |before|
    ensures (before - multiset(fired) + PutBack(fired, now, deletes)) - multiset{top} + PutBack([top], now, deletes)
         == before - multiset(fired + [top]) + PutBack(fired + [top], now, deletes)
  {
    var p, q := PutBack(fired, now, deletes), PutBack([top], now, deletes);
    PutBackSnoc(fired, top, now, deletes);
    hide PutBack;
    assert multiset(fired + [top]) == multiset(fired) + multiset{top};
    MoveOut(before, multiset(fired), p, q, top);
  }

  /** Firing the earliest timer, when it is due, extends the tick by it. */
  lemma FireOne(before: multiset<Timer>, current: multiset<Timer>, fired: seq<Timer>, top: Timer, now: nat,
                deletes: SelfDeletes)
    requires Partial(before, current, fired, now, deletes)
    requires top in before - multiset(fired) && top.deadline <= now
    requires forall t :: t in before - multiset(fired) ==> top.deadline <= t.deadline
    ensures var after := current - multiset{top} + PutBack([top], now, deletes);
      && |fired| < |before|
      && (top.id !in deletes ==> Partial(before, after, fired + [top], now, deletes))
      && (top.id in deletes ==> Tick(before, after, fired + [top], now, deletes))
  {
    hide PutBack, InOrderOfDeadlines;
    FireOrder(before, fired, top);
    FireCount(before, fired, top, now, deletes);
  }

  lemma FireStep(before: multiset<Timer>, s: seq<Timer>, fired: seq<Timer>, now: nat, nextId: nat, deletes: SelfDeletes)
    requires s != [] && Popped(before, s, fired, now, nextId, deletes) && s[|s| - 1].deadline <= now
    ensures HeapFrom(s, 0, |s| - 1)
    ensures var top := s[|s| - 1];
      var after := multiset(s) - multiset{top} + PutBack([top], now, deletes);
      && |fired| < |before| && Proper(after, nextId)
      && (top.id !in deletes ==> Partial(before, after, fired + [top], now, deletes))
      && (top.id in deletes ==> Tick(before, after, fired + [top], now, deletes))
  {
    var top := s[|s| - 1];
    TopIsPending(before, s, fired, now, nextId, deletes);
    hide PutBack, Proper, Partial, Tick, HeapFrom;
    assert top in multiset(s);
    ReplaceProper(multiset(s), top, now, nextId, deletes);
    FireOne(before, multiset(s), fired, top, now, deletes);
  }

  lemma PoppedAgain(before: multiset<Timer>, s: seq<Timer>, fired: seq<Timer>, now: nat, nextId: nat,
                    deletes: SelfDeletes)
    requires s != [] && HeapFrom(s, 0, |s| - 1) && LastIsEarliest(s)
    requires Proper(before, nextId) && Proper(multiset(s), nextId)
    requires Partial(before, multiset(s), fired, now, deletes)
    ensures Popped(before, s, fired, now, nextId, deletes)
    ensures s[|s| - 1].deadline > now ==> Tick(before, multiset(s), fired, now, deletes)
  {
    hide HeapFrom, Proper, PutBack, InOrderOfDeadlines;
    if s[|s| - 1].deadline > now {
      forall t | t in before - multiset(fired) ensures now < t.deadline {
        assert t in multiset(s);
        assert t in s;
      }
    }
  }

  lemma EmptyIsHeap()
    ensures IsHeap([])
  {
  }

  lemma EmptyStops(before: multiset<Timer>, fired: seq<Timer>, now: nat, deletes: SelfDeletes)
    requires Partial(before, multiset{}, fired, now, deletes)
    ensures Tick(before, multiset{}, fired, now, deletes)
  {
    assert before - multiset(fired) <= multiset{};
  }

  // ---------- What a tick leaves ----------

  ghost predicate DistinctIds(fired: seq<Timer>) {
    forall i, j :: 0 <= i < j < |fired| ==> fired[i].id != fired[j].id
  }

  /** Whether firing u brings t back into the heap. */
  predicate Returns(u: Timer, t: Timer, now: nat, deletes: SelfDeletes) {
    u.isRepeat && u.id !in deletes && t == Again(u, now)
  }

  /** What comes back: the same repeating timer, due an interval from now. */
  lemma ReturnsIff(u: Timer, t: Timer, now: nat, deletes: SelfDeletes)
    ensures Returns(u, t, now, deletes) <==>
      u.isRepeat && u.id !in deletes && t == Timer(u.id, u.interval, now + u.interval, u.action, true)
  {
  }

  lemma TwiceInMultiset<T>(s: seq<T>, i: nat, j: nat)
    requires i < j < |s| && s[i] == s[j]
    ensures multiset(s)[s[i]] >= 2
  {
    assert s == s[..j] + [s[j]] + s[j + 1..];
    assert s[..j][i] == s[i];
    assert s[i] in multiset(s[..j]);
  }

  lemma FiredAreDistinct(before: multiset<Timer>, fired: seq<Timer>, nextId: nat)
    requires Proper(before, nextId) && multiset(fired) <= before
    ensures DistinctIds(fired)
  {
    forall i, j | 0 <= i < j < |fired| ensures fired[i].id != fired[j].id {
      assert fired[i] in multiset(fired) && fired[j] in multiset(fired);
      if fired[i] == fired[j] {
        TwiceInMultiset(fired, i, j);
      }
    }
  }

  lemma {:induction false} PutBackMembers(fired: seq<Timer>, now: nat, deletes: SelfDeletes)
    requires DistinctIds(fired)
    ensures forall t :: PutBack(fired, now, deletes)[t] <= 1
    ensures forall t :: t in PutBack(fired, now, deletes) <==>
      exists i :: 0 <= i < |fired| && Returns(fired[i], t, now, deletes)
  {
    if fired != [] {
      var front, last := fired[..|fired| - 1], fired[|fired| - 1];
      PutBackMembers(front, now, deletes);
      forall t ensures t in PutBack(fired, now, deletes) <==>
        exists i :: 0 <= i < |fired| && Returns(fired[i], t, now, deletes)
      {
        if i :| 0 <= i < |fired| && Returns(fired[i], t, now, deletes) {
          assert i < |front| ==> Returns(front[i], t, now, deletes);
        }
        if i :| 0 <= i < |front| && Returns(front[i], t, now, deletes) {
          assert Returns(fired[i], t, now, deletes);
        }
        assert Returns(last, t, now, deletes) ==> Returns(fired[|fired| - 1], t, now, deletes);
      }
      assert forall t :: t in PutBack(front, now, deletes) ==> t.id != last.id;
    }
  }

  /** A rescheduled timer has the id of one that fired. */
  ghost predicate Rescheduled(t: Timer, before: multiset<Timer>, fired: seq<Timer>, nextId: nat) {
    && 1 <= t.id < nextId && (t.isRepeat ==> t.interval >= 1)
    && exists u :: u in fired && u.id == t.id && u in before
  }

  lemma BackIsRescheduled(before: multiset<Timer>, fired: seq<Timer>, t: Timer, now: nat, deletes: SelfDeletes,
                          nextId: nat)
    requires Proper(before, nextId) && multiset(fired) <= before
    requires exists i :: 0 <= i < |fired| && Returns(fired[i], t, now, deletes)
    ensures Rescheduled(t, before, fired, nextId)
  {
    var i :| 0 <= i < |fired| && Returns(fired[i], t, now, deletes);
    assert fired[i] in multiset(fired);
    assert fired[i] in before && fired[i] in fired;
  }

  /** No timer is lost and none is invented: what stays is what did not fire, and the repeats that
      did not delete themselves, rescheduled from now. Without a self-deletion exactly the due
      timers fire. */
  lemma TickOutcome(before: multiset<Timer>, after: multiset<Timer>, fired: seq<Timer>, now: nat,
                    deletes: SelfDeletes, nextId: nat)
    requires Proper(before, nextId) && Tick(before, after, fired, now, deletes)
    ensures Proper(after, nextId) && DistinctIds(fired)
    ensures forall t :: t in after <==>
      (t in before && t !in fired) || exists i :: 0 <= i < |fired| && Returns(fired[i], t, now, deletes)
    ensures !Ended(fired, now, deletes) ==> forall t :: t in before ==> (t in fired <==> t.deadline <= now)
  {
    FiredAreDistinct(before, fired, nextId);
    PutBackMembers(fired, now, deletes);
    RestMembers(before, fired, nextId);
    var rest, back := before - multiset(fired), PutBack(fired, now, deletes);
    hide PutBack, InOrderOfDeadlines, DistinctIds, Returns, Rescheduled, Proper;
    forall t | t in back ensures Rescheduled(t, before, fired, nextId) {
      BackIsRescheduled(before, fired, t, now, deletes, nextId);
    }
    OutcomeProper(before, rest, back, fired, now, deletes, nextId);
  }

  lemma RestMembers(before: multiset<Timer>, fired: seq<Timer>, nextId: nat)
    requires Proper(before, nextId) && multiset(fired) <= before
    ensures forall t :: t in before - multiset(fired) <==> t in before && t !in fired
    ensures forall t :: t in fired ==> t in before
  {
    forall t ensures t in fired <==> t in multiset(fired) {
    }
  }

  lemma OutcomeProper(before: multiset<Timer>, rest: multiset<Timer>, back: multiset<Timer>, fired: seq<Timer>,
                      now: nat, deletes: SelfDeletes, nextId: nat)
    requires Proper(before, nextId) && DistinctIds(fired) && rest <= before
    requires forall t :: t in rest ==> t !in fired
    requires forall t :: back[t] <= 1
    requires forall t :: t in back ==> exists i :: 0 <= i < |fired| && Returns(fired[i], t, now, deletes)
    requires forall t :: t in back ==> Rescheduled(t, before, fired, nextId)
    ensures Proper(rest + back, nextId)
  {
    forall t, u | t in rest && u in back ensures t.id != u.id {
      var v :| v in fired && v.id == u.id && v in before;
      assert t in before && t != v;
    }
    forall t, u | t in back && u in back && t.id == u.id ensures t == u {
      var i :| 0 <= i < |fired| && Returns(fired[i], t, now, deletes);
      var j :| 0 <= j < |fired| && Returns(fired[j], u, now, deletes);
      assert i == j;
    }
  }
}
