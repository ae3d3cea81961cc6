/** The blocking queue as a monitor: any number of producers and consumers, one lock, one condition
    variable. A step is what one thread does between taking the lock and giving it up, or a wake-up. */
module BlockingQueues {
  import opened Options

  /** put and taken are history: everything ever put, everything ever returned by take, in order. */
  datatype State<T> = State(
    queue: seq<T>,
    waiting: set<nat>,   // consumers blocked in wait
    notified: set<nat>,  // woken by notify_one, still to take the lock
    stirred: set<nat>,   // woken spuriously, still to take the lock
    put: seq<T>,
    taken: seq<T>)

  function Init<T>(): State<T> {
    State([], {}, {}, {}, [], [])
  }

  datatype Event<T> =
    | Put(x: T, woken: Option<nat>)  // the consumer notify_one picks, if any waits
    | Take(consumer: nat)            // take, up to its return or its first wait
    | Stir(consumer: nat)            // a spurious wake-up
    | Resume(consumer: nat)          // a woken consumer takes the lock and tests the queue again

  predicate Enabled<T>(s: State<T>, e: Event<T>) {
    match e
    case Put(_, woken) => if s.waiting == {} then woken.None? else woken.Some? && woken.value in s.waiting
    case Take(c) => c !in s.waiting && c !in s.notified && c !in s.stirred
    case Stir(c) => c in s.waiting
    case Resume(c) => c in s.notified || c in s.stirred
  }

  /** The loop's test: wait if the queue is empty, return its front otherwise. */
  function Tested<T>(s: State<T>, c: nat): State<T> {
    if s.queue == [] then s.(waiting := s.waiting + {c})
    else s.(queue := s.queue[1..], taken := s.taken + [s.queue[0]])
  }

  function Apply<T>(s: State<T>, e: Event<T>): State<T>
    requires Enabled(s, e)
  {
    match e
    case Put(x, woken) =>
      var t := s.(queue := s.queue + [x], put := s.put + [x]);
      if woken.None? then t
      else t.(waiting := t.waiting - {woken.value}, notified := t.notified + {woken.value})
    case Take(c) => Tested(s, c)
    case Stir(c) => s.(waiting := s.waiting - {c}, stirred := s.stirred + {c})
    case Resume(c) => Tested(s.(notified := s.notified - {c}, stirred := s.stirred - {c}), c)
  }

  ghost predicate Run<T>(s0: State<T>, es: seq<Event<T>>, s: State<T>)
    decreases |es|
  {
    if es == [] then s == s0
    else Enabled(s0, es[0]) && Run(Apply(s0, es[0]), es[1..], s)
  }

  ghost predicate Inv<T>(s: State<T>) {
    && s.waiting !! s.notified && s.waiting !! s.stirred && s.notified !! s.stirred
    && (s.waiting != {} ==> |s.queue| <= |s.notified|)
    && s.taken + s.queue == s.put
  }

  lemma TestedKeeps<T>(s: State<T>, c: nat)
    requires s.taken + s.queue == s.put
    ensures Tested(s, c).taken + Tested(s, c).queue == s.put
  {
    if s.queue != [] {
      assert s.queue == [s.queue[0]] + s.queue[1..];
      assert s.taken + s.queue == s.taken + [s.queue[0]] + s.queue[1..];
    }
  }

  lemma StepKeeps<T>(s: State<T>, e: Event<T>)
    requires Inv(s) && Enabled(s, e)
    ensures Inv(Apply(s, e))
  {
    match e
    case Put(x, woken) =>
      assert s.taken + (s.queue + [x]) == s.taken + s.queue + [x];
    case Take(c) => TestedKeeps(s, c);
    case Stir(c) =>
    case Resume(c) =>
      TestedKeeps(s.(notified := s.notified - {c}, stirred := s.stirred - {c}), c);
      if c in s.notified {
        assert |s.notified - {c}| == |s.notified| - 1;
      } else {
        assert s.notified - {c} == s.notified;
      }
  }

  lemma {:induction false} RunKeeps<T>(s: State<T>, es: seq<Event<T>>, t: State<T>)
    requires Inv(s) && Run(s, es, t)
    ensures Inv(t)
    decreases |es|
  {
    hide Inv, Enabled, Apply;
    if es != [] {
      StepKeeps(s, es[0]);
      RunKeeps(Apply(s, es[0]), es[1..], t);
    }
  }

  /** In every reachable state: items come out in the order they went in, none lost and none twice; and
      while a consumer waits un-notified there are no more items than notified consumers on their way. */
  lemma NoLostWakeup<T>(es: seq<Event<T>>, s: State<T>)
    requires Run(Init(), es, s)
    ensures s.taken + s.queue == s.put
    ensures s.waiting != {} ==> |s.queue| <= |s.notified|
    ensures s.waiting != {} && s.queue != [] ==> exists c :: c in s.notified && Enabled(s, Resume(c))
  {
    RunKeeps(Init(), es, s);
    if s.waiting != {} && s.queue != [] {
      var c :| c in s.notified;
      assert Enabled(s, Resume(c));
    }
  }

  /** The notified consumers are enough: letting them run, and nobody else, empties the queue. */
  lemma {:induction false} NotifiedDrain<T>(s: State<T>) returns (es: seq<Event<T>>, t: State<T>)
    requires |s.queue| <= |s.notified|
    ensures Run(s, es, t) && |es| == |s.queue|
    ensures forall e :: e in es ==> e.Resume? && e.consumer in s.notified
    ensures t.queue == [] && t.taken == s.taken + s.queue && t.waiting == s.waiting
    decreases |s.queue|
  {
    if s.queue == [] {
      es, t := [], s;
    } else {
      var c :| c in s.notified;
      var e: Event<T> := Resume(c);
      var u := Apply(s, e);
      assert |u.notified| == |s.notified| - 1;
      var rest;
      rest, t := NotifiedDrain(u);
      es := [e] + rest;
      assert es[1..] == rest;
      assert s.taken + s.queue == s.taken + [s.queue[0]] + s.queue[1..];
    }
  }

  // ---------- The code ----------

  class BlockingQueue<T> {
    var queue: seq<T>
    ghost var waiting: set<nat>
    ghost var notified: set<nat>
    ghost var stirred: set<nat>
    ghost var put: seq<T>
    ghost var taken: seq<T>

    ghost function View(): State<T>
      reads this
    {
      State(queue, waiting, notified, stirred, put, taken)
    }

    constructor ()
      ensures View() == Init()
    {
      queue, waiting, notified, stirred, put, taken := [], {}, {}, {}, [], [];
    }

    /** notify_one: one waiting consumer, whichever the implementation picks, is woken. */
    method NotifyOne(ghost woken: Option<nat>)
      requires if waiting == {} then woken.None? else woken.Some? && woken.value in waiting
      modifies this`waiting, this`notified
      ensures waiting == if woken.None? then old(waiting) else old(waiting) - {woken.value}
      ensures notified == if woken.None? then old(notified) else old(notified) + {woken.value}
    {
      if woken.Some? {
        waiting := waiting - {woken.value};
        notified := notified + {woken.value};
      }
    }

    method Put(x: T, ghost woken: Option<nat>)
      requires Enabled(View(), Event.Put(x, woken))
      modifies this
      ensures View() == Apply(old(View()), Event.Put(x, woken))
    {
      queue := queue + [x];
      put := put + [x];
      NotifyOne(woken);
    }

    /** One round of take's loop under the lock: None when the consumer has gone to wait. */
    method TestQueue(ghost c: nat) returns (front: Option<T>)
      modifies this`queue, this`waiting, this`taken
      ensures View() == Tested(old(View()), c)
      ensures front == if old(queue) == [] then None else Some(old(queue)[0])
    {
      if queue == [] {
        waiting := waiting + {c};
        front := None;
      } else {
        front := Some(queue[0]);
        taken := taken + [queue[0]];
        queue := queue[1..];
      }
    }

    method Take(ghost c: nat) returns (front: Option<T>)
      requires Enabled(View(), Event<T>.Take(c))
      modifies this
      ensures View() == Apply(old(View()), Event<T>.Take(c))
      ensures front == if old(queue) == [] then None else Some(old(queue)[0])
    {
      front := TestQueue(c);
    }

    /** A woken consumer, notified or not, goes round the loop again. */
    method Resume(ghost c: nat) returns (front: Option<T>)
      requires Enabled(View(), Event<T>.Resume(c))
      modifies this
      ensures View() == Apply(old(View()), Event<T>.Resume(c))
      ensures front == if old(queue) == [] then None else Some(old(queue)[0])
    {
      notified := notified - {c};
      stirred := stirred - {c};
      front := TestQueue(c);
    }
  }
}
