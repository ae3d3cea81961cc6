/** The heap algorithms of section 25.4.6 of ISO/IEC 14882:2011 (push_heap, pop_heap, make_heap),
    with std::greater on timers: the earliest deadline is at the front. */
module Heaps {
  datatype Timer = Timer(id: nat, interval: nat, deadline: nat, action: nat, isRepeat: bool)

  predicate IsChild(i: nat, j: nat) {
    j == 2 * i + 1 || j == 2 * i + 2
  }

  function Parent(j: nat): (i: nat)
    requires j >= 1
    ensures IsChild(i, j)
  {
    (j - 1) / 2
  }

  predicate InOrder(s: seq<Timer>, i: nat, j: nat)
    requires i < |s| && j < |s|
  {
    s[i].deadline <= s[j].deadline
  }

  /** The heap property at every node from k on, within the first n elements. */
  ghost predicate HeapFrom(s: seq<Timer>, k: nat, n: nat) {
    && n <= |s|
    && forall i, j :: k <= i < j < n && IsChild(i, j) ==> InOrder(s, i, j)
  }

  ghost predicate IsHeap(s: seq<Timer>) {
    HeapFrom(s, 0, |s|)
  }

  /** No element of a heap is earlier than its front. */
  lemma {:induction false} FrontIsEarliest(s: seq<Timer>, n: nat, j: nat)
    requires HeapFrom(s, 0, n) && j < n
    ensures s[0].deadline <= s[j].deadline
  {
    if j > 0 {
      FrontIsEarliest(s, n, Parent(j));
      assert InOrder(s, Parent(j), j);
    }
  }

  function Swap(s: seq<Timer>, i: nat, j: nat): (r: seq<Timer>)
    requires i < |s| && j < |s|
    ensures multiset(r) == multiset(s) && |r| == |s|
    ensures r[i] == s[j] && r[j] == s[i]
    ensures forall k :: 0 <= k < |s| && k != i && k != j ==> r[k] == s[k]
  {
    var r := s[i := s[j]][j := s[i]];
    SwapPermutes(s, i, j);
    r
  }

  lemma SwapPermutes(s: seq<Timer>, i: nat, j: nat)
    requires i < |s| && j < |s|
    ensures multiset(s[i := s[j]][j := s[i]]) == multiset(s)
  {
    assert multiset(s[i := s[j]]) == multiset(s) - multiset{s[i]} + multiset{s[j]};
  }

  /** A heap except that the element at x may be earlier than its parent. */
  ghost predicate Rising(s: seq<Timer>, x: nat) {
    && x < |s|
    && (forall i, j :: 0 <= i < j < |s| && IsChild(i, j) && j != x ==> InOrder(s, i, j))
    && (forall i, j :: 0 <= i < x < j < |s| && IsChild(i, x) && IsChild(x, j) ==> InOrder(s, i, j))
  }

  lemma RiseStep(s: seq<Timer>, x: nat)
    requires Rising(s, x) && x > 0 && !InOrder(s, Parent(x), x)
    ensures Rising(Swap(s, x, Parent(x)), Parent(x))
  {
    hide Swap, Parent;
    var p := Parent(x);
    var r := Swap(s, x, p);
    forall i, j | 0 <= i < j < |r| && IsChild(i, j) && j != p ensures InOrder(r, i, j) {
      if i == x {
        assert InOrder(s, p, j);
      } else if i == p && j != x {
        assert InOrder(s, p, j);
      } else if j != x {
        assert InOrder(s, i, j);
      }
    }
    forall i, j | 0 <= i < p < j < |r| && IsChild(i, p) && IsChild(p, j) ensures InOrder(r, i, j) {
      assert InOrder(s, i, p);
      if j != x {
        assert InOrder(s, p, j);
      }
    }
  }

  /** push_heap: the last element joins the heap in front of it. */
  method PushHeap(s: seq<Timer>) returns (r: seq<Timer>)
    requires s != [] && HeapFrom(s, 0, |s| - 1)
    ensures IsHeap(r) && multiset(r) == multiset(s)
  {
    hide Swap, InOrder;
    r := s;
    var x: nat := |s| - 1;
    while x > 0 && !InOrder(r, Parent(x), x)
      invariant Rising(r, x) && |r| == |s| && multiset(r) == multiset(s)
    {
      RiseStep(r, x);
      r := Swap(r, x, Parent(x));
      x := Parent(x);
    }
  }

  ghost predicate LastIsEarliest(s: seq<Timer>)
    requires s != []
  {
    forall t :: t in s ==> s[|s| - 1].deadline <= t.deadline
  }

  /** pop_heap: the front goes to the end, the others become a heap again. */
  method PopHeap(s: seq<Timer>) returns (r: seq<Timer>)
    requires s != [] && IsHeap(s)
    ensures |r| == |s| && r[|r| - 1] == s[0] && HeapFrom(r, 0, |r| - 1)
    ensures multiset(r) == multiset(s)
    ensures LastIsEarliest(r)
  {
    var n := |s| - 1;
    r := Swap(s, 0, n);
    r := SiftDown(r, 0, n);
    assert r[n] == r[n..][0] == s[0];
    forall t | t in r ensures s[0].deadline <= t.deadline {
      assert t in multiset(s);
      var j :| 0 <= j < |s| && s[j] == t;
      FrontIsEarliest(s, |s|, j);
    }
  }

  /** make_heap: any order becomes a heap. */
  method MakeHeap(s: seq<Timer>) returns (r: seq<Timer>)
    ensures IsHeap(r) && multiset(r) == multiset(s)
  {
    r := s;
    var k := |s|;
    while k > 0
      invariant 0 <= k <= |r| == |s|
      invariant HeapFrom(r, k, |r|) && multiset(r) == multiset(s)
    {
      k := k - 1;
      r := SiftDown(r, k, |r|);
    }
  }

  /** A heap from k on, except that the element at x may be later than its children. */
  ghost predicate Sinking(s: seq<Timer>, k: nat, n: nat, x: nat) {
    && n <= |s| && k <= x
    && (forall i, j :: k <= i < j < n && IsChild(i, j) && i != x ==> InOrder(s, i, j))
    && (forall i, j :: k <= i < x < j < n && IsChild(i, x) && IsChild(x, j) ==> InOrder(s, i, j))
  }

  lemma SinkStep(s: seq<Timer>, k: nat, n: nat, x: nat, child: nat)
    requires Sinking(s, k, n, x) && child < n && IsChild(x, child)
    requires forall j :: x < j < n && IsChild(x, j) ==> InOrder(s, child, j)
    requires !InOrder(s, x, child)
    ensures Sinking(Swap(s, x, child), k, n, child)
  {
    hide Swap;
    var r := Swap(s, x, child);
    forall i, j | k <= i < j < n && IsChild(i, j) && i != child ensures InOrder(r, i, j) {
      if i == x {
        assert InOrder(s, child, j);
      } else if j == x {
        assert InOrder(s, i, child);
      } else {
        assert InOrder(s, i, j);
      }
    }
    forall i, j | k <= i < child < j < n && IsChild(i, child) && IsChild(child, j) ensures InOrder(r, i, j) {
      assert InOrder(s, child, j);
    }
  }

  /** The element at k sinks until its children, if any, are not earlier. */
  method SiftDown(s: seq<Timer>, k: nat, n: nat) returns (r: seq<Timer>)
    requires HeapFrom(s, k + 1, n)
    ensures |r| == |s| && HeapFrom(r, k, n) && multiset(r) == multiset(s)
    ensures r[n..] == s[n..]
  {
    hide Swap;
    r := s;
    var x := k;
    while 2 * x + 1 < n
      invariant Sinking(r, k, n, x) && |r| == |s|
      invariant (forall j :: n <= j < |s| ==> r[j] == s[j]) && multiset(r) == multiset(s)
      decreases n - x
    {
      var child := 2 * x + 1;
      if child + 1 < n && !InOrder(r, child, child + 1) {
        child := child + 1;
      }
      if InOrder(r, x, child) {
        return;
      }
      SinkStep(r, k, n, x, child);
      r := Swap(r, x, child);
      x := child;
    }
  }
}
