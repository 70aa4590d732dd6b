/**
 The CIRCLEQ macros of queue.h. CIRCLEQ_HEAD {first, last} and CIRCLEQ_ENTRY {next, prev} have the
 same shape, and the head is the sentinel that closes the circle, so both are a Node here.
 */
module CircleQueue {
  import opened Splice

  class Node {
    var next: Node?  // cqh_first, cqe_next
    var prev: Node?  // cqh_last, cqe_prev

    constructor ()
      ensures next == null && prev == null
    {
      next, prev := null, null;
    }
  }

  ghost predicate Joint(ns: seq<Node>, i: nat)
    requires i < |ns|
    reads ns
  {
    ns[i].next == ns[After(ns, i)] && ns[After(ns, i)].prev == ns[i]
  }

  /** A circular queue: its head, and then its elements in order. */
  ghost predicate Circle(ns: seq<Node>)
    reads ns
  {
    ns != [] && Distinct(ns) && forall i :: 0 <= i < |ns| ==> Joint(ns, i)
  }

  /** What a circle says of one element and its neighbours. */
  lemma At(ns: seq<Node>, k: nat)
    requires Circle(ns) && k < |ns|
    ensures Distinct(ns) && forall i :: 0 <= i < |ns| ==> Joint(ns, i)
    ensures ns[k].next == ns[After(ns, k)] && ns[After(ns, k)].prev == ns[k]
    ensures k > 0 ==> ns[k].prev == ns[k - 1] && ns[k - 1].next == ns[k] && ns[k] != ns[0]
    ensures ns[0].prev == ns[|ns| - 1] && ns[|ns| - 1].next == ns[0]
    ensures ns[k].next == ns[0] <==> k == |ns| - 1
  {
    assert Joint(ns, k) && Joint(ns, |ns| - 1);
    if k > 0 {
      assert Joint(ns, k - 1);
    }
  }

  method Init(head: Node)
    modifies head
    ensures Circle([head])
  {
    head.next := head;
    head.prev := head;
  }

  /** The pointers an insertion has to set, when it leaves the others alone. */
  lemma InsertedNodes(ns: seq<Node>, k: nat, elm: Node)
    requires k < |ns| && Distinct(ns) && elm !in ns
    requires forall i :: 0 <= i < |ns| && i != k ==> Joint(ns, i)
    requires ns[k].next == elm && elm.next == ns[After(ns, k)] && elm.prev == ns[k] && ns[After(ns, k)].prev == elm
    ensures Circle(Spliced(ns, k, elm))
  {
    SplicedDistinct(ns, k, elm);
    var ms := Spliced(ns, k, elm);
    forall i | 0 <= i < |ms|
      ensures Joint(ms, i)
    {
      hide Spliced, Distinct;
      SplicedAt(ns, k, elm, i);
      SplicedAt(ns, k, elm, if i < |ns| then i + 1 else 0);
      if i < k {
        assert Joint(ns, i);
      } else if i > k + 1 {
        assert Joint(ns, i - 1);
      }
    }
  }

  /** The two pointers a removal has to set. */
  lemma RemovedNodes(ns: seq<Node>, k: nat)
    requires 0 < k < |ns| && Distinct(ns)
    requires forall i :: 0 <= i < |ns| && i != k - 1 && i != k ==> Joint(ns, i)
    requires ns[k - 1].next == ns[After(ns, k)] && ns[After(ns, k)].prev == ns[k - 1]
    ensures Circle(Without(ns, k))
  {
    WithoutDistinct(ns, k);
    var ms := Without(ns, k);
    forall i | 0 <= i < |ms|
      ensures Joint(ms, i)
    {
      hide Without, Distinct;
      WithoutAt(ns, k, i);
      WithoutAt(ns, k, if i + 1 < |ms| then i + 1 else 0);
      if i < k - 1 {
        assert Joint(ns, i);
      } else if i >= k {
        assert Joint(ns, i + 1);
      }
    }
  }

  method InsertAfter(head: Node, listelm: Node, elm: Node, ghost ns: seq<Node>, ghost k: nat)
    requires Circle(ns) && ns[0] == head && elm !in ns && 0 < k < |ns| && ns[k] == listelm
    modifies elm, listelm, ns[After(ns, k)]
    ensures Circle(Spliced(ns, k, elm))
  {
    hide Distinct, Spliced;
    At(ns, k);
    elm.next := listelm.next;
    elm.prev := listelm;
    if listelm.next == head {
      head.prev := elm;
    } else {
      listelm.next.prev := elm;
    }
    listelm.next := elm;
    forall i | 0 <= i < |ns| && i != k
      ensures Joint(ns, i)
    {
      assert old(Joint(ns, i));
      OtherLinks(ns, k, i);
    }
    InsertedNodes(ns, k, elm);
  }

  method InsertBefore(head: Node, listelm: Node, elm: Node, ghost ns: seq<Node>, ghost k: nat)
    requires Circle(ns) && ns[0] == head && elm !in ns && k + 1 < |ns| && ns[k + 1] == listelm
    modifies elm, listelm, ns[k]
    ensures Circle(Spliced(ns, k, elm))
  {
    hide Distinct, Spliced;
    At(ns, k + 1);
    elm.next := listelm;
    elm.prev := listelm.prev;
    if listelm.prev == head {
      head.next := elm;
    } else {
      listelm.prev.next := elm;
    }
    listelm.prev := elm;
    forall i | 0 <= i < |ns| && i != k
      ensures Joint(ns, i)
    {
      assert old(Joint(ns, i));
      OtherLinks(ns, k, i);
    }
    InsertedNodes(ns, k, elm);
  }

  method InsertHead(head: Node, elm: Node, ghost ns: seq<Node>)
    requires Circle(ns) && ns[0] == head && elm !in ns
    modifies head, elm, ns[After(ns, 0)]
    ensures Circle(Spliced(ns, 0, elm))
  {
    hide Distinct, Spliced;
    At(ns, 0);
    elm.next := head.next;
    elm.prev := head;
    if head.prev == head {
      head.prev := elm;
    } else {
      head.next.prev := elm;
    }
    head.next := elm;
    OneOrMore(ns);
    forall i | 0 <= i < |ns| && i != 0
      ensures Joint(ns, i)
    {
      assert old(Joint(ns, i));
      OtherLinks(ns, 0, i);
    }
    InsertedNodes(ns, 0, elm);
  }

  lemma OneOrMore(ns: seq<Node>)
    requires Distinct(ns) && ns != []
    ensures ns[|ns| - 1] == ns[0] <==> |ns| == 1
  {
  }

  method InsertTail(head: Node, elm: Node, ghost ns: seq<Node>)
    requires Circle(ns) && ns[0] == head && elm !in ns
    modifies head, elm, ns[|ns| - 1]
    ensures Circle(Spliced(ns, |ns| - 1, elm))
  {
    hide Distinct, Spliced;
    ghost var k := |ns| - 1;
    At(ns, 0);
    At(ns, k);
    elm.next := head;
    elm.prev := head.prev;
    if head.next == head {
      head.next := elm;
    } else {
      head.prev.next := elm;
    }
    head.prev := elm;
    forall i | 0 <= i < |ns| && i != k
      ensures Joint(ns, i)
    {
      assert old(Joint(ns, i));
      OtherLinks(ns, k, i);
    }
    InsertedNodes(ns, k, elm);
  }

  method Remove(head: Node, elm: Node, ghost ns: seq<Node>, ghost k: nat)
    requires Circle(ns) && ns[0] == head && 0 < k < |ns| && ns[k] == elm
    modifies ns[k - 1], ns[After(ns, k)]
    ensures Circle(Without(ns, k))
  {
    hide Distinct, Without;
    At(ns, k);
    if elm.next == head {
      head.prev := elm.prev;
    } else {
      elm.next.prev := elm.prev;
    }
    OtherLinks(ns, k - 1, k);
    if elm.prev == head {
      head.next := elm.next;
    } else {
      elm.prev.next := elm.next;
    }
    forall i | 0 <= i < |ns| && i != k - 1 && i != k
      ensures Joint(ns, i)
    {
      assert old(Joint(ns, i));
      OtherLinks(ns, k - 1, i);
      OtherLinks(ns, k, i);
    }
    RemovedNodes(ns, k);
  }

  /** Position of the element after the k-th, looping past the head. */
  function LoopAfter(n: nat, k: nat): (j: nat)
    requires 0 < k <= n
    ensures 0 < j <= n
  {
    if k == n then 1 else k + 1
  }

  /** CIRCLEQ_LOOP_NEXT, which skips the head. */
  method LoopNext(head: Node, elm: Node, ghost ns: seq<Node>, ghost k: nat) returns (next: Node)
    requires Circle(ns) && ns[0] == head && 0 < k < |ns| && ns[k] == elm
    ensures next == ns[LoopAfter(|ns| - 1, k)]
  {
    hide Distinct;
    At(ns, k);
    At(ns, 0);
    if elm.next == head {
      next := head.next;
    } else {
      next := elm.next;
    }
  }

  /** CIRCLEQ_LOOP_PREV is its inverse. */
  method LoopPrev(head: Node, elm: Node, ghost ns: seq<Node>, ghost k: nat) returns (prev: Node)
    requires Circle(ns) && ns[0] == head && 0 < k < |ns| && ns[LoopAfter(|ns| - 1, k)] == elm
    ensures prev == ns[k]
  {
    hide Distinct;
    At(ns, k);
    At(ns, LoopAfter(|ns| - 1, k));
    if elm.prev == head {
      prev := head.prev;
    } else {
      prev := elm.prev;
    }
  }

  /** The elements passed on the way from the k-th element to the j-th. */
  ghost function Passed(ns: seq<Node>, k: nat, j: nat): seq<Node>
    requires 0 < k < |ns| && 0 < j < |ns|
  {
    if j > k then ns[k..j] else ns[k..] + ns[1..j]
  }

  lemma PassedFirst(ns: seq<Node>, k: nat)
    requires 0 < k < |ns|
    ensures Passed(ns, k, LoopAfter(|ns| - 1, k)) == [ns[k]]
  {
  }

  lemma PassedNext(ns: seq<Node>, k: nat, j: nat)
    requires 0 < k < |ns| && 0 < j < |ns| && j != k
    ensures Passed(ns, k, LoopAfter(|ns| - 1, j)) == Passed(ns, k, j) + [ns[j]]
    ensures Ahead(|ns| - 1, k, LoopAfter(|ns| - 1, j)) < Ahead(|ns| - 1, k, j)
  {
    var n := |ns| - 1;
    if j == n {
      assert ns[k..] + ns[1..1] == ns[k..n] + [ns[n]];
    } else if j > k {
      assert ns[k..j + 1] == ns[k..j] + [ns[j]];
    } else {
      assert ns[1..j + 1] == ns[1..j] + [ns[j]];
      assert ns[k..] + (ns[1..j] + [ns[j]]) == ns[k..] + ns[1..j] + [ns[j]];
    }
  }

  /** How far it still is from the j-th element to the k-th. */
  ghost function Ahead(n: nat, k: nat, j: nat): nat
    requires 0 < k <= n && 0 < j <= n
  {
    if j > k then n - j + k else k - j
  }

  /** Once around from the k-th element: every element once, in the order of the circle. */
  method Around(head: Node, start: Node, ghost ns: seq<Node>, ghost k: nat) returns (visited: seq<Node>)
    requires Circle(ns) && ns[0] == head && 0 < k < |ns| && ns[k] == start
    ensures visited == ns[k..] + ns[1..k]
  {
    hide Distinct, Circle, Joint, LoopAfter, Passed, Ahead;
    visited := [start];
    ghost var n := |ns| - 1;
    PassedFirst(ns, k);
    ghost var j := LoopAfter(n, k);
    var elm := LoopNext(head, start, ns, k);
    Different(ns, j, k);
    while elm != start
      invariant 0 < j <= n && elm == ns[j] && visited == Passed(ns, k, j)
      invariant elm == start <==> j == k
      decreases Ahead(n, k, j)
    {
      PassedNext(ns, k, j);
      visited := visited + [elm];
      elm := LoopNext(head, elm, ns, j);
      j := LoopAfter(n, j);
      Different(ns, j, k);
    }
    PassedAll(ns, k);
  }

  lemma PassedAll(ns: seq<Node>, k: nat)
    requires 0 < k < |ns|
    ensures Passed(ns, k, k) == ns[k..] + ns[1..k]
  {
  }

  lemma Different(ns: seq<Node>, j: nat, k: nat)
    requires Circle(ns) && j < |ns| && k < |ns|
    ensures ns[j] == ns[k] <==> j == k
  {
  }

  /** CIRCLEQ_FOREACH. */
  method Forward(head: Node, ghost ns: seq<Node>) returns (visited: seq<Node>)
    requires Circle(ns) && ns[0] == head
    ensures visited == ns[1..]
  {
    hide Distinct;
    At(ns, 0);
    visited := [];
    var elm := head.next;
    ghost var k := After(ns, 0);
    while elm != head
      invariant 0 <= k < |ns| && elm == ns[k] && (elm == head <==> k == 0)
      invariant visited == if k == 0 then ns[1..] else ns[1..k]
      decreases if k == 0 then 0 else |ns| - k
    {
      At(ns, k);
      visited := visited + [elm];
      elm := elm.next;
      k := After(ns, k);
      Different(ns, k, 0);
    }
  }

  /** CIRCLEQ_FOREACH_REVERSE: what CIRCLEQ_FOREACH visits, backwards. */
  method Backward(head: Node, ghost ns: seq<Node>) returns (visited: seq<Node>)
    requires Circle(ns) && ns[0] == head
    ensures |visited| == |ns| - 1 && forall i :: 0 <= i < |visited| ==> visited[i] == ns[|ns| - 1 - i]
  {
    hide Distinct;
    At(ns, |ns| - 1);
    visited := [];
    var elm := head.prev;
    ghost var k := |ns| - 1;
    Different(ns, k, 0);
    while elm != head
      invariant 0 <= k < |ns| && elm == ns[k] && (elm == head <==> k == 0)
      invariant |visited| == |ns| - 1 - k && forall i :: 0 <= i < |visited| ==> visited[i] == ns[|ns| - 1 - i]
      decreases k
    {
      At(ns, k);
      visited := visited + [elm];
      elm := elm.prev;
      k := k - 1;
      Different(ns, k, 0);
    }
  }
}
