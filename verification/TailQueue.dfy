/**
 The TAILQ macros of queue.h. TAILQ_HEAD {first, last} and TAILQ_ENTRY {next, prev} have the same
 layout, which TAILQ_LAST and TAILQ_PREV rely on, so both are a Link here. `last` and `prev` point
 to a pointer, which is always the first field of a Link, and are represented by that Link:
 "*p" reads "p.next".
 */
module TailQueue {
  import opened Splice

  class Link {
    var next: Link?  // tqh_first, tqe_next
    var prev: Link?  // the Link whose first field tqh_last or tqe_prev points to

    constructor ()
      ensures next == null && prev == null
    {
      next, prev := null, null;
    }
  }

  ghost function Succ(ns: seq<Link>, i: nat): Link?
    requires i < |ns|
  {
    if i + 1 < |ns| then ns[i + 1] else null
  }

  /** The i-th link leads to the next one, or ends the queue, and the next one, or the head, leads back. */
  ghost predicate Joint(ns: seq<Link>, i: nat)
    requires i < |ns|
    reads ns
  {
    ns[i].next == Succ(ns, i) && ns[After(ns, i)].prev == ns[i]
  }

  ghost predicate Joints(ns: seq<Link>)
    reads ns
  {
    forall i :: 0 <= i < |ns| ==> Joint(ns, i)
  }

  /** A tail queue: its head, and then its elements in order. */
  ghost predicate Queue(ns: seq<Link>)
    reads ns
  {
    ns != [] && Distinct(ns) && Joints(ns)
  }

  method Init(head: Link)
    modifies head
    ensures Queue([head])
  {
    head.next := null;
    head.prev := head;
  }

  /** Every joint but the k-th is in order. */
  ghost predicate JointsBut(ns: seq<Link>, k: nat)
    reads ns
  {
    forall i :: 0 <= i < |ns| && i != k ==> Joint(ns, i)
  }

  /** The pointers an insertion has to set, when it leaves the others alone. */
  lemma InsertedLinks(ns: seq<Link>, k: nat, elm: Link)
    requires k < |ns| && JointsBut(ns, k) && Distinct(ns) && elm !in ns
    requires ns[k].next == elm && elm.next == Succ(ns, k) && elm.prev == ns[k] && ns[After(ns, k)].prev == elm
    ensures Queue(Spliced(ns, k, elm))
  {
    SplicedDistinct(ns, k, elm);
    var ms := Spliced(ns, k, elm);
    forall i | 0 <= i < |ms|
      ensures Joint(ms, i)
    {
      hide Spliced, Distinct;
      SplicedAt(ns, k, elm, i);
      SplicedAt(ns, k, elm, if i < |ns| then i + 1 else 0);
      if i < k {
        assert Joint(ns, i);
      } else if i > k + 1 {
        assert Joint(ns, i - 1);
      }
    }
  }

  /** What the joints say of the ends. */
  lemma Ends(ns: seq<Link>)
    requires Queue(ns)
    ensures ns[0].next == Succ(ns, 0) && ns[0].prev == ns[|ns| - 1] && ns[|ns| - 1].next == null
    ensures |ns| > 1 ==> ns[1].prev == ns[0]
    ensures ns != [] && Distinct(ns) && Joints(ns)
  {
    assert Joint(ns, 0) && Joint(ns, |ns| - 1);
  }

  method InsertHead(head: Link, elm: Link, ghost ns: seq<Link>)
    requires Queue(ns) && ns[0] == head && elm !in ns
    modifies head, elm, ns[After(ns, 0)]
    ensures Queue(Spliced(ns, 0, elm))
  {
    hide Distinct, Spliced;
    Ends(ns);
    elm.next := head.next;
    if elm.next != null {
      head.next.prev := elm;
    } else {
      head.prev := elm;
    }
    head.next := elm;
    elm.prev := head;
    forall i | 0 <= i < |ns| && i != 0
      ensures Joint(ns, i)
    {
      assert old(Joint(ns, i));
      OtherLinks(ns, 0, i);
    }
    InsertedLinks(ns, 0, elm);
  }

  method InsertTail(head: Link, elm: Link, ghost ns: seq<Link>)
    requires Queue(ns) && ns[0] == head && elm !in ns
    modifies head, elm, ns[|ns| - 1]
    ensures Queue(Spliced(ns, |ns| - 1, elm))
  {
    hide Distinct, Spliced;
    Ends(ns);
    ghost var k := |ns| - 1;
    elm.next := null;
    elm.prev := head.prev;
    head.prev.next := elm;
    head.prev := elm;
    forall i | 0 <= i < |ns| && i != k
      ensures Joint(ns, i)
    {
      assert old(Joint(ns, i));
      OtherLinks(ns, k, i);
    }
    InsertedLinks(ns, k, elm);
  }

  method InsertAfter(head: Link, listelm: Link, elm: Link, ghost ns: seq<Link>, ghost k: nat)
    requires Queue(ns) && ns[0] == head && elm !in ns && 0 < k < |ns| && ns[k] == listelm
    modifies elm, listelm, ns[After(ns, k)]
    ensures Queue(Spliced(ns, k, elm))
  {
    hide Distinct, Spliced;
    Ends(ns);
    assert Joint(ns, k);
    elm.next := listelm.next;
    if elm.next != null {
      elm.next.prev := elm;
    } else {
      head.prev := elm;
    }
    listelm.next := elm;
    elm.prev := listelm;
    forall i | 0 <= i < |ns| && i != k
      ensures Joint(ns, i)
    {
      assert old(Joint(ns, i));
      OtherLinks(ns, k, i);
    }
    InsertedLinks(ns, k, elm);
  }

  method InsertBefore(listelm: Link, elm: Link, ghost ns: seq<Link>, ghost k: nat)
    requires Queue(ns) && elm !in ns && k + 1 < |ns| && ns[k + 1] == listelm
    modifies elm, listelm, ns[k]
    ensures Queue(Spliced(ns, k, elm))
  {
    hide Distinct, Spliced;
    Ends(ns);
    assert Joint(ns, k);
    elm.prev := listelm.prev;
    elm.next := listelm;
    listelm.prev.next := elm;
    listelm.prev := elm;
    forall i | 0 <= i < |ns| && i != k
      ensures Joint(ns, i)
    {
      assert old(Joint(ns, i));
      OtherLinks(ns, k, i);
    }
    InsertedLinks(ns, k, elm);
  }

  /** The two pointers a removal has to set. */
  lemma RemovedLinks(ns: seq<Link>, k: nat)
    requires 0 < k < |ns| && Distinct(ns)
    requires forall i :: 0 <= i < |ns| && i != k - 1 && i != k ==> Joint(ns, i)
    requires ns[k - 1].next == Succ(ns, k) && ns[After(ns, k)].prev == ns[k - 1]
    ensures Queue(Without(ns, k))
  {
    WithoutDistinct(ns, k);
    var ms := Without(ns, k);
    forall i | 0 <= i < |ms|
      ensures Joint(ms, i)
    {
      hide Without, Distinct;
      WithoutAt(ns, k, i);
      WithoutAt(ns, k, if i + 1 < |ms| then i + 1 else 0);
      if i < k - 1 {
        assert Joint(ns, i);
      } else if i >= k {
        assert Joint(ns, i + 1);
      }
    }
  }

  method Remove(head: Link, elm: Link, ghost ns: seq<Link>, ghost k: nat)
    requires Queue(ns) && ns[0] == head && 0 < k < |ns| && ns[k] == elm
    modifies ns[k - 1], ns[After(ns, k)]
    ensures Queue(Without(ns, k))
  {
    hide Distinct, Without;
    Ends(ns);
    assert Joint(ns, k) && Joint(ns, k - 1);
    if elm.next != null {
      elm.next.prev := elm.prev;
    } else {
      head.prev := elm.prev;
    }
    elm.prev.next := elm.next;
    OtherLinks(ns, k - 1, k);
    forall i | 0 <= i < |ns| && i != k - 1 && i != k
      ensures Joint(ns, i)
    {
      assert old(Joint(ns, i));
      OtherLinks(ns, k - 1, i);
      OtherLinks(ns, k, i);
    }
    RemovedLinks(ns, k);
  }

  method Replace(head: Link, elm: Link, elm2: Link, ghost ns: seq<Link>, ghost k: nat)
    requires Queue(ns) && ns[0] == head && 0 < k < |ns| && ns[k] == elm && elm2 !in ns
    modifies elm2, ns[k - 1], ns[After(ns, k)]
    ensures Queue(ns[k := elm2])
  {
    hide Distinct;
    Ends(ns);
    assert Joint(ns, k) && Joint(ns, k - 1);
    elm2.next := elm.next;
    if elm2.next != null {
      elm2.next.prev := elm2;
    } else {
      head.prev := elm2;
    }
    elm2.prev := elm.prev;
    elm2.prev.next := elm2;
    ReplacedDistinct(ns, k, elm2);
    OtherLinks(ns, k - 1, k);
    ghost var ms := ns[k := elm2];
    forall i | 0 <= i < |ms|
      ensures Joint(ms, i)
    {
      assert old(Joint(ns, i));
      if i != k {
        OtherLinks(ns, k, i);
      }
      if i != k - 1 {
        OtherLinks(ns, k - 1, i);
      }
    }
  }

  /** The elements of the second queue behind those of the first. */
  ghost function Joined(ns: seq<Link>, ms: seq<Link>): seq<Link>
    requires ms != []
  {
    ns + ms[1..]
  }

  lemma JoinedAt(ns: seq<Link>, ms: seq<Link>, i: nat)
    requires ms != [] && i < |ns| + |ms| - 1
    ensures |Joined(ns, ms)| == |ns| + |ms| - 1
    ensures Joined(ns, ms)[i] == if i < |ns| then ns[i] else ms[i - |ns| + 1]
  {
  }

  ghost predicate Disjoint(ns: seq<Link>, ms: seq<Link>) {
    forall i, j :: 0 <= i < |ns| && 0 <= j < |ms| ==> ns[i] != ms[j]
  }

  lemma JoinedDistinct(ns: seq<Link>, ms: seq<Link>)
    requires Distinct(ns) && Distinct(ms) && Disjoint(ns, ms) && ms != []
    ensures Distinct(Joined(ns, ms))
  {
    forall i, j | 0 <= i < j < |ns| + |ms| - 1
      ensures Joined(ns, ms)[i] != Joined(ns, ms)[j]
    {
      JoinedAt(ns, ms, i);
      JoinedAt(ns, ms, j);
    }
  }

  /** The three pointers a concatenation has to set. */
  lemma JoinedLinks(ns: seq<Link>, ms: seq<Link>)
    requires ns != [] && |ms| > 1 && Distinct(ns) && Distinct(ms) && Disjoint(ns, ms)
    requires forall i :: 0 <= i < |ns| - 1 ==> Joint(ns, i)
    requires forall i :: 1 <= i < |ms| - 1 ==> Joint(ms, i)
    requires ns[|ns| - 1].next == ms[1] && ms[1].prev == ns[|ns| - 1]
    requires ns[0].prev == ms[|ms| - 1] && ms[|ms| - 1].next == null
    ensures Queue(Joined(ns, ms))
  {
    JoinedDistinct(ns, ms);
    var all := Joined(ns, ms);
    forall i | 0 <= i < |all|
      ensures Joint(all, i)
    {
      hide Joined, Distinct, Disjoint;
      JoinedAt(ns, ms, i);
      JoinedAt(ns, ms, if i + 1 < |ns| + |ms| - 1 then i + 1 else 0);
      if i < |ns| - 1 {
        assert Joint(ns, i);
      } else if |ns| <= i < |all| - 1 {
        assert Joint(ms, i - |ns| + 1);
      }
    }
  }

  method Concat(head1: Link, head2: Link, ghost ns: seq<Link>, ghost ms: seq<Link>)
    requires Queue(ns) && Queue(ms) && Disjoint(ns, ms) && ns[0] == head1 && ms[0] == head2
    modifies head1, head2, ns[|ns| - 1], ms[After(ms, 0)]
    ensures Queue(Joined(ns, ms)) && Queue([head2])
  {
    hide Distinct, Joined;
    Ends(ns);
    Ends(ms);
    if head2.next != null {
      ghost var l := |ns| - 1;
      assert Joint(ms, |ms| - 1);
      head1.prev.next := head2.next;
      head2.next.prev := head1.prev;
      head1.prev := head2.prev;
      Init(head2);
      forall i | 0 <= i < l
        ensures Joint(ns, i)
      {
        assert old(Joint(ns, i));
        OtherLinks(ns, l, i);
      }
      forall i | 1 <= i < |ms| - 1
        ensures Joint(ms, i)
      {
        assert old(Joint(ms, i));
        OtherLinks(ms, 0, i);
        OtherLinks(ms, |ms| - 1, i);
      }
      OtherLinks(ms, 0, |ms| - 1);
      JoinedLinks(ns, ms);
    } else {
      JoinedNothing(ns, ms);
    }
  }

  lemma JoinedNothing(ns: seq<Link>, ms: seq<Link>)
    requires |ms| == 1
    ensures Joined(ns, ms) == ns && ms == [ms[0]]
  {
  }

  lemma NextIs(ns: seq<Link>, k: nat)
    requires Queue(ns) && k < |ns|
    ensures ns[k].next == Succ(ns, k)
  {
    assert Joint(ns, k);
  }

  /** TAILQ_NEXT, and TAILQ_FIRST for k = 0. */
  method Next(elm: Link, ghost ns: seq<Link>, ghost k: nat) returns (next: Link?)
    requires Queue(ns) && k < |ns| && ns[k] == elm
    ensures next == Succ(ns, k)
  {
    hide Distinct;
    assert Joint(ns, k);
    next := elm.next;
  }

  /** TAILQ_LAST and TAILQ_PREV: the Link before it is read as if it were a head. */
  method LastOrPrev(elm: Link, ghost ns: seq<Link>, ghost k: nat) returns (found: Link?)
    requires Queue(ns) && k < |ns| && ns[k] == elm
    ensures found == if k == 1 || |ns| == 1 then null else if k == 0 then ns[|ns| - 1] else ns[k - 1]
  {
    hide Distinct;
    Ends(ns);
    ghost var b := if k == 0 then |ns| - 1 else k - 1;
    ghost var c := if b == 0 then |ns| - 1 else b - 1;
    assert Joint(ns, b) && Joint(ns, c);
    found := elm.prev.prev.next;
  }

  /** TAILQ_FOREACH. */
  method Forward(head: Link, ghost ns: seq<Link>) returns (visited: seq<Link>)
    requires Queue(ns) && ns[0] == head
    ensures visited == ns[1..]
  {
    hide Distinct;
    assert Joint(ns, 0);
    visited := [];
    var elm := head.next;
    ghost var k := 1;
    while elm != null
      invariant 1 <= k <= |ns| && elm == (if k < |ns| then ns[k] else null)
      invariant visited == ns[1..k]
      decreases |ns| - k
    {
      assert Joint(ns, k);
      visited := visited + [elm];
      elm := elm.next;
      k := k + 1;
    }
  }

  ghost function Reversed(ns: seq<Link>): seq<Link> {
    if ns == [] then [] else [ns[|ns| - 1]] + Reversed(ns[..|ns| - 1])
  }

  /** TAILQ_FOREACH_REVERSE: what TAILQ_FOREACH visits, backwards. */
  method Backward(head: Link, ghost ns: seq<Link>) returns (visited: seq<Link>)
    requires Queue(ns) && ns[0] == head
    ensures visited == Reversed(ns[1..])
  {
    hide Distinct, Reversed;
    visited := [];
    ghost var k := |ns|;
    var elm := LastOrPrev(head, ns, 0);
    ReversedEnds(ns[1..]);
    while elm != null
      invariant 1 <= k <= |ns| && elm == (if k > 1 then ns[k - 1] else null)
      invariant Reversed(ns[1..]) == visited + Reversed(ns[1..][..k - 1])
      decreases k
    {
      ReversedLast(ns[1..], k - 1);
      visited := visited + [elm];
      k := k - 1;
      elm := LastOrPrev(elm, ns, k);
    }
  }

  lemma ReversedEnds(s: seq<Link>)
    ensures s[..|s|] == s && Reversed(s[..0]) == []
  {
  }

  lemma ReversedLast(s: seq<Link>, k: nat)
    requires 0 < k <= |s|
    ensures Reversed(s[..k]) == [s[k - 1]] + Reversed(s[..k - 1])
  {
    assert s[..k][..k - 1] == s[..k - 1];
  }

  /** The elements that are not to be dropped, in order. */
  ghost function Kept(ns: seq<Link>, drop: set<Link>): seq<Link> {
    if ns == [] then []
    else Kept(ns[..|ns| - 1], drop) + if ns[|ns| - 1] in drop then [] else [ns[|ns| - 1]]
  }

  lemma {:induction false} KeptFrom(ns: seq<Link>, drop: set<Link>)
    ensures |Kept(ns, drop)| <= |ns| && forall l :: l in Kept(ns, drop) ==> l in ns
  {
    if ns != [] {
      KeptFrom(ns[..|ns| - 1], drop);
    }
  }

  lemma KeptNext(ns: seq<Link>, drop: set<Link>, i: nat)
    requires 1 <= i < |ns|
    ensures Kept(ns[1..i + 1], drop) == Kept(ns[1..i], drop) + if ns[i] in drop then [] else [ns[i]]
  {
    assert ns[1..i + 1][..i - 1] == ns[1..i] && ns[1..i + 1][i - 1] == ns[i];
  }

  /** The queue when the traversal has come to the i-th element. */
  ghost function Current(ns: seq<Link>, drop: set<Link>, i: nat): seq<Link>
    requires 1 <= i <= |ns|
  {
    [ns[0]] + Kept(ns[1..i], drop) + ns[i..]
  }

  lemma CurrentNext(ns: seq<Link>, drop: set<Link>, i: nat)
    requires 1 <= i < |ns|
    ensures var cur, k := Current(ns, drop, i), 1 + |Kept(ns[1..i], drop)|;
      && k < |cur| && cur[k] == ns[i] && cur[0] == ns[0] && (forall l :: l in cur ==> l in ns)
      && Succ(cur, k) == Succ(ns, i)
      && Current(ns, drop, i + 1) == if ns[i] in drop then Without(cur, k) else cur
  {
    hide Kept;
    KeptNext(ns, drop, i);
    KeptFrom(ns[1..i], drop);
    AroundOne([ns[0]] + Kept(ns[1..i], drop), ns, i);
  }

  lemma AroundOne(front: seq<Link>, ns: seq<Link>, i: nat)
    requires i < |ns|
    ensures (front + ns[i..])[|front|] == ns[i] && front + ns[i..] == front + [ns[i]] + ns[i + 1..]
    ensures Succ(front + ns[i..], |front|) == Succ(ns, i)
    ensures Without(front + ns[i..], |front|) == front + ns[i + 1..]
  {
  }

  /**
   TAILQ_FOREACH_SAFE around TAILQ_REMOVE, as the timeout scans and purges have it: every
   element is visited once although some are taken out on the way.
   */
  method RemoveSafely(head: Link, drop: set<Link>, ghost ns: seq<Link>) returns (visited: seq<Link>)
    requires Queue(ns) && ns[0] == head
    modifies ns
    ensures visited == ns[1..] && Queue([head] + Kept(ns[1..], drop))
  {
    hide Queue, Distinct, Joints, Current, Kept;
    visited := [];
    ghost var i := 1;
    Ends(ns);
    StartCurrent(ns, drop);
    var elm := Next(head, ns, 0);
    while elm != null
      invariant 1 <= i <= |ns| && visited == ns[1..i]
      invariant Queue(Current(ns, drop, i)) && elm == if i < |ns| then ns[i] else null
      decreases |ns| - i
    {
      VisitedNext(ns, i);
      visited := visited + [elm];
      elm := VisitSafely(head, elm, drop, ns, i);
      i := i + 1;
    }
    EndCurrent(ns, drop);
  }

  /** One round: the next element is fetched before this one may go. */
  method VisitSafely(head: Link, elm: Link, drop: set<Link>, ghost ns: seq<Link>, ghost i: nat) returns (next: Link?)
    requires 1 <= i < |ns| && ns[i] == elm && ns[0] == head && Queue(Current(ns, drop, i))
    modifies ns
    ensures Queue(Current(ns, drop, i + 1)) && next == Succ(ns, i)
  {
    hide Queue, Distinct, Joints, Current, Kept, Without;
    ghost var cur, k := Current(ns, drop, i), 1 + |Kept(ns[1..i], drop)|;
    CurrentNext(ns, drop, i);
    NextIs(cur, k);
    next := elm.next;
    if elm in drop {
      Neighbours(cur, k, ns);
      Remove(head, elm, cur, k);
    }
  }

  lemma VisitedNext(ns: seq<Link>, i: nat)
    requires 1 <= i < |ns|
    ensures ns[1..i] + [ns[i]] == ns[1..i + 1] && Succ(ns, i) == if i + 1 < |ns| then ns[i + 1] else null
  {
  }

  lemma EndCurrent(ns: seq<Link>, drop: set<Link>)
    requires ns != []
    ensures Current(ns, drop, |ns|) == [ns[0]] + Kept(ns[1..], drop) && ns[1..|ns|] == ns[1..]
  {
    assert ns[|ns|..] == [] && ns[1..|ns|] == ns[1..];
  }

  lemma StartCurrent(ns: seq<Link>, drop: set<Link>)
    requires ns != []
    ensures Current(ns, drop, 1) == ns && ns[1..1] == []
  {
  }

  lemma Neighbours(cur: seq<Link>, k: nat, ns: seq<Link>)
    requires 0 < k < |cur| && forall l :: l in cur ==> l in ns
    ensures cur[k - 1] in ns && cur[After(cur, k)] in ns
  {
  }
}
