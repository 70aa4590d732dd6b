/**
 The life of a request of one broker: who holds it, how often it is retried, when it is freed,
 and which response belongs to it (rdkafka_buf.c, rdkafka_broker.c, rd.h).
 The heap is explicit: a request is named by its address and its record is gone once it is freed.
 */
module Requests {
  import Bytes

  const COUNTER: int := 0x1_0000_0000

  /** The correlation id of the n-th request enqueued: a signed 32-bit counter that wraps around. */
  function CorrId(n: nat): (c: int)
    ensures Bytes.FitsInt(c, 4)
  {
    Bytes.Widths();
    var m := n % COUNTER;
    if m < 0x8000_0000 then m else m - COUNTER
  }

  /** The counter starts behind 0 and is incremented; behind the highest value comes the lowest. */
  lemma CorrIdNext(n: nat)
    ensures CorrId(0) == 0 && CorrId(n + 1) == if CorrId(n) == 0x7fff_ffff then -0x8000_0000 else CorrId(n) + 1
  {
    var q, m := n / COUNTER, n % COUNTER;
    assert n == q * COUNTER + m;
    AddPeriods(m + 1, q);
  }

  /** The correlation id of the response, as the receiver reads it: the peer repeats the four octets. */
  function Echoed(n: nat): int { Bytes.DecodeInt(Bytes.EncodeInt(CorrId(n), 4)) }

  /** It is the request's own, whatever its sign. */
  lemma EchoedIs(n: nat)
    ensures Echoed(n) == CorrId(n)
  {
    hide Bytes.DecodeInt, Bytes.EncodeInt, CorrId;
    Bytes.IntRoundTrip(CorrId(n), 4);
  }

  /** Two enqueuings share a correlation id exactly when they lie a multiple of the counter period apart. */
  lemma SameCorrId(m: nat, n: nat)
    requires m <= n
    ensures CorrId(m) == CorrId(n) <==> exists k: nat :: n == m + k * COUNTER
    ensures m < n < m + COUNTER ==> CorrId(m) != CorrId(n)
  {
    if CorrId(m) == CorrId(n) {
      assert n == m + (n / COUNTER - m / COUNTER) * COUNTER;
    }
    if k: nat :| n == m + k * COUNTER {
      AddPeriods(m, k);
    }
  }

  lemma {:induction false} AddPeriods(m: nat, k: nat)
    ensures (m + k * COUNTER) % COUNTER == m % COUNTER
  {
    if k > 0 {
      AddPeriods(m, k - 1);
    }
  }

  datatype Error = NoError | Destroy | Failure

  /**
   `refs` is rkbuf_refcnt; `issue` tells which enqueuing gave the request its correlation id, 0 when
   none did yet; `of` is how much of it has been sent; `done` says that its callback has run and nothing was started since.
   */
  datatype Request = Request(corrid: int, issue: nat, retries: nat, refs: nat, cb: bool, replyq: bool,
                             noResponse: bool, of: nat, deadline: int, retryAt: int, result: Error, done: bool)

  /** A request as its maker hands it over, with one reference, and a deadline of its own or 0. */
  function NewRequest(cb: bool, replyq: bool, noResponse: bool, deadline: int): Request {
    Request(0, 0, 0, 1, cb, replyq, noResponse, 0, deadline, 0, NoError, false)
  }

  ghost predicate Numbered(r: Request, issued: nat) {
    0 < r.issue <= issued && r.corrid == CorrId(r.issue)
  }

  /** Every live request has one reference. */
  ghost predicate AllOnce(heap: map<nat, Request>) {
    forall id :: id in heap ==> heap[id].refs == 1
  }

  datatype Fate = Retried | Replied | Freed

  lemma NumberedBy(r: Request)
    requires r.issue > 0 && r.corrid == CorrId(r.issue)
    ensures Numbered(r, r.issue)
  {
  }

  ghost function Refs(heap: map<nat, Request>, id: nat): nat {
    if id in heap then heap[id].refs else 0
  }

  /** Every reference is counted, and a request lives exactly as long as someone holds one. */
  ghost predicate Owned(heap: map<nat, Request>, holders: multiset<nat>) {
    && (forall id: nat :: holders[id] == Refs(heap, id))
    && (forall id :: id in heap ==> heap[id].refs > 0)
  }

  ghost predicate Records(heap: map<nat, Request>, issued: nat, maxRetries: nat) {
    && (forall id :: id in heap ==> heap[id].retries <= maxRetries && (heap[id].replyq ==> heap[id].cb))
    && (forall id :: id in heap ==> heap[id].issue == 0 || Numbered(heap[id], issued))
    && (forall a, b :: a in heap && b in heap && a != b && heap[a].issue > 0 ==> heap[a].issue != heap[b].issue)
  }

  /** The requests of a queue are live and have been enqueued for sending. */
  ghost predicate Queued(heap: map<nat, Request>, queue: seq<nat>) {
    forall i :: 0 <= i < |queue| ==> queue[i] in heap && heap[queue[i]].issue > 0
  }

  /** The requests of a queue are live and none of their octets has been sent. */
  ghost predicate Unsent(heap: map<nat, Request>, queue: seq<nat>) {
    forall i :: 0 <= i < |queue| ==> queue[i] in heap && heap[queue[i]].of == 0
  }

  lemma UnsentSet(heap: map<nat, Request>, queue: seq<nat>, id: nat, r: Request)
    requires Unsent(heap, queue) && (id in heap ==> r.of == 0 || r.of == heap[id].of || id !in queue)
    ensures Unsent(heap[id := r], queue)
  {
  }

  lemma UnsentFree(heap: map<nat, Request>, queue: seq<nat>, id: nat)
    requires Unsent(heap, queue) && id !in queue
    ensures Unsent(heap - {id}, queue)
  {
  }

  lemma FirstUnsent(heap: map<nat, Request>, queue: seq<nat>)
    requires Unsent(heap, queue) && queue != []
    ensures queue[0] in heap && heap[queue[0]].of == 0
  {
  }

  lemma OwnedSet(heap: map<nat, Request>, holders: multiset<nat>, id: nat, r: Request, to: multiset<nat>)
    requires Owned(heap, holders) && r.refs > 0
    requires to == holders[id := r.refs]
    ensures Owned(heap[id := r], to)
  {
  }

  lemma OwnedFree(heap: map<nat, Request>, holders: multiset<nat>, id: nat)
    requires Owned(heap, holders) && Refs(heap, id) == 1
    ensures Owned(heap - {id}, holders - multiset{id})
  {
  }

  lemma RecordsSet(heap: map<nat, Request>, issued: nat, maxRetries: nat, id: nat, r: Request)
    requires Records(heap, issued, maxRetries) && id in heap
    requires r.retries <= maxRetries || r.retries == heap[id].retries
    requires r.replyq ==> r.cb || (heap[id].replyq && r.cb == heap[id].cb)
    requires r.issue == heap[id].issue && r.corrid == heap[id].corrid
    ensures Records(heap[id := r], issued, maxRetries)
  {
    assert Numbered(heap[id], issued) ==> Numbered(r, issued);
  }

  lemma RecordsFree(heap: map<nat, Request>, issued: nat, maxRetries: nat, id: nat)
    requires Records(heap, issued, maxRetries)
    ensures Records(heap - {id}, issued, maxRetries)
  {
  }

  lemma QueuedSet(heap: map<nat, Request>, queue: seq<nat>, id: nat, r: Request)
    requires Queued(heap, queue) && (id in heap && heap[id].issue > 0 ==> r.issue > 0)
    ensures Queued(heap[id := r], queue)
  {
  }

  lemma QueuedFree(heap: map<nat, Request>, queue: seq<nat>, id: nat)
    requires Queued(heap, queue) && id !in queue
    ensures Queued(heap - {id}, queue)
  {
  }

  /** The live requests other than one. */
  ghost function Others(heap: map<nat, Request>, id: nat): map<nat, Request> {
    heap - {id}
  }

  lemma OthersSame(heap: map<nat, Request>, id: nat, r: Request)
    ensures Others(heap[id := r], id) == Others(heap, id) == Others(heap - {id}, id)
  {
  }

  lemma Entered(s: seq<nat>, id: nat)
    ensures multiset(s + [id]) == multiset(s) + multiset{id}
  {
  }

  lemma Inserted(s: seq<nat>, id: nat, at: nat)
    requires at <= |s|
    ensures multiset(s[..at] + [id] + s[at..]) == multiset(s) + multiset{id}
  {
    assert s == s[..at] + s[at..];
  }

  lemma RecordsIssue(heap: map<nat, Request>, issued: nat, maxRetries: nat, id: nat, r: Request)
    requires Records(heap, issued, maxRetries) && id in heap
    requires r == heap[id].(issue := issued + 1, corrid := CorrId(issued + 1), deadline := r.deadline)
    ensures Records(heap[id := r], issued + 1, maxRetries)
  {
    hide CorrId;
  }

  lemma RecordsNew(heap: map<nat, Request>, issued: nat, maxRetries: nat, id: nat, r: Request)
    requires Records(heap, issued, maxRetries) && id !in heap
    requires r.retries == 0 && r.issue == 0 && (r.replyq ==> r.cb)
    ensures Records(heap[id := r], issued, maxRetries)
  {
  }

  lemma Taken(s: seq<nat>, i: nat)
    requires i < |s|
    ensures multiset(s) == multiset(s[..i] + s[i + 1..]) + multiset{s[i]}
  {
    assert s == s[..i] + [s[i]] + s[i + 1..];
  }

  ghost function Sum(a: multiset<nat>, b: multiset<nat>, c: multiset<nat>, d: multiset<nat>, e: multiset<nat>,
                     f: multiset<nat>): multiset<nat>
  {
    a + b + c + d + e + f
  }

  lemma SumAdd(a: multiset<nat>, b: multiset<nat>, c: multiset<nat>, d: multiset<nat>, e: multiset<nat>,
               f: multiset<nat>, x: multiset<nat>)
    ensures Sum(a + x, b, c, d, e, f) == Sum(a, b, c, d, e, f) + x
    ensures Sum(a, b + x, c, d, e, f) == Sum(a, b, c, d, e, f) + x
    ensures Sum(a, b, c + x, d, e, f) == Sum(a, b, c, d, e, f) + x
    ensures Sum(a, b, c, d + x, e, f) == Sum(a, b, c, d, e, f) + x
    ensures Sum(a, b, c, d, e + x, f) == Sum(a, b, c, d, e, f) + x
    ensures Sum(a, b, c, d, e, f + x) == Sum(a, b, c, d, e, f) + x
  {
  }

  lemma Handed(a: multiset<nat>, held: multiset<nat>, id: nat)
    ensures id in held ==> (a + multiset{id}) + (held - multiset{id}) == a + held
    ensures (a + multiset{id}) + held == a + (held + multiset{id})
  {
  }

  class Broker {
    const internal: bool
    const maxRetries: nat
    const socketTimeout: nat
    const retryBackoff: nat
    const maxFails: nat        // socket.max.fails
    var terminating: bool
    var up: bool               // state UP
    var timeouts: nat          // rkb_req_timeouts
    var heap: map<nat, Request>
    var issued: nat            // rkb_corrid, before it wraps
    var xmitOps: seq<nat>      // XMIT_BUF ops of the broker thread
    var retryOps: seq<nat>     // XMIT_RETRY ops
    var outbufs: seq<nat>
    var waitresps: seq<nat>
    var retrybufs: seq<nat>
    var replies: seq<nat>      // RECV_BUF ops on their way to the reply queue's thread
    ghost var held: multiset<nat> // references of running functions

    ghost function Lying(): multiset<nat>
      reads `xmitOps, `retryOps, `outbufs, `waitresps, `retrybufs, `replies
    {
      Sum(multiset(xmitOps), multiset(retryOps), multiset(outbufs), multiset(waitresps), multiset(retrybufs),
          multiset(replies))
    }

    lemma SumsAdd(x: multiset<nat>)
      ensures var a, b, c, d, e, f := multiset(xmitOps), multiset(retryOps), multiset(outbufs), multiset(waitresps),
                                      multiset(retrybufs), multiset(replies);
        && Sum(a + x, b, c, d, e, f) == Lying() + x == Sum(a, b + x, c, d, e, f)
        && Sum(a, b, c + x, d, e, f) == Lying() + x == Sum(a, b, c, d + x, e, f)
        && Sum(a, b, c, d, e + x, f) == Lying() + x == Sum(a, b, c, d, e, f + x)
    {
      hide Sum;
      SumAdd(multiset(xmitOps), multiset(retryOps), multiset(outbufs), multiset(waitresps), multiset(retrybufs),
             multiset(replies), x);
    }

    ghost predicate Sound()
      reads `heap, `issued, `xmitOps, `retryOps, `outbufs, `waitresps, `retrybufs, `replies, `held
    {
      && Owned(heap, Lying() + held) && Records(heap, issued, maxRetries)
      && Queued(heap, outbufs) && Queued(heap, waitresps) && Unsent(heap, xmitOps) && Unsent(heap, retrybufs)
    }

    /** Between two steps: nobody is running, so every live request is in exactly one place. */
    ghost predicate Valid()
      reads `heap, `issued, `xmitOps, `retryOps, `outbufs, `waitresps, `retrybufs, `replies, `held
    {
      Sound() && held == multiset{} && AllOnce(heap)
    }

    constructor (internal: bool, maxRetries: nat, socketTimeout: nat, retryBackoff: nat, maxFails: nat)
      ensures Valid() && heap == map[] && issued == 0 && !terminating && !up && timeouts == 0
      ensures this.internal == internal && this.maxRetries == maxRetries && this.maxFails == maxFails
    {
      this.maxFails, up, timeouts := maxFails, false, 0;
      this.internal, this.maxRetries := internal, maxRetries;
      this.socketTimeout, this.retryBackoff := socketTimeout, retryBackoff;
      terminating, heap, issued, held := false, map[], 0, multiset{};
      xmitOps, retryOps, outbufs, waitresps, retrybufs, replies := [], [], [], [], [], [];
    }

    lemma HeldLives(id: nat)
      requires Owned(heap, Lying() + held) && id in held
      ensures id in heap && heap[id].refs == Lying()[id] + held[id] >= 1
      ensures heap[id].refs == held[id] ==>
        id !in outbufs && id !in waitresps && id !in retrybufs && id !in xmitOps
    {
      assert (Lying() + held)[id] == Refs(heap, id);
      assert id in outbufs ==> multiset(outbufs)[id] >= 1;
      assert id in waitresps ==> multiset(waitresps)[id] >= 1;
      assert id in retrybufs ==> multiset(retrybufs)[id] >= 1;
      assert id in xmitOps ==> multiset(xmitOps)[id] >= 1;
    }

    lemma CalledBack(id: nat)
      requires Sound() && id in heap && heap[id].replyq
      ensures heap[id].cb
    {
      hide Owned, Queued, Unsent, Lying, Numbered;
    }

    /** rd_kafka_buf_keep. */
    method Keep(id: nat)
      requires Sound() && id in held
      modifies `heap, `held
      ensures Sound() && held == old(held) + multiset{id}
      ensures id in old(heap) && Others(heap, id) == Others(old(heap), id)
      ensures id in heap && heap[id] == old(heap)[id].(refs := old(heap)[id].refs + 1)
    {
      hide Owned, Records, Queued, Unsent, Lying, Numbered, Others;
      HeldLives(id);
      OthersSame(heap, id, heap[id].(refs := heap[id].refs + 1));
      var r := heap[id].(refs := heap[id].refs + 1);
      OwnedSet(heap, Lying() + held, id, r, Lying() + (held + multiset{id}));
      RecordsSet(heap, issued, maxRetries, id, r);
      QueuedSet(heap, outbufs, id, r);
      QueuedSet(heap, waitresps, id, r);
      UnsentSet(heap, xmitOps, id, r);
      UnsentSet(heap, retrybufs, id, r);
      heap := heap[id := r];
      held := held + multiset{id};
    }

    /** rd_kafka_buf_destroy: the last reference frees the request, which must have been called back. */
    method Release(id: nat)
      requires Sound() && id in held
      requires id in heap && (heap[id].refs == 1 ==> heap[id].done || !heap[id].cb)
      modifies `heap, `held
      ensures Sound() && held == old(held) - multiset{id}
      ensures id in old(heap) && Others(heap, id) == Others(old(heap), id)
      ensures id in heap <==> old(heap)[id].refs > 1
      ensures id in heap ==> heap[id] == old(heap)[id].(refs := old(heap)[id].refs - 1)
    {
      hide Owned, Records, Queued, Unsent, Lying, Numbered, Others;
      HeldLives(id);
      OthersSame(heap, id, heap[id].(refs := heap[id].refs - 1));
      ghost var holders := Lying() + held;
      held := held - multiset{id};
      if heap[id].refs == 1 {
        OwnedFree(heap, holders, id);
        RecordsFree(heap, issued, maxRetries, id);
        QueuedFree(heap, outbufs, id);
        QueuedFree(heap, waitresps, id);
        UnsentFree(heap, xmitOps, id);
        UnsentFree(heap, retrybufs, id);
        heap := heap - {id};
        assert Lying() + held == holders - multiset{id};
      } else {
        var r := heap[id].(refs := heap[id].refs - 1);
        OwnedSet(heap, holders, id, r, Lying() + held);
        RecordsSet(heap, issued, maxRetries, id, r);
        QueuedSet(heap, outbufs, id, r);
        QueuedSet(heap, waitresps, id, r);
        UnsentSet(heap, xmitOps, id, r);
        UnsentSet(heap, retrybufs, id, r);
        heap := heap[id := r];
      }
    }

    method Store(id: nat, r: Request)
      requires Sound() && id in heap
      requires r.refs == heap[id].refs && r.issue == heap[id].issue && r.corrid == heap[id].corrid
      requires r.of == 0 || r.of == heap[id].of || (id !in xmitOps && id !in retrybufs)
      requires r.retries <= maxRetries || r.retries == heap[id].retries
      requires r.replyq ==> r.cb || (heap[id].replyq && r.cb == heap[id].cb)
      modifies `heap
      ensures Sound() && id in heap && heap[id] == r && Others(heap, id) == Others(old(heap), id)
    {
      hide Records, Queued, Unsent, Lying, Numbered, Others;
      OthersSame(heap, id, r);
      OwnedSet(heap, Lying() + held, id, r, Lying() + held);
      RecordsSet(heap, issued, maxRetries, id, r);
      QueuedSet(heap, outbufs, id, r);
      QueuedSet(heap, waitresps, id, r);
      UnsentSet(heap, xmitOps, id, r);
      UnsentSet(heap, retrybufs, id, r);
      heap := heap[id := r];
    }

    method EnterXmit(id: nat)
      requires Sound() && id in held && id in heap && heap[id].of == 0
      modifies `xmitOps, `held
      ensures Sound() && xmitOps == old(xmitOps) + [id] && held == old(held) - multiset{id}
    {
      hide Owned, Records, Numbered, Sum;
      Entered(xmitOps, id);
      SumsAdd(multiset{id});
      Handed(Lying(), held, id);
      held := held - multiset{id};
      xmitOps := xmitOps + [id];
    }

    method TakeXmit(i: nat) returns (id: nat)
      requires Sound() && i < |xmitOps|
      modifies `xmitOps, `held
      ensures Sound() && id == old(xmitOps)[i] && xmitOps == old(xmitOps)[..i] + old(xmitOps)[i + 1..]
      ensures held == old(held) + multiset{id}
    {
      hide Owned, Records, Numbered, Sum;
      Taken(xmitOps, i);
      id := xmitOps[i];
      xmitOps := xmitOps[..i] + xmitOps[i + 1..];
      SumsAdd(multiset{id});
      Handed(Lying(), held, id);
      held := held + multiset{id};
    }

    method EnterRetryOps(id: nat)
      requires Sound() && id in held
      modifies `retryOps, `held
      ensures Sound() && retryOps == old(retryOps) + [id] && held == old(held) - multiset{id}
    {
      hide Owned, Records, Numbered, Sum;
      Entered(retryOps, id);
      SumsAdd(multiset{id});
      Handed(Lying(), held, id);
      held := held - multiset{id};
      retryOps := retryOps + [id];
    }

    method TakeRetryOps(i: nat) returns (id: nat)
      requires Sound() && i < |retryOps|
      modifies `retryOps, `held
      ensures Sound() && id == old(retryOps)[i] && retryOps == old(retryOps)[..i] + old(retryOps)[i + 1..]
      ensures held == old(held) + multiset{id}
    {
      hide Owned, Records, Numbered, Sum;
      Taken(retryOps, i);
      id := retryOps[i];
      retryOps := retryOps[..i] + retryOps[i + 1..];
      SumsAdd(multiset{id});
      Handed(Lying(), held, id);
      held := held + multiset{id};
    }

    method EnterOutbufs(id: nat, at: nat)
      requires Sound() && id in held && id in heap && heap[id].issue > 0 && at <= |outbufs|
      modifies `outbufs, `held
      ensures Sound() && outbufs == old(outbufs)[..at] + [id] + old(outbufs)[at..]
      ensures held == old(held) - multiset{id}
    {
      hide Owned, Records, Numbered, Sum;
      Inserted(outbufs, id, at);
      SumsAdd(multiset{id});
      Handed(Lying(), held, id);
      held := held - multiset{id};
      outbufs := outbufs[..at] + [id] + outbufs[at..];
    }

    method TakeOutbufs(i: nat) returns (id: nat)
      requires Sound() && i < |outbufs|
      modifies `outbufs, `held
      ensures Sound() && id == old(outbufs)[i] && outbufs == old(outbufs)[..i] + old(outbufs)[i + 1..]
      ensures held == old(held) + multiset{id}
    {
      hide Owned, Records, Numbered, Sum;
      Taken(outbufs, i);
      id := outbufs[i];
      outbufs := outbufs[..i] + outbufs[i + 1..];
      SumsAdd(multiset{id});
      Handed(Lying(), held, id);
      held := held + multiset{id};
    }

    method EnterWaitresps(id: nat)
      requires Sound() && id in held && id in heap && heap[id].issue > 0
      modifies `waitresps, `held
      ensures Sound() && waitresps == old(waitresps) + [id] && held == old(held) - multiset{id}
    {
      hide Owned, Records, Numbered, Sum;
      Entered(waitresps, id);
      SumsAdd(multiset{id});
      Handed(Lying(), held, id);
      held := held - multiset{id};
      waitresps := waitresps + [id];
    }

    method TakeWaitresps(i: nat) returns (id: nat)
      requires Sound() && i < |waitresps|
      modifies `waitresps, `held
      ensures Sound() && id == old(waitresps)[i] && waitresps == old(waitresps)[..i] + old(waitresps)[i + 1..]
      ensures held == old(held) + multiset{id}
    {
      hide Owned, Records, Numbered, Sum;
      Taken(waitresps, i);
      id := waitresps[i];
      waitresps := waitresps[..i] + waitresps[i + 1..];
      SumsAdd(multiset{id});
      Handed(Lying(), held, id);
      held := held + multiset{id};
    }

    method EnterRetrybufs(id: nat)
      requires Sound() && id in held && id in heap && heap[id].of == 0
      modifies `retrybufs, `held
      ensures Sound() && retrybufs == old(retrybufs) + [id] && held == old(held) - multiset{id}
    {
      hide Owned, Records, Numbered, Sum;
      Entered(retrybufs, id);
      SumsAdd(multiset{id});
      Handed(Lying(), held, id);
      held := held - multiset{id};
      retrybufs := retrybufs + [id];
    }

    method TakeRetrybufs(i: nat) returns (id: nat)
      requires Sound() && i < |retrybufs|
      modifies `retrybufs, `held
      ensures Sound() && id == old(retrybufs)[i] && retrybufs == old(retrybufs)[..i] + old(retrybufs)[i + 1..]
      ensures held == old(held) + multiset{id}
    {
      hide Owned, Records, Numbered, Sum;
      Taken(retrybufs, i);
      id := retrybufs[i];
      retrybufs := retrybufs[..i] + retrybufs[i + 1..];
      SumsAdd(multiset{id});
      Handed(Lying(), held, id);
      held := held + multiset{id};
    }

    method EnterReplies(id: nat)
      requires Sound() && id in held
      modifies `replies, `held
      ensures Sound() && replies == old(replies) + [id] && held == old(held) - multiset{id}
    {
      hide Owned, Records, Numbered, Sum;
      Entered(replies, id);
      SumsAdd(multiset{id});
      Handed(Lying(), held, id);
      held := held - multiset{id};
      replies := replies + [id];
    }

    method TakeReplies(i: nat) returns (id: nat)
      requires Sound() && i < |replies|
      modifies `replies, `held
      ensures Sound() && id == old(replies)[i] && replies == old(replies)[..i] + old(replies)[i + 1..]
      ensures held == old(held) + multiset{id}
    {
      hide Owned, Records, Numbered, Sum;
      Taken(replies, i);
      id := replies[i];
      replies := replies[..i] + replies[i + 1..];
      SumsAdd(multiset{id});
      Handed(Lying(), held, id);
      held := held + multiset{id};
    }

    function Retryable(r: Request): bool
      reads `terminating
    {
      !internal && !terminating && r.retries + 1 <= maxRetries
    }

    /** A request about to be tried once more; on the broker's thread it will be sent from its start. */
    function Again(r: Request, here: bool, now: int): Request {
      r.(retries := r.retries + 1, done := false, retryAt := if here then now + retryBackoff else r.retryAt,
         of := if here then 0 else r.of)
    }

    /**
     rd_kafka_buf_retry and rd_kafka_broker_buf_retry; `here` says that the caller runs on the
     broker's thread. The retry has its own reference.
     */
    method BufRetry(id: nat, here: bool, now: int) returns (ok: bool)
      requires Sound() && id in held && id in heap
      modifies `heap, `held, `retrybufs, `retryOps
      ensures Sound() && held == old(held)
      ensures ok == (!internal && !terminating && old(heap)[id].retries + 1 <= maxRetries)
      ensures id in heap && Others(heap, id) == Others(old(heap), id)
      ensures !ok ==> heap == old(heap) && retrybufs == old(retrybufs) && retryOps == old(retryOps)
      ensures ok ==> var r := old(heap)[id];
        && heap[id].retries == r.retries + 1 && !heap[id].done
        && (here ==> heap[id].retryAt == now + retryBackoff && heap[id].of == 0)
        && (!here ==> heap[id].retryAt == r.retryAt && heap[id].of == r.of)
        && heap[id] == Again(r, here, now).(refs := r.refs + 1)
        && retrybufs == old(retrybufs) + (if here then [id] else [])
        && retryOps == old(retryOps) + if here then [] else [id]
    {
      hide Sound, Others;
      ok := Retryable(heap[id]);
      if ok {
        Store(id, Again(heap[id], here, now));
        Keep(id);
        if here {
          EnterRetrybufs(id);
        } else {
          EnterRetryOps(id);
        }
      }
    }

    /** The callback, which may ask for another try, and the end of the reference it was called with. */
    method Finish(id: nat, again: bool, here: bool, now: int)
      requires Sound() && id in held && id in heap && heap[id].refs > 0
      modifies `heap, `held, `retrybufs, `retryOps
      ensures Sound() && held == old(held) - multiset{id} && Others(heap, id) == Others(old(heap), id)
      ensures var r := old(heap)[id];
        var retried := r.cb && again && Retryable(r);
        && (id in heap <==> retried || r.refs > 1)
        && (retried ==> heap[id] == Again(r, here, now))
        && (!retried && r.refs > 1 ==> heap[id] == r.(done := r.done || r.cb, refs := r.refs - 1))
        && retrybufs == old(retrybufs) + (if retried && here then [id] else [])
        && retryOps == old(retryOps) + if retried && !here then [id] else []
    {
      hide Sound, Others;
      if heap[id].cb {
        Store(id, heap[id].(done := true));
        if again {
          var _ := BufRetry(id, here, now);
        }
      }
      Release(id);
    }

    function FateOf(r: Request, err: Error, again: bool, ready: bool): Fate
      reads `terminating
    {
      if err == Failure && Retryable(r) then Retried
      else if err != Destroy && r.replyq && ready then Replied
      else if r.cb && again && Retryable(r) then Retried
      else Freed
    }

    /**
     What becomes of it: a response goes to a reply queue that takes it, a failed request is tried
     once more if it may, and in every other case only the callback can ask for that.
     */
    lemma FateIs(r: Request, err: Error, again: bool, ready: bool)
      ensures var may := !internal && !terminating && r.retries + 1 <= maxRetries;
        FateOf(r, err, again, ready) ==
          match err
          case NoError => if r.replyq && ready then Replied else if r.cb && again && may then Retried else Freed
          case Destroy => if r.cb && again && may then Retried else Freed
          case Failure => if may then Retried else if r.replyq && ready then Replied else Freed
    {
    }

    /** rd_kafka_op_destroy of a reply op, from within rd_kafka_buf_callback. */
    method DestroyReply(id: nat, again: bool, here: bool, now: int)
      requires Sound() && held[id] >= 2 && id in heap && heap[id].refs == 2 && heap[id].cb
      modifies `heap, `held, `retrybufs, `retryOps
      ensures Sound() && held == old(held) - multiset{id} - multiset{id}
      ensures Others(heap, id) == Others(old(heap), id)
      ensures var r := old(heap)[id];
        var retried := again && Retryable(r);
        && (id in heap <==> retried)
        && (retried ==> heap[id] == Again(r, here, now).(replyq := false, refs := 1))
        && retrybufs == old(retrybufs) + (if retried && here then [id] else [])
        && retryOps == old(retryOps) + if retried && !here then [id] else []
    {
      hide Sound, Others;
      Store(id, heap[id].(replyq := false));
      Finish(id, again, here, now);
      Release(id);
    }

    /** The reply op of rd_kafka_buf_callback, with a second reference while it is posted. */
    method PostReply(id: nat, err: Error)
      requires Sound() && id in held && id in heap && heap[id].refs == 1
      modifies `heap, `held, `replies
      ensures Sound() && held == old(held) - multiset{id} && Others(heap, id) == Others(old(heap), id)
      ensures id in heap && heap[id] == old(heap)[id].(result := err) && replies == old(replies) + [id]
    {
      hide Sound, Others;
      Store(id, heap[id].(result := err));
      Keep(id);
      EnterReplies(id);
      Release(id);
    }

    /** The same when the reply queue is disabled and destroys the op. */
    method RefuseReply(id: nat, err: Error, again: bool, here: bool, now: int)
      requires Sound() && id in held && id in heap && heap[id].refs == 1 && heap[id].cb
      modifies `heap, `held, `retrybufs, `retryOps
      ensures Sound() && held == old(held) - multiset{id} && Others(heap, id) == Others(old(heap), id)
      ensures var r := old(heap)[id];
        var retried := again && Retryable(r);
        && (id in heap <==> retried)
        && (retried ==> heap[id] == Again(r, here, now).(result := err, replyq := false))
        && retrybufs == old(retrybufs) + (if retried && here then [id] else [])
        && retryOps == old(retryOps) + if retried && !here then [id] else []
    {
      hide Sound, Others;
      Store(id, heap[id].(result := err));
      Keep(id);
      DestroyReply(id, again, here, now);
    }

    /**
     rd_kafka_buf_callback, with a request the caller alone holds. `ready` says that the reply
     queue takes ops: a disabled one destroys the op at once. `again` says that the callback
     asks for another try.
     */
    method BufCallback(id: nat, err: Error, again: bool, here: bool, ready: bool, now: int)
      requires Sound() && id in held && id in heap && heap[id].refs == 1
      modifies `heap, `held, `retrybufs, `retryOps, `replies
      ensures Sound() && held == old(held) - multiset{id} && Others(heap, id) == Others(old(heap), id)
      ensures var r := old(heap)[id];
        var may := !internal && !terminating && r.retries + 1 <= maxRetries;
        var replied := r.replyq && ready && (err == NoError || (err == Failure && !may));
        var retried := may && (err == Failure || (r.cb && again && !(err == NoError && r.replyq && ready)));
        && replies == old(replies) + (if replied then [id] else [])
        && retrybufs == old(retrybufs) + (if retried && here then [id] else [])
        && retryOps == old(retryOps) + (if retried && !here then [id] else [])
        && (id in heap <==> replied || retried)
        && (replied ==> heap[id] == r.(result := err))
        && (retried ==>
              && heap[id].retries == r.retries + 1 && !heap[id].done && heap[id].issue == r.issue && heap[id].cb == r.cb
              && (here ==> heap[id].retryAt == now + retryBackoff && heap[id].of == 0)
              && (!here ==> heap[id].retryAt == r.retryAt && heap[id].of == r.of))
      ensures id in heap ==> heap[id].refs == 1
    {
      hide Sound, Others;
      if err == Failure {
        var ok := BufRetry(id, here, now);
        if ok {
          Release(id);
          return;
        }
      }
      if err != Destroy && heap[id].replyq {
        CalledBack(id);
        if ready {
          PostReply(id, err);
        } else {
          RefuseReply(id, err, again, here, now);
        }
        return;
      }
      Finish(id, again, here, now);
    }

    lemma StillOnce(before: map<nat, Request>, id: nat)
      requires AllOnce(before) && Others(heap, id) == Others(before, id) && (id in heap ==> heap[id].refs == 1)
      ensures AllOnce(heap)
      ensures forall other :: other != id ==>
        (other in heap <==> other in before) && (other in heap ==> heap[other] == before[other])
    {
      forall other | other != id
        ensures (other in heap <==> other in before) && (other in heap ==> heap[other] == before[other])
      {
        assert other in heap <==> other in Others(heap, id);
        assert other in before <==> other in Others(before, id);
      }
    }

    /** One function is running, with a reference to one request. */
    ghost predicate Running(id: nat)
      reads `heap, `issued, `xmitOps, `retryOps, `outbufs, `waitresps, `retrybufs, `replies, `held
    {
      Sound() && held == multiset{id} && AllOnce(heap) && id in heap
    }

    lemma NowRunning(id: nat)
      requires Sound() && held == multiset{} + multiset{id} && AllOnce(heap)
      ensures Running(id) && heap[id].refs == 1
      ensures id !in outbufs && id !in waitresps && id !in retrybufs
    {
      hide Owned, Records, Queued, Unsent, Lying;
      HeldLives(id);
    }

    /** The first half of rd_kafka_broker_buf_enq0: a correlation id never given before, and a deadline if there is none. */
    method Number(id: nat, now: int)
      requires Sound() && id in heap
      modifies `heap, `issued
      ensures Sound() && issued == old(issued) + 1 && Others(heap, id) == Others(old(heap), id)
      ensures id in heap && Numbered(heap[id], issued)
      ensures var r := old(heap)[id];
        heap[id] == r.(issue := issued, corrid := CorrId(issued),
                                     deadline := if r.deadline == 0 then now + socketTimeout else r.deadline)
    {
      hide Records, Queued, Unsent, Lying, Numbered, Others, CorrId;
      var r := heap[id].(issue := issued + 1, corrid := CorrId(issued + 1),
                         deadline := if heap[id].deadline == 0 then now + socketTimeout else heap[id].deadline);
      OthersSame(heap, id, r);
      OwnedSet(heap, Lying() + held, id, r, Lying() + held);
      RecordsIssue(heap, issued, maxRetries, id, r);
      NumberedBy(r);
      QueuedSet(heap, outbufs, id, r);
      QueuedSet(heap, waitresps, id, r);
      UnsentSet(heap, xmitOps, id, r);
      UnsentSet(heap, retrybufs, id, r);
      heap := heap[id := r];
      issued := issued + 1;
    }

    /** The only place of a request, after a callback. */
    ghost predicate WentTo(fate: Fate, id: nat, here: bool, retrybefore: seq<nat>, opsbefore: seq<nat>,
                           repliesbefore: seq<nat>)
      reads `heap, `retrybufs, `retryOps, `replies
    {
      && (id in heap <==> fate != Freed)
      && retrybufs == retrybefore + (if fate == Retried && here then [id] else [])
      && retryOps == opsbefore + (if fate == Retried && !here then [id] else [])
      && replies == repliesbefore + (if fate == Replied then [id] else [])
    }

    /** The end of a step that calls a request back. */
    method CallBack(id: nat, err: Error, again: bool, here: bool, ready: bool, now: int)
      requires Running(id)
      modifies `heap, `held, `retrybufs, `retryOps, `replies
      ensures Valid() && Others(heap, id) == Others(old(heap), id)
      ensures WentTo(FateOf(old(heap)[id], err, again, ready), id, here, old(retrybufs), old(retryOps), old(replies))
      ensures id in heap ==> heap[id].issue == old(heap)[id].issue
      ensures id in heap ==> heap[id].retries == old(heap)[id].retries
                             + if FateOf(old(heap)[id], err, again, ready) == Retried then 1 else 0
      ensures var r := old(heap)[id];
        var may := !internal && !terminating && r.retries + 1 <= maxRetries;
        var replied := r.replyq && ready && (err == NoError || (err == Failure && !may));
        var retried := may && (err == Failure || (r.cb && again && !(err == NoError && r.replyq && ready)));
        && replies == old(replies) + (if replied then [id] else [])
        && retrybufs == old(retrybufs) + (if retried && here then [id] else [])
        && retryOps == old(retryOps) + (if retried && !here then [id] else [])
        && (id in heap <==> replied || retried)
        && (replied ==> heap[id] == r.(result := err))
        && (retried ==>
              && heap[id].retries == r.retries + 1 && !heap[id].done && heap[id].issue == r.issue && heap[id].cb == r.cb
              && (here ==> heap[id].retryAt == now + retryBackoff && heap[id].of == 0)
              && (!here ==> heap[id].retryAt == r.retryAt && heap[id].of == r.of))
    {
      hide Sound, Others, FateOf, Retryable;
      FateIs(heap[id], err, again, ready);
      BufCallback(id, err, again, here, ready, now);
      StillOnce(old(heap), id);
      assert held == multiset{};
    }

    /** rd_kafka_broker_buf_enq0; `at` is its place: the tail, or behind the first of the queue for a flash request. */
    method Enqueue(id: nat, at: nat, now: int)
      requires Running(id) && at <= |outbufs|
      modifies `heap, `issued, `outbufs, `held
      ensures Valid() && Others(heap, id) == Others(old(heap), id) && issued == old(issued) + 1
      ensures outbufs == old(outbufs)[..at] + [id] + old(outbufs)[at..]
      ensures id in heap && Numbered(heap[id], issued) && heap[id].issue == issued
      ensures var r := old(heap)[id];
        heap[id] == r.(issue := issued, corrid := CorrId(issued),
                       deadline := if r.deadline == 0 then now + socketTimeout else r.deadline)
    {
      hide Sound, Others, Numbered, CorrId;
      Number(id, now);
      EnterOutbufs(id, at);
      StillOnce(old(heap), id);
      assert held == multiset{};
    }

    /**
     A request made by another thread, or by the broker's own (`here`): enq_replyq and enq2. The
     internal broker fails it at once.
     */
    method Submit(id: nat, cb: bool, replyq: bool, noResponse: bool, deadline: int, here: bool, at: nat, again: bool,
                  ready: bool, now: int)
      requires Valid() && id !in heap && at <= |outbufs| && (replyq ==> cb)
      modifies `heap, `held, `retrybufs, `retryOps, `replies, `xmitOps, `outbufs, `issued
      ensures Valid() && Others(heap, id) == old(heap)
      ensures !here ==>
        xmitOps == old(xmitOps) + [id] && id in heap && heap[id] == NewRequest(cb, replyq, noResponse, deadline)
      ensures here ==> xmitOps == old(xmitOps)
      ensures here && !internal ==> outbufs == old(outbufs)[..at] + [id] + old(outbufs)[at..]
      ensures here && !internal ==>
        && issued == old(issued) + 1 && id in heap
        && heap[id] == NewRequest(cb, replyq, noResponse, if deadline == 0 then now + socketTimeout else deadline)
                         .(issue := issued, corrid := CorrId(issued))
      ensures !(here && !internal) ==> outbufs == old(outbufs) && issued == old(issued)
      ensures here && internal ==>
        && (id in heap <==> replyq && ready) && replies == old(replies) + (if replyq && ready then [id] else [])
        && retrybufs == old(retrybufs) && retryOps == old(retryOps)
        && (id in heap ==> heap[id] == NewRequest(cb, replyq, noResponse, deadline).(result := Failure))
      ensures !(here && internal) ==> unchanged(`retrybufs, `retryOps, `replies)
    {
      hide Sound, Others, WentTo, FateOf;
      NoOther(heap, id, NewRequest(cb, replyq, noResponse, deadline));
      Allocate(id, cb, replyq, noResponse, deadline);
      if here {
        if internal {
          CallBack(id, Failure, again, here, ready, now);
        } else {
          Enqueue(id, at, now);
        }
      } else {
        EnterXmit(id);
        assert held == multiset{};
      }
    }

    lemma NoOther(h: map<nat, Request>, id: nat, r: Request)
      requires id !in h
      ensures Others(h[id := r], id) == h
    {
    }

    method Allocate(id: nat, cb: bool, replyq: bool, noResponse: bool, deadline: int)
      requires Valid() && id !in heap && (replyq ==> cb)
      modifies `heap, `held
      ensures Running(id) && heap == old(heap)[id := NewRequest(cb, replyq, noResponse, deadline)]
    {
      hide Records, Queued, Unsent, Lying, Numbered;
      var r := NewRequest(cb, replyq, noResponse, deadline);
      assert (Lying() + held)[id] == Refs(heap, id) == 0;
      assert Lying() + multiset{id} == (Lying() + held)[id := 1];
      OwnedSet(heap, Lying() + held, id, r, Lying() + multiset{id});
      RecordsNew(heap, issued, maxRetries, id, r);
      QueuedSet(heap, outbufs, id, r);
      QueuedSet(heap, waitresps, id, r);
      UnsentSet(heap, xmitOps, id, r);
      UnsentSet(heap, retrybufs, id, r);
      heap := heap[id := r];
      held := multiset{id};
    }

    /** rd_kafka_buf_handle_op, with the reference of an op that has just been taken off its queue. */
    method HandleOp(id: nat, err: Error, again: bool, here: bool, now: int)
      requires Running(id)
      modifies `heap, `held, `retrybufs, `retryOps, `replies
      ensures Valid() && Others(heap, id) == Others(old(heap), id)
      ensures var r := old(heap)[id];
        var may := !internal && !terminating && r.retries + 1 <= maxRetries;
        var retried := r.cb && may && (again || err == Failure);
        && replies == old(replies) && (id in heap <==> retried)
        && retrybufs == old(retrybufs) + (if retried && here then [id] else [])
        && retryOps == old(retryOps) + if retried && !here then [id] else []
      ensures id in heap ==> heap[id].retries == old(heap)[id].retries + 1
    {
      hide Sound, Others, WentTo, FateOf;
      Store(id, heap[id].(replyq := false));
      if !heap[id].cb {
        Release(id);
        StillOnce(old(heap), id);
        assert held == multiset{};
        return;
      }
      StillOnce(old(heap), id);
      CallBack(id, err, again, here, false, now);
    }

    /** The reply queue's thread serves the oldest reply op, or destroys it; it is not the broker's thread. */
    method ServeReply(destroyed: bool, again: bool, now: int)
      requires Valid() && replies != []
      modifies `heap, `held, `retrybufs, `retryOps, `replies
      ensures Valid() && old(replies)[0] in old(heap)
      ensures var id, r := old(replies)[0], old(heap)[old(replies)[0]];
        var may := !internal && !terminating && r.retries + 1 <= maxRetries;
        var retried := r.cb && may && (again || (!destroyed && r.result == Failure));
        && replies == old(replies)[1..] && retrybufs == old(retrybufs)
        && retryOps == old(retryOps) + (if retried then [id] else [])
        && (id in heap <==> retried) && Others(heap, id) == Others(old(heap), id)
        && (retried ==> heap[id].retries == r.retries + 1)
    {
      hide Sound, Others;
      var id := TakeReplies(0);
      NowRunning(id);
      HandleOp(id, if destroyed then Destroy else heap[id].result, again, false, now);
    }

    lemma NotBegun()
      requires Sound()
      ensures Unsent(heap, xmitOps) && Unsent(heap, retrybufs)
    {
    }

    /** The XMIT_BUF op: rd_kafka_broker_buf_enq2. */
    method ServeXmit(at: nat, again: bool, ready: bool, now: int)
      requires Valid() && xmitOps != [] && at <= |outbufs|
      modifies `heap, `held, `retrybufs, `retryOps, `replies, `xmitOps, `outbufs, `issued
      ensures Valid() && xmitOps == old(xmitOps)[1..]
      ensures old(xmitOps)[0] in old(heap) && Others(heap, old(xmitOps)[0]) == Others(old(heap), old(xmitOps)[0])
      ensures !internal ==> outbufs == old(outbufs)[..at] + [old(xmitOps)[0]] + old(outbufs)[at..]
      ensures !internal ==> var id, r := old(xmitOps)[0], old(heap)[old(xmitOps)[0]];
        && id in heap && heap[id].of == 0
        && heap[id] == r.(issue := issued, corrid := CorrId(issued),
                          deadline := if r.deadline == 0 then now + socketTimeout else r.deadline)
      ensures !internal ==> issued == old(issued) + 1 && unchanged(`retrybufs, `retryOps, `replies)
      ensures internal ==> outbufs == old(outbufs) && issued == old(issued)
      ensures internal ==> var id, r := old(xmitOps)[0], old(heap)[old(xmitOps)[0]];
        && (id in heap <==> r.replyq && ready) && replies == old(replies) + (if r.replyq && ready then [id] else [])
        && retrybufs == old(retrybufs) && retryOps == old(retryOps)
        && (id in heap ==> heap[id] == r.(result := Failure))
    {
      hide Sound, Others, Numbered, WentTo, FateOf;
      NotBegun();
      XmitLives();
      var id := TakeXmit(0);
      NowRunning(id);
      if internal {
        CallBack(id, Failure, again, true, ready, now);
      } else {
        Enqueue(id, at, now);
      }
    }

    /** The internal broker retries nothing. */
    lemma InternalFate(r: Request, err: Error, again: bool, ready: bool)
      requires internal && err != NoError
      ensures FateOf(r, err, again, ready) == if err != Destroy && r.replyq && ready then Replied else Freed
    {
    }

    /** The XMIT_RETRY op, now on the broker's thread. */
    method ServeRetryOp(now: int)
      requires Valid() && retryOps != []
      modifies `heap, `held, `retrybufs, `retryOps
      ensures Valid() && retryOps == old(retryOps)[1..] && retrybufs == old(retrybufs) + [old(retryOps)[0]]
      ensures var id := old(retryOps)[0]; id in heap && heap[id].retryAt == now + retryBackoff && heap[id].of == 0
      ensures Others(heap, old(retryOps)[0]) == Others(old(heap), old(retryOps)[0])
    {
      hide Sound, Others;
      var id := TakeRetryOps(0);
      NowRunning(id);
      Store(id, heap[id].(retryAt := now + retryBackoff, of := 0));
      EnterRetrybufs(id);
      StillOnce(old(heap), id);
      assert held == multiset{};
    }

    /** rd_kafka_op_destroy of a retry op that was not served. */
    method PurgeRetry(again: bool, now: int)
      requires Valid() && retryOps != []
      modifies `heap, `held, `retrybufs, `retryOps, `replies
      ensures Valid()
      ensures var id := old(retryOps)[0];
        && id in old(heap) && Others(heap, id) == Others(old(heap), id)
        && var r := old(heap)[id];
           var retried := r.cb && again && !internal && !terminating && r.retries + 1 <= maxRetries;
           && retrybufs == old(retrybufs) + (if retried then [id] else []) && (id in heap <==> retried)
           && retryOps == old(retryOps)[1..] && replies == old(replies)
           && (retried ==> heap[id].retries == r.retries + 1)
    {
      hide Sound, Others, WentTo, FateOf;
      assert retryOps[..0] + retryOps[1..] == retryOps[1..];
      var id := TakeRetryOps(0);
      NowRunning(id);
      HandleOp(id, Destroy, again, true, now);
    }

    /** rd_kafka_op_destroy of a transmit op that was not served: the request is called back with an error of its own. */
    method PurgeXmit(again: bool, now: int)
      requires Valid() && xmitOps != []
      modifies `heap, `held, `retrybufs, `retryOps, `replies, `xmitOps
      ensures Valid() && xmitOps == old(xmitOps)[1..]
      ensures var id := old(xmitOps)[0];
        && id in old(heap) && Others(heap, id) == Others(old(heap), id)
        && var r := old(heap)[id];
           var retried := r.cb && again && !internal && !terminating && r.retries + 1 <= maxRetries;
           && retrybufs == old(retrybufs) + (if retried then [id] else []) && (id in heap <==> retried)
           && retryOps == old(retryOps) && replies == old(replies)
           && (retried ==> heap[id].retries == r.retries + 1)
    {
      hide Sound, Others, WentTo, FateOf;
      XmitLives();
      var id := TakeXmit(0);
      NowRunning(id);
      HandleOp(id, Destroy, again, true, now);
    }

    lemma XmitLives()
      requires Sound()
      ensures forall i :: 0 <= i < |xmitOps| ==> xmitOps[i] in heap
    {
      hide Owned, Records, Queued, Lying;
    }

    /** rd_kafka_send has sent a part of the first request. */
    method Progress(octets: nat)
      requires Valid() && outbufs != []
      modifies `heap
      ensures Valid() && old(outbufs)[0] in old(heap)
      ensures var id := outbufs[0];
        id in heap && heap[id] == old(heap)[id].(of := old(heap)[id].of + octets)
        && Others(heap, id) == Others(old(heap), id)
    {
      hide Sound, Others, AllOnce;
      FirstLives();
      var id := outbufs[0];
      OnlyThere(id);
      Store(id, heap[id].(of := heap[id].of + octets));
      StillOnce(old(heap), id);
    }

    lemma OnlyThere(id: nat)
      requires Valid() && id in outbufs
      ensures id in heap && heap[id].refs == 1 && id !in xmitOps && id !in retrybufs
    {
      hide Records, Queued, Unsent;
      var o, x, t := multiset(outbufs), multiset(xmitOps), multiset(retrybufs);
      assert o[id] >= 1 && (id in xmitOps ==> x[id] >= 1) && (id in retrybufs ==> t[id] >= 1);
      assert (Lying() + held)[id] == Refs(heap, id) <= 1;
    }

    /** rd_kafka_send has sent the first request whole. */
    method Sent(again: bool, ready: bool, now: int)
      requires Valid() && outbufs != []
      modifies `heap, `held, `retrybufs, `retryOps, `replies, `outbufs, `waitresps
      ensures Valid() && outbufs == old(outbufs)[1..] && old(outbufs)[0] in old(heap)
      ensures var id := old(outbufs)[0];
        && (!old(heap)[id].noResponse ==> waitresps == old(waitresps) + [id] && heap == old(heap))
        && (old(heap)[id].noResponse ==> waitresps == old(waitresps))
        && (old(heap)[id].noResponse ==>
              var r := old(heap)[id];
              var replied := r.replyq && ready;
              var retried := !replied && r.cb && again && !internal && !terminating && r.retries + 1 <= maxRetries;
              && replies == old(replies) + (if replied then [id] else [])
              && retrybufs == old(retrybufs) + (if retried then [id] else []) && retryOps == old(retryOps)
              && (id in heap <==> replied || retried) && Others(heap, id) == Others(old(heap), id)
              && (replied ==> heap[id] == r.(result := NoError))
              && (retried ==> heap[id].retries == r.retries + 1 && heap[id].of == 0 && !heap[id].done
                              && heap[id].retryAt == now + retryBackoff))
    {
      hide Sound, Others, FateOf, WentTo;
      FirstLives();
      var id := TakeOutbufs(0);
      NowRunning(id);
      if !heap[id].noResponse {
        EnterWaitresps(id);
        assert held == multiset{};
      } else {
        CallBack(id, NoError, again, true, ready, now);
      }
    }

    lemma FirstLives()
      requires Sound() && outbufs != []
      ensures outbufs[0] in heap && heap[outbufs[0]].issue > 0
    {
      hide Owned, Records, Unsent, Lying;
    }

    /** rd_kafka_waitresp_find, up to the dequeuing. */
    method Find(corrid: int) returns (i: nat)
      requires Queued(heap, waitresps)
      ensures i == MatchIn(heap, waitresps, corrid)
    {
      i := 0;
      while i < |waitresps| && heap[waitresps[i]].corrid != corrid
        invariant i <= |waitresps|
        invariant forall j :: 0 <= j < i ==> heap[waitresps[j]].corrid != corrid
      {
        i := i + 1;
      }
    }

    /**
     rd_kafka_req_response: a response is handed to the first waiting request with its
     correlation id, which leaves the queue; without one nothing happens.
     */
    method Response(corrid: int, again: bool, ready: bool, now: int) returns (known: bool)
      requires Valid()
      modifies `heap, `held, `retrybufs, `retryOps, `replies, `waitresps
      ensures Valid() && Queued(old(heap), old(waitresps))
      ensures var i := MatchIn(old(heap), old(waitresps), corrid);
        && known == (i < |old(waitresps)|)
        && (!known ==> heap == old(heap) && waitresps == old(waitresps) && retrybufs == old(retrybufs)
                       && retryOps == old(retryOps) && replies == old(replies))
        && (known ==> waitresps == old(waitresps)[..i] + old(waitresps)[i + 1..])
        && (known ==>
              var id, r := old(waitresps)[i], old(heap)[old(waitresps)[i]];
              var replied := r.replyq && ready;
              var retried := !replied && r.cb && again && !internal && !terminating && r.retries + 1 <= maxRetries;
              && replies == old(replies) + (if replied then [id] else [])
              && retrybufs == old(retrybufs) + (if retried then [id] else []) && retryOps == old(retryOps)
              && (id in heap <==> replied || retried) && Others(heap, id) == Others(old(heap), id)
              && (replied ==> heap[id] == r.(result := NoError))
              && (retried ==> heap[id].retries == r.retries + 1 && heap[id].of == 0 && !heap[id].done
                              && heap[id].retryAt == now + retryBackoff))
    {
      hide Sound, Others, MatchIn, FateOf, WentTo;
      QueuesLive();
      var i := Find(corrid);
      known := i < |waitresps|;
      if known {
        var id := TakeWaitresps(i);
        NowRunning(id);
        CallBack(id, NoError, again, true, ready, now);
      }
    }

    function Queue(waiting: bool): seq<nat>
      reads `waitresps, `outbufs
    {
      if waiting then waitresps else outbufs
    }

    method TakeFrom(waiting: bool, i: nat) returns (id: nat)
      requires Sound() && i < |Queue(waiting)|
      modifies `waitresps, `outbufs, `held
      ensures Sound() && id == old(Queue(waiting))[i] && held == old(held) + multiset{id}
      ensures Queue(waiting) == old(Queue(waiting))[..i] + old(Queue(waiting))[i + 1..]
      ensures Queue(!waiting) == old(Queue(!waiting))
    {
      hide Sound;
      if waiting {
        id := TakeWaitresps(i);
      } else {
        id := TakeOutbufs(i);
      }
    }

    /** The scanned queue and the records behind it, after `k` of the requests it had. */
    ghost predicate ScannedUpTo(k: nat, i: nat, queue: seq<nat>, was: seq<nat>, before: map<nat, Request>, now: int)
      reads `heap
    {
      && k <= |was| && Queued(before, was)
      && queue == Passing(before, was[..k], Unexpired(now)) + was[k..]
      && i == |Passing(before, was[..k], Unexpired(now))|
      && Same(before, heap, queue)
    }

    lemma ValidSound()
      requires Valid()
      ensures Sound() && held == multiset{} && AllOnce(heap)
    {
    }

    lemma ScannedNone(queue: seq<nat>, now: int)
      requires Queued(heap, queue)
      ensures ScannedUpTo(0, 0, queue, queue, heap, now)
    {
      assert queue[..0] == [];
    }

    lemma ScannedAll(k: nat, i: nat, queue: seq<nat>, was: seq<nat>, before: map<nat, Request>, now: int)
      requires ScannedUpTo(k, i, queue, was, before, now) && i >= |queue|
      ensures k == |was|
      ensures Queued(before, was) && queue == Passing(before, was, Unexpired(now))
    {
      assert was[..k] == was;
    }

    lemma ScannedNext(k: nat, i: nat, queue: seq<nat>, was: seq<nat>, before: map<nat, Request>, now: int)
      requires ScannedUpTo(k, i, queue, was, before, now) && i < |queue|
      ensures k < |was| && queue[i] == was[k] && queue[i] in heap
      ensures heap[queue[i]].deadline > now ==> ScannedUpTo(k + 1, i + 1, queue, was, before, now)
      ensures heap[queue[i]].deadline <= now ==>
        queue[..i] + queue[i + 1..] == Passing(before, was[..k + 1], Unexpired(now)) + was[k + 1..]
        && i == |Passing(before, was[..k + 1], Unexpired(now))| && Same(before, heap, queue[..i] + queue[i + 1..])
      ensures Queued(before, was)
    {
      hide Passing;
      PassingPush(before, was, k, Unexpired(now));
      assert queue[i] == was[k..][0];
      assert was[k..] == [was[k]] + was[k + 1..];
      assert was[k..][1..] == was[k + 1..];
    }

    /** What becomes of the expired requests of a queue. */
    ghost function Expiries(h: map<nat, Request>, queue: seq<nat>, again: nat -> bool, ready: nat -> bool, now: int)
      : map<nat, Fate>
      requires Same(h, h, queue)
      reads `terminating
    {
      map id | id in queue && h[id].deadline <= now :: FateOf(h[id], Failure, again(id), ready(id))
    }

    lemma ExpiriesHas(h: map<nat, Request>, queue: seq<nat>, again: nat -> bool, ready: nat -> bool, now: int, i: nat)
      requires Same(h, h, queue) && i < |queue|
      ensures var fates, id := Expiries(h, queue, again, ready, now), queue[i];
        && id in h && (id in fates <==> h[id].deadline <= now)
        && (id in fates ==> fates[id] == FateOf(h[id], Failure, again(id), ready(id)))
    {
    }

    lemma ExpiriesSame(h: map<nat, Request>, g: map<nat, Request>, queue: seq<nat>, again: nat -> bool,
                       ready: nat -> bool, now: int)
      requires Same(h, g, queue)
      ensures Same(h, h, queue) && Same(g, g, queue)
      ensures Expiries(h, queue, again, ready, now) == Expiries(g, queue, again, ready, now)
    {
      hide FateOf;
    }

    /** The first `k` requests of the queue have met their fate, if they had expired. */
    ghost predicate FatedUpTo(k: nat, was: seq<nat>, fates: map<nat, Fate>, retries: seq<nat>, told: seq<nat>)
      reads `heap, `retrybufs, `replies
    {
      && k <= |was|
      && retrybufs == retries + With(was[..k], fates, Retried) && replies == told + With(was[..k], fates, Replied)
      && forall j :: 0 <= j < k && was[j] in fates ==> (was[j] in heap <==> fates[was[j]] != Freed)
    }

    lemma FatedNone(was: seq<nat>, fates: map<nat, Fate>)
      ensures FatedUpTo(0, was, fates, retrybufs, replies)
    {
    }

    lemma FatedAll(was: seq<nat>, fates: map<nat, Fate>, retries: seq<nat>, told: seq<nat>)
      requires FatedUpTo(|was|, was, fates, retries, told)
      ensures retrybufs == retries + With(was, fates, Retried) && replies == told + With(was, fates, Replied)
      ensures forall j :: 0 <= j < |was| && was[j] in fates ==> (was[j] in heap <==> fates[was[j]] != Freed)
    {
      assert was[..|was|] == was;
    }

    lemma FatedHas(k: nat, was: seq<nat>, fates: map<nat, Fate>, retries: seq<nat>, told: seq<nat>)
      requires FatedUpTo(k, was, fates, retries, told)
      ensures k <= |was|
      ensures retrybufs == retries + With(was[..k], fates, Retried) && replies == told + With(was[..k], fates, Replied)
      ensures forall j :: 0 <= j < k && was[j] in fates ==> (was[j] in heap <==> fates[was[j]] != Freed)
    {
    }

    lemma FatedNot(k: nat, was: seq<nat>, fates: map<nat, Fate>, retries: seq<nat>, told: seq<nat>)
      requires FatedUpTo(k, was, fates, retries, told) && k < |was| && was[k] !in fates
      ensures FatedUpTo(k + 1, was, fates, retries, told)
    {
      assert was[..k + 1][..k] == was[..k];
    }

    lemma FatedOne(k: nat, was: seq<nat>, fates: map<nat, Fate>, retries: seq<nat>, told: seq<nat>,
                   h: map<nat, Request>, r: seq<nat>, a: seq<nat>, ops: seq<nat>)
      requires k < |was| && was[k] in fates && Others(heap, was[k]) == Others(h, was[k]) && NoneTwice(was)
      requires r == retries + With(was[..k], fates, Retried) && a == told + With(was[..k], fates, Replied)
      requires forall j :: 0 <= j < k && was[j] in fates ==> (was[j] in h <==> fates[was[j]] != Freed)
      requires WentTo(fates[was[k]], was[k], true, r, ops, a)
      ensures FatedUpTo(k + 1, was, fates, retries, told) && retryOps == ops
    {
      assert was[..k + 1][..k] == was[..k];
      forall j | 0 <= j < k && was[j] in fates
        ensures was[j] in heap <==> fates[was[j]] != Freed
      {
        assert was[j] != was[k];
        assert was[j] in heap <==> was[j] in Others(heap, was[k]);
        assert was[j] in h <==> was[j] in Others(h, was[k]);
      }
    }

    lemma InQueueOnce(waiting: bool, id: nat)
      requires Valid()
      ensures multiset(Queue(waiting))[id] <= 1
    {
      hide Records, Queued, Unsent;
      assert (Lying() + held)[id] == Refs(heap, id);
      assert multiset(Queue(waiting))[id] <= Lying()[id];
    }

    lemma QueueOnce(waiting: bool)
      requires Valid()
      ensures NoneTwice(Queue(waiting))
    {
      hide Valid;
      var q := Queue(waiting);
      forall i, j | 0 <= i < j < |q|
        ensures q[i] != q[j]
      {
        InQueueOnce(waiting, q[i]);
        if q[i] == q[j] {
          Twice(q, i, j);
        }
      }
    }

    /** One request of the scan. */
    method ScanOne(waiting: bool, ghost k: nat, i: nat, ghost was: seq<nat>, ghost before: map<nat, Request>,
                   again: nat -> bool, ready: nat -> bool, ghost fates: map<nat, Fate>, ghost retries: seq<nat>,
                   ghost told: seq<nat>, now: int) returns (next: nat)
      requires Valid() && ScannedUpTo(k, i, Queue(waiting), was, before, now) && i < |Queue(waiting)|
      requires Same(before, heap, Queue(!waiting)) && NoneTwice(was) && FatedUpTo(k, was, fates, retries, told)
      requires Same(before, before, was) && fates == Expiries(before, was, again, ready, now)
      modifies `heap, `held, `retrybufs, `retryOps, `replies, `waitresps, `outbufs
      ensures Valid() && ScannedUpTo(k + 1, next, Queue(waiting), was, before, now)
      ensures Queue(!waiting) == old(Queue(!waiting)) && Same(before, heap, Queue(!waiting))
      ensures |Queue(waiting)| - next == |old(Queue(waiting))| - i - 1
      ensures i <= next <= |Queue(waiting)|
      ensures FatedUpTo(k + 1, was, fates, retries, told) && retryOps == old(retryOps)
    {
      hide *;
      ValidSound();
      ScannedNext(k, i, Queue(waiting), was, before, now);
      ScannedHere(k, i, Queue(waiting), was, before, now);
      ExpiriesHas(before, was, again, ready, now, k);
      next := i;
      if heap[Queue(waiting)[i]].deadline > now {
        next := i + 1;
        FatedNot(k, was, fates, retries, told);
      } else {
        ghost var h, ops := heap, retryOps;
        FatedHas(k, was, fates, retries, told);
        var id := TakeFrom(waiting, i);
        NowRunning(id);
        NotQueued(id);
        CallBack(id, Failure, again(id), true, ready(id), now);
        SameBut(before, h, heap, Queue(waiting), id);
        SameBut(before, h, heap, Queue(!waiting), id);
        ScannedThere(k + 1, next, Queue(waiting), was, before, now);
        FatedOne(k, was, fates, retries, told, h, old(retrybufs), old(replies), ops);
      }
    }

    lemma ScannedHere(k: nat, i: nat, queue: seq<nat>, was: seq<nat>, before: map<nat, Request>, now: int)
      requires ScannedUpTo(k, i, queue, was, before, now) && i < |queue| && k < |was| && queue[i] == was[k]
      ensures was[k] in before && was[k] in heap && heap[was[k]] == before[was[k]]
    {
    }

    lemma NotQueued(id: nat)
      requires id !in outbufs && id !in waitresps
      ensures forall waiting :: id !in Queue(waiting)
    {
    }

    lemma ScannedThere(k: nat, i: nat, queue: seq<nat>, was: seq<nat>, before: map<nat, Request>, now: int)
      requires k <= |was| && Queued(before, was) && Same(before, heap, queue)
      requires queue == Passing(before, was[..k], Unexpired(now)) + was[k..]
      requires i == |Passing(before, was[..k], Unexpired(now))|
      ensures ScannedUpTo(k, i, queue, was, before, now)
    {
    }

    /**
     rd_kafka_broker_bufq_timeout_scan: the expired requests are called back, and retried, replied
     to or freed as each call decides; the others stay, in order.
     */
    method ScanQueue(waiting: bool, again: nat -> bool, ready: nat -> bool, now: int) returns (count: nat)
      requires Valid()
      modifies `heap, `held, `retrybufs, `retryOps, `replies, `waitresps, `outbufs
      ensures Valid() && Queue(!waiting) == old(Queue(!waiting)) && retryOps == old(retryOps)
      ensures Queue(waiting) == Passing(old(heap), old(Queue(waiting)), Unexpired(now))
      ensures count == |old(Queue(waiting))| - |Queue(waiting)|
      ensures Same(old(heap), heap, Queue(!waiting)) && Same(old(heap), old(heap), old(Queue(waiting)))
      ensures var was := old(Queue(waiting));
        var fates := Expiries(old(heap), was, again, ready, now);
        && retrybufs == old(retrybufs) + With(was, fates, Retried)
        && replies == old(replies) + With(was, fates, Replied)
        && forall j :: 0 <= j < |was| && was[j] in fates ==> (was[j] in heap <==> fates[was[j]] != Freed)
    {
      hide *;
      ValidSound();
      QueuesLive();
      Queues();
      LiveSame(heap, Queue(true));
      LiveSame(heap, Queue(false));
      QueueOnce(waiting);
      ScannedNone(Queue(waiting), now);
      ghost var k := 0;
      ghost var was := Queue(waiting);
      ghost var fates := Expiries(heap, was, again, ready, now);
      FatedNone(was, fates);
      var n := |Queue(waiting)|;
      var i := 0;
      while i < |Queue(waiting)|
        invariant Valid() && 0 <= i <= |Queue(waiting)| && k >= 0 && retryOps == old(retryOps)
        invariant ScannedUpTo(k, i, Queue(waiting), was, old(heap), now)
        invariant FatedUpTo(k, was, fates, old(retrybufs), old(replies))
        invariant Queue(!waiting) == old(Queue(!waiting)) && Same(old(heap), heap, Queue(!waiting))
        decreases |Queue(waiting)| - i
      {
        i := ScanOne(waiting, k, i, was, old(heap), again, ready, fates, old(retrybufs), old(replies), now);
        k := k + 1;
      }
      ScannedAll(k, i, Queue(waiting), was, old(heap), now);
      FatedAll(was, fates, old(retrybufs), old(replies));
      PassingSize(old(heap), was, Unexpired(now));
      count := n - |Queue(waiting)|;
    }

    /** Both queues of the timeout scan. */
    method ScanBoth(again: nat -> bool, ready: nat -> bool, now: int) returns (requests: nat, unsent: nat)
      requires Valid()
      modifies `heap, `held, `retrybufs, `retryOps, `replies, `waitresps, `outbufs
      ensures Valid()
      ensures waitresps == Passing(old(heap), old(waitresps), Unexpired(now))
      ensures outbufs == Passing(old(heap), old(outbufs), Unexpired(now))
      ensures requests == |old(waitresps)| - |waitresps| && unsent == |old(outbufs)| - |outbufs|
      ensures Same(old(heap), old(heap), old(waitresps)) && Same(old(heap), old(heap), old(outbufs))
      ensures var first, second := Expiries(old(heap), old(waitresps), again, ready, now),
                                   Expiries(old(heap), old(outbufs), again, ready, now);
        && retrybufs == old(retrybufs) + With(old(waitresps), first, Retried) + With(old(outbufs), second, Retried)
        && replies == old(replies) + With(old(waitresps), first, Replied) + With(old(outbufs), second, Replied)
    {
      hide *;
      Queues();
      requests := ScanQueue(true, again, ready, now);
      Queues();
      PassingSame(old(heap), heap, outbufs, Unexpired(now));
      ExpiriesSame(old(heap), heap, outbufs, again, ready, now);
      unsent := ScanQueue(false, again, ready, now);
      Queues();
    }

    lemma Queues()
      ensures Queue(true) == waitresps && Queue(false) == outbufs
    {
    }

    /** One request of a purged queue. */
    method PurgeOne(id: nat, err: Error, again: bool, ready: bool, ghost rest: multiset<nat>, now: int)
      requires Sound() && held == multiset{id} + rest && AllOnce(heap)
      modifies `heap, `held, `retrybufs, `retryOps, `replies
      ensures Sound() && held == rest && AllOnce(heap) && id in old(heap) && id !in rest
      ensures Others(heap, id) == Others(old(heap), id) && retryOps == old(retryOps)
      ensures var fate := FateOf(old(heap)[id], err, again, ready);
        && retrybufs == old(retrybufs) + (if fate == Retried then [id] else [])
        && replies == old(replies) + (if fate == Replied then [id] else [])
        && (id in heap <==> fate != Freed)
    {
      hide Sound, Others, AllOnce, FateOf;
      HeldOnce(id);
      FateIs(heap[id], err, again, ready);
      BufCallback(id, err, again, true, ready, now);
      StillOnce(old(heap), id);
      assert held == rest && retryOps + [] == retryOps;
    }

    /** What becomes of each request of a queue, given what its callback asks and whether its reply queue takes ops. */
    ghost function Fates(h: map<nat, Request>, queue: seq<nat>, err: Error, again: nat -> bool, ready: nat -> bool)
      : map<nat, Fate>
      requires Same(h, h, queue)
      reads `terminating
    {
      map id | id in queue :: FateOf(h[id], err, again(id), ready(id))
    }

    lemma FatesHas(h: map<nat, Request>, queue: seq<nat>, err: Error, again: nat -> bool, ready: nat -> bool, i: nat)
      requires Same(h, h, queue) && i < |queue|
      ensures queue[i] in Fates(h, queue, err, again, ready) && queue[i] in h
      ensures Fates(h, queue, err, again, ready)[queue[i]] == FateOf(h[queue[i]], err, again(queue[i]), ready(queue[i]))
      ensures err == Failure && !internal && !terminating ==>
        (Fates(h, queue, err, again, ready)[queue[i]] == Retried <==> Passes(h[queue[i]], Tryable(maxRetries)))
    {
    }

    /** With an error worth another try, every request with tries left is retried. */
    lemma {:induction false} RetriesAll(h: map<nat, Request>, queue: seq<nat>, err: Error, again: nat -> bool,
                                        ready: nat -> bool, n: nat)
      requires Same(h, h, queue) && n <= |queue| && err == Failure && !internal && !terminating
      ensures With(queue[..n], Fates(h, queue, err, again, ready), Retried) == Passing(h, queue[..n], Tryable(maxRetries))
    {
      hide Same, Passes, Fates;
      if n > 0 {
        RetriesAll(h, queue, err, again, ready, n - 1);
        FatesHas(h, queue, err, again, ready, n - 1);
        assert queue[..n][..n - 1] == queue[..n - 1];
      }
    }

    ghost predicate PurgedUpTo(i: nat, purged: seq<nat>, fates: map<nat, Fate>, retries: seq<nat>, told: seq<nat>)
      requires i <= |purged|
      reads `heap, `retrybufs, `replies
    {
      && retrybufs == retries + With(purged[..i], fates, Retried) && replies == told + With(purged[..i], fates, Replied)
      && forall j :: 0 <= j < i ==>
           (purged[j] in heap <==> purged[j] in fates && fates[purged[j]] != Freed) && purged[j] !in purged[i..]
    }

    lemma PurgedHas(i: nat, purged: seq<nat>, fates: map<nat, Fate>, retries: seq<nat>, told: seq<nat>)
      requires i <= |purged| && PurgedUpTo(i, purged, fates, retries, told)
      ensures retrybufs == retries + With(purged[..i], fates, Retried)
      ensures replies == told + With(purged[..i], fates, Replied)
      ensures forall j :: 0 <= j < i ==>
        (purged[j] in heap <==> purged[j] in fates && fates[purged[j]] != Freed) && purged[j] !in purged[i..]
    {
    }

    lemma PurgedNone(purged: seq<nat>, fates: map<nat, Fate>)
      ensures PurgedUpTo(0, purged, fates, retrybufs, replies)
    {
    }

    lemma PurgedAll(purged: seq<nat>, fates: map<nat, Fate>, retries: seq<nat>, told: seq<nat>)
      requires PurgedUpTo(|purged|, purged, fates, retries, told)
      ensures retrybufs == retries + With(purged, fates, Retried) && replies == told + With(purged, fates, Replied)
      ensures forall j :: 0 <= j < |purged| ==> (purged[j] in heap <==> purged[j] in fates && fates[purged[j]] != Freed)
    {
      assert purged[..|purged|] == purged;
    }

    /** One round of the purge. */
    method PurgeNth(i: nat, purged: seq<nat>, err: Error, again: bool, ready: bool, ghost fates: map<nat, Fate>,
                    ghost retries: seq<nat>, ghost told: seq<nat>, ghost before: map<nat, Request>, now: int)
      requires i < |purged| && Sound() && AllOnce(heap) && held == multiset(purged[i..])
      requires PurgedUpTo(i, purged, fates, retries, told) && Same(before, heap, purged[i..])
      requires purged[i] in fates && purged[i] in before && fates[purged[i]] == FateOf(before[purged[i]], err, again, ready)
      modifies `heap, `held, `retrybufs, `retryOps, `replies
      ensures Sound() && AllOnce(heap) && held == multiset(purged[i + 1..]) && retryOps == old(retryOps)
      ensures PurgedUpTo(i + 1, purged, fates, retries, told) && Same(before, heap, purged[i + 1..])
    {
      hide *;
      PurgeNext(before, purged, i);
      PurgedHas(i, purged, fates, retries, told);
      ghost var h := heap;
      PurgeOne(purged[i], err, again, ready, multiset(purged[i + 1..]), now);
      SameBut(before, h, heap, purged[i + 1..], purged[i]);
      PurgedOneMore(i, purged, fates, retries, told, h, old(retrybufs), old(replies));
    }

    lemma PurgedOneMore(i: nat, purged: seq<nat>, fates: map<nat, Fate>, retries: seq<nat>, told: seq<nat>,
                        h: map<nat, Request>, r: seq<nat>, a: seq<nat>)
      requires i < |purged| && purged[i] in fates && Others(heap, purged[i]) == Others(h, purged[i])
      requires r == retries + With(purged[..i], fates, Retried) && a == told + With(purged[..i], fates, Replied)
      requires forall j :: 0 <= j < i ==>
        (purged[j] in h <==> purged[j] in fates && fates[purged[j]] != Freed) && purged[j] !in purged[i..]
      requires retrybufs == r + (if fates[purged[i]] == Retried then [purged[i]] else [])
      requires replies == a + (if fates[purged[i]] == Replied then [purged[i]] else [])
      requires (purged[i] in heap <==> fates[purged[i]] != Freed) && purged[i] !in purged[i + 1..]
      ensures PurgedUpTo(i + 1, purged, fates, retries, told)
    {
      assert purged[..i + 1][..i] == purged[..i];
      assert purged[i..] == [purged[i]] + purged[i + 1..];
      forall j | 0 <= j < i
        ensures purged[j] != purged[i] && (purged[j] in heap <==> purged[j] in h) && purged[j] !in purged[i + 1..]
      {
        assert purged[i] in purged[i..];
        assert purged[j] in heap <==> purged[j] in Others(heap, purged[i]);
        assert purged[j] in h <==> purged[j] in Others(h, purged[i]);
      }
    }

    lemma HeldOnce(id: nat)
      requires Sound() && id in held && AllOnce(heap)
      ensures id in heap && heap[id].refs == 1 == held[id]
    {
      hide Records, Queued, Unsent, Lying;
      HeldLives(id);
    }

    /** Both queues onto a temporary one, whose references the caller holds. */
    method Withdraw() returns (purged: seq<nat>)
      requires Sound() && held == multiset{}
      modifies `held, `waitresps, `outbufs
      ensures Sound() && waitresps == [] && outbufs == [] && purged == old(waitresps) + old(outbufs)
      ensures held == multiset(purged)
    {
      hide Owned, Records, Numbered, Sum, Unsent;
      purged := waitresps + outbufs;
      ghost var x, r, t, a := multiset(xmitOps), multiset(retryOps), multiset(retrybufs), multiset(replies);
      SumAdd(x, r, multiset{}, multiset(waitresps), t, a, multiset(outbufs));
      SumAdd(x, r, multiset{}, multiset{}, t, a, multiset(waitresps));
      assert multiset{} + multiset(outbufs) == multiset(outbufs) && multiset{} + multiset(waitresps) == multiset(waitresps);
      waitresps, outbufs := [], [];
      held := multiset(purged);
      assert Lying() + held == old(Lying() + held);
    }

    lemma PurgeNext(before: map<nat, Request>, purged: seq<nat>, i: nat)
      requires i < |purged| && Same(before, heap, purged[i..])
      ensures multiset(purged[i..]) == multiset{purged[i]} + multiset(purged[i + 1..])
      ensures purged[i] in before && purged[i] in heap && heap[purged[i]] == before[purged[i]]
      ensures Same(before, heap, purged[i + 1..])
      ensures purged[i] in multiset(purged[i + 1..]) <==> purged[i] in purged[i + 1..]
    {
      assert purged[i..] == [purged[i]] + purged[i + 1..];
      assert purged[i] == purged[i..][0];
    }

    lemma PurgeEnds(purged: seq<nat>)
      ensures purged[0..] == purged && purged[..|purged|] == purged && multiset(purged[|purged|..]) == multiset{}
    {
    }

    lemma BothSame(h: map<nat, Request>)
      requires Queued(h, waitresps) && Queued(h, outbufs)
      ensures Same(h, h, waitresps + outbufs)
    {
    }

    lemma NobodyRuns()
      requires Sound() && held == multiset{} && AllOnce(heap)
      ensures Valid()
    {
    }

    /**
     The purging of rd_kafka_broker_fail: what was waiting for a response and then what was
     still to be sent is called back, and retried, replied to or freed as each call decides; with
     a retryable error exactly the requests with tries left are retried. All in that order.
     */
    method Fail(err: Error, again: nat -> bool, ready: nat -> bool, now: int)
      requires Valid()
      modifies `heap, `held, `retrybufs, `retryOps, `replies, `waitresps, `outbufs, `up, `timeouts
      ensures Valid() && waitresps == [] && outbufs == [] && !up && timeouts == 0 && retryOps == old(retryOps)
      ensures Same(old(heap), old(heap), old(waitresps + outbufs))
      ensures var purged := old(waitresps + outbufs);
        var fates := Fates(old(heap), purged, err, again, ready);
        && retrybufs == old(retrybufs) + With(purged, fates, Retried)
        && replies == old(replies) + With(purged, fates, Replied)
        && forall j :: 0 <= j < |purged| ==> (purged[j] in heap <==> purged[j] in fates && fates[purged[j]] != Freed)
      ensures err == Failure && !internal && !terminating ==>
        retrybufs == old(retrybufs) + Passing(old(heap), old(waitresps + outbufs), Tryable(maxRetries))
    {
      hide *;
      ValidSound();
      QueuesLive();
      BothSame(heap);
      timeouts, up := 0, false;
      var purged := Withdraw();
      ghost var fates := Fates(heap, purged, err, again, ready);
      Purge(purged, err, again, ready, fates, now);
      PurgedAll(purged, fates, old(retrybufs), old(replies));
      if err == Failure && !internal && !terminating {
        PurgeEnds(purged);
        RetriesAll(old(heap), purged, err, again, ready, |purged|);
      }
      NobodyRuns();
    }

    /** rd_kafka_bufq_purge. */
    method Purge(purged: seq<nat>, err: Error, again: nat -> bool, ready: nat -> bool, ghost fates: map<nat, Fate>,
                 now: int)
      requires Sound() && AllOnce(heap) && held == multiset(purged) && Same(heap, heap, purged)
      requires fates == Fates(heap, purged, err, again, ready)
      modifies `heap, `held, `retrybufs, `retryOps, `replies
      ensures Sound() && AllOnce(heap) && held == multiset{} && retryOps == old(retryOps)
      ensures PurgedUpTo(|purged|, purged, fates, old(retrybufs), old(replies))
    {
      hide *;
      PurgeEnds(purged);
      PurgedNone(purged, fates);
      var i := 0;
      while i < |purged|
        invariant 0 <= i <= |purged| && Sound() && AllOnce(heap) && held == multiset(purged[i..])
        invariant Same(old(heap), heap, purged[i..]) && retryOps == old(retryOps)
        invariant PurgedUpTo(i, purged, fates, old(retrybufs), old(replies))
      {
        FatesHas(old(heap), purged, err, again, ready, i);
        PurgeNth(i, purged, err, again(purged[i]), ready(purged[i]), fates, old(retrybufs), old(replies), old(heap), now);
        i := i + 1;
      }
    }

    /**
     rd_kafka_broker_timeout_scan: the expired requests are called back, and when that makes too
     many of them since the last failure of the broker, it fails and the others are purged.
     */
    method TimeoutScan(again: nat -> bool, ready: nat -> bool, now: int) returns (requests: nat, unsent: nat)
      requires Valid()
      modifies `heap, `held, `retrybufs, `retryOps, `replies, `waitresps, `outbufs, `up, `timeouts
      ensures Valid()
      ensures var waiting := Passing(old(heap), old(waitresps), Unexpired(now));
        var unexpired := Passing(old(heap), old(outbufs), Unexpired(now));
        var fails := requests + unsent > 0 && 0 < maxFails <= old(timeouts) + requests && old(up);
        && requests == |old(waitresps)| - |waiting| && unsent == |old(outbufs)| - |unexpired|
        && waitresps == (if fails then [] else waiting) && outbufs == (if fails then [] else unexpired)
        && timeouts == (if fails then 0 else old(timeouts) + requests) && up == (old(up) && !fails)
        && Same(old(heap), old(heap), old(waitresps)) && Same(old(heap), old(heap), old(outbufs))
        && var first, second := Expiries(old(heap), old(waitresps), again, ready, now),
                                Expiries(old(heap), old(outbufs), again, ready, now);
        !fails ==>
          && retrybufs == old(retrybufs) + With(old(waitresps), first, Retried) + With(old(outbufs), second, Retried)
          && replies == old(replies) + With(old(waitresps), first, Replied) + With(old(outbufs), second, Replied)
    {
      hide *;
      requests, unsent := ScanBoth(again, ready, now);
      if requests + unsent > 0 {
        timeouts := timeouts + requests;
        if maxFails != 0 && timeouts >= maxFails && up {
          Fail(Failure, again, ready, now);
        }
      }
    }

    /** The connection has been set up. */
    method Connected()
      requires Valid()
      modifies `up
      ensures Valid() && up
    {
      up := true;
    }

    lemma RetriesLive()
      requires Sound()
      ensures Same(heap, heap, retrybufs)
    {
      hide Records, Queued, Unsent, Sum;
      forall j | 0 <= j < |retrybufs|
        ensures retrybufs[j] in heap
      {
        RetryCounted(retrybufs[j]);
        assert (Lying() + held)[retrybufs[j]] == Refs(heap, retrybufs[j]);
      }
    }

    lemma RetryCounted(id: nat)
      requires id in retrybufs
      ensures Lying()[id] >= 1
    {
      assert multiset(retrybufs)[id] >= 1;
    }

    /** The first request of the retry queue goes to the tail of the transmit queue, with a new number. */
    method MoveFirst(ghost before: map<nat, Request>, now: int)
      requires Valid() && retrybufs != [] && Same(before, heap, retrybufs)
      modifies `heap, `held, `issued, `outbufs, `retrybufs
      ensures Valid() && retrybufs == old(retrybufs)[1..] && outbufs == old(outbufs) + [old(retrybufs)[0]]
      ensures issued == old(issued) + 1 && Same(before, heap, retrybufs)
      ensures var id := old(retrybufs)[0];
        && id in old(heap) && id in heap && heap[id].of == 0 && Others(heap, id) == Others(old(heap), id)
        && var r := old(heap)[id];
           heap[id] == r.(issue := issued, corrid := CorrId(issued),
                          deadline := if r.deadline == 0 then now + socketTimeout else r.deadline)
    {
      hide *;
      ValidSound();
      NotBegun();
      FirstUnsent(heap, retrybufs);
      SameTail(before, heap, retrybufs);
      var id := TakeRetrybufs(0);
      NowRunning(id);
      ghost var h := heap;
      Enqueue(id, |outbufs|, now);
      SameBut(before, h, heap, retrybufs, id);
    }

    /**
     rd_kafka_broker_retry_bufs_move: the requests at the front whose backoff has passed are
     enqueued again, in order, and the scan stops at the first that has to wait.
     */
    method RetryBufsMove(now: int) returns (moved: nat)
      requires Valid()
      modifies `heap, `held, `issued, `outbufs, `retrybufs
      ensures Valid() && moved <= |old(retrybufs)| && Same(old(heap), old(heap), old(retrybufs))
      ensures retrybufs == old(retrybufs)[moved..] && outbufs == old(outbufs) + old(retrybufs)[..moved]
      ensures issued == old(issued) + moved
      ensures forall j :: 0 <= j < moved ==> old(heap)[old(retrybufs)[j]].retryAt <= now
      ensures moved < |old(retrybufs)| ==> old(heap)[old(retrybufs)[moved]].retryAt > now
    {
      hide Valid, Others, Numbered;
      ValidSound();
      RetriesLive();
      moved := 0;
      ghost var was := retrybufs;
      assert was[0..] == was;
      while retrybufs != [] && heap[retrybufs[0]].retryAt <= now
        invariant Valid() && moved <= |was| && Same(old(heap), heap, retrybufs) && issued == old(issued) + moved
        invariant retrybufs == was[moved..] && outbufs == old(outbufs) + was[..moved]
        invariant forall j :: 0 <= j < moved ==> was[j] in old(heap) && old(heap)[was[j]].retryAt <= now
        decreases |was| - moved
      {
        assert retrybufs[0] == was[moved] && was[moved..][1..] == was[moved + 1..];
        assert was[..moved + 1] == was[..moved] + [was[moved]];
        MoveFirst(old(heap), now);
        moved := moved + 1;
      }
      assert moved < |was| ==> retrybufs[0] == was[moved];
    }

    lemma QueuesLive()
      requires Sound()
      ensures Queued(heap, waitresps) && Queued(heap, outbufs)
    {
    }
  }

  datatype Sieve = Unexpired(now: int) | Tryable(maxRetries: nat)

  predicate Passes(r: Request, sieve: Sieve) {
    match sieve
    case Unexpired(now) => r.deadline > now
    case Tryable(maxRetries) => r.retries + 1 <= maxRetries
  }

  /** The requests of a queue that pass, in order. */
  ghost function Passing(heap: map<nat, Request>, queue: seq<nat>, sieve: Sieve): seq<nat> {
    if queue == [] then []
    else
      var n := |queue| - 1;
      Passing(heap, queue[..n], sieve)
      + if queue[n] in heap && Passes(heap[queue[n]], sieve) then [queue[n]] else []
  }

  ghost predicate NoneTwice(queue: seq<nat>) {
    forall i, j :: 0 <= i < j < |queue| ==> queue[i] != queue[j]
  }

  lemma Twice(queue: seq<nat>, i: nat, j: nat)
    requires i < j < |queue| && queue[i] == queue[j]
    ensures multiset(queue)[queue[i]] >= 2
  {
    assert queue == queue[..j] + [queue[j]] + queue[j + 1..];
    assert queue[..j][i] == queue[j];
    assert queue[j] in multiset(queue[..j]);
  }

  /** The requests of a queue that meet a fate, in order. */
  ghost function With(queue: seq<nat>, fates: map<nat, Fate>, fate: Fate): seq<nat> {
    if queue == [] then []
    else
      var n := |queue| - 1;
      With(queue[..n], fates, fate) + if queue[n] in fates && fates[queue[n]] == fate then [queue[n]] else []
  }

  /** An unexpired request stays, an expired one goes; a request is retried while it has tries left. */
  lemma PassingOne(heap: map<nat, Request>, id: nat, now: int, maxRetries: nat)
    ensures Passing(heap, [id], Unexpired(now)) == if id in heap && heap[id].deadline > now then [id] else []
    ensures Passing(heap, [id], Tryable(maxRetries)) == if id in heap && heap[id].retries < maxRetries then [id] else []
  {
    assert [id][..0] == [];
    assert forall sieve :: Passing(heap, [], sieve) == [];
  }

  /** One after the other, in the order of the queue. */
  lemma {:induction false} PassingSplit(heap: map<nat, Request>, a: seq<nat>, b: seq<nat>, sieve: Sieve)
    ensures Passing(heap, a + b, sieve) == Passing(heap, a, sieve) + Passing(heap, b, sieve)
  {
    if b == [] {
      assert a + b == a;
    } else {
      var n := |b| - 1;
      assert (a + b)[..|a + b| - 1] == a + b[..n];
      PassingSplit(heap, a, b[..n], sieve);
    }
  }

  lemma WithOne(id: nat, fates: map<nat, Fate>, fate: Fate)
    ensures With([id], fates, fate) == if id in fates && fates[id] == fate then [id] else []
  {
    assert [id][..0] == [] && With([], fates, fate) == [];
  }

  lemma {:induction false} WithSplit(a: seq<nat>, b: seq<nat>, fates: map<nat, Fate>, fate: Fate)
    ensures With(a + b, fates, fate) == With(a, fates, fate) + With(b, fates, fate)
  {
    if b == [] {
      assert a + b == a;
    } else {
      var n := |b| - 1;
      assert (a + b)[..|a + b| - 1] == a + b[..n];
      WithSplit(a, b[..n], fates, fate);
    }
  }

  lemma PassingPush(heap: map<nat, Request>, queue: seq<nat>, k: nat, sieve: Sieve)
    requires k < |queue|
    ensures Passing(heap, queue[..k + 1], sieve) == Passing(heap, queue[..k], sieve)
      + if queue[k] in heap && Passes(heap[queue[k]], sieve) then [queue[k]] else []
  {
    assert queue[..k + 1][..k] == queue[..k];
  }

  lemma {:induction false} PassingSize(heap: map<nat, Request>, queue: seq<nat>, sieve: Sieve)
    ensures |Passing(heap, queue, sieve)| <= |queue|
  {
    if queue != [] {
      PassingSize(heap, queue[..|queue| - 1], sieve);
    }
  }

  lemma {:induction false} PassingSame(before: map<nat, Request>, after: map<nat, Request>, queue: seq<nat>, sieve: Sieve)
    requires Same(before, after, queue)
    ensures Passing(before, queue, sieve) == Passing(after, queue, sieve)
  {
    if queue != [] {
      var n := |queue| - 1;
      assert forall j :: 0 <= j < n ==> queue[..n][j] == queue[j];
      PassingSame(before, after, queue[..n], sieve);
    }
  }

  lemma LiveSame(heap: map<nat, Request>, queue: seq<nat>)
    requires Queued(heap, queue)
    ensures Same(heap, heap, queue)
  {
  }

  /** The records of a queue have not changed. */
  ghost predicate Same(before: map<nat, Request>, after: map<nat, Request>, queue: seq<nat>) {
    forall j :: 0 <= j < |queue| ==> queue[j] in before && queue[j] in after && after[queue[j]] == before[queue[j]]
  }

  lemma SameTail(before: map<nat, Request>, after: map<nat, Request>, queue: seq<nat>)
    requires Same(before, after, queue) && queue != []
    ensures queue[..0] + queue[1..] == queue[1..] && Same(before, after, queue[1..])
  {
  }

  lemma SameBut(before: map<nat, Request>, h: map<nat, Request>, after: map<nat, Request>, queue: seq<nat>, id: nat)
    requires Same(before, h, queue) && id !in queue && Others(h, id) == Others(after, id)
    ensures Same(before, after, queue)
  {
    forall j | 0 <= j < |queue|
      ensures queue[j] in after && after[queue[j]] == before[queue[j]]
    {
      assert queue[j] in Others(h, id);
    }
  }

  /** Index of the first request with the correlation id, or the length. */
  ghost function MatchIn(heap: map<nat, Request>, queue: seq<nat>, corrid: int): (i: nat)
    requires Queued(heap, queue)
    ensures i <= |queue| && (i < |queue| ==> heap[queue[i]].corrid == corrid)
    ensures forall j :: 0 <= j < i ==> heap[queue[j]].corrid != corrid
  {
    if queue == [] || heap[queue[0]].corrid == corrid then 0
    else
      assert forall k :: 0 <= k < |queue| - 1 ==> queue[1..][k] == queue[k + 1];
      1 + MatchIn(heap, queue[1..], corrid)
  }

  /** No live request has waited for a whole period of the counter. */
  ghost predicate WithinPeriod(heap: map<nat, Request>, issued: nat) {
    forall id :: id in heap && heap[id].issue > 0 ==> issued < heap[id].issue + COUNTER
  }

  /** The correlation ids of the live requests are pairwise distinct. */
  lemma DistinctCorrIds(heap: map<nat, Request>, issued: nat, maxRetries: nat, a: nat, b: nat)
    requires Records(heap, issued, maxRetries) && WithinPeriod(heap, issued)
    requires a in heap && b in heap && heap[a].issue > 0 && heap[b].issue > 0
    ensures heap[a].corrid == heap[b].corrid <==> a == b
  {
    hide CorrId;
    if a != b {
      var low, high := heap[a].issue, heap[b].issue;
      assert Numbered(heap[a], issued) && Numbered(heap[b], issued);
      if low < high {
        SameCorrId(low, high);
      } else {
        SameCorrId(high, low);
      }
    }
  }

  /** The response to the n-th enqueuing reaches the request that still carries number n, and no other. */
  lemma ResponseMatches(heap: map<nat, Request>, issued: nat, maxRetries: nat, waitresps: seq<nat>, n: nat)
    requires Records(heap, issued, maxRetries) && Queued(heap, waitresps) && WithinPeriod(heap, issued)
    requires 0 < n <= issued < n + COUNTER
    ensures var i := MatchIn(heap, waitresps, Echoed(n));
      && (i < |waitresps| <==> exists j :: 0 <= j < |waitresps| && heap[waitresps[j]].issue == n)
      && (i < |waitresps| ==> heap[waitresps[i]].issue == n)
  {
    hide CorrId, Echoed;
    EchoedIs(n);
    forall j | 0 <= j < |waitresps|
      ensures heap[waitresps[j]].corrid == CorrId(n) <==> heap[waitresps[j]].issue == n
    {
      var m := heap[waitresps[j]].issue;
      assert Numbered(heap[waitresps[j]], issued);
      if m < n {
        SameCorrId(m, n);
      } else if n < m {
        SameCorrId(n, m);
      }
    }
    var i := MatchIn(heap, waitresps, CorrId(n));
    if j :| 0 <= j < |waitresps| && heap[waitresps[j]].issue == n {
      assert j >= i;
    }
  }

  /** A request that is enqueued again drops its old number for good: no live request carries it. */
  lemma RenumberedIsStale(before: map<nat, Request>, after: map<nat, Request>, issued: nat, maxRetries: nat, id: nat)
    requires Records(before, issued, maxRetries) && id in before && before[id].issue > 0
    requires Others(before, id) == Others(after, id) && (id in after ==> after[id].issue > issued)
    ensures forall other :: other in after ==> after[other].issue != before[id].issue
  {
    assert Numbered(before[id], issued);
    forall other | other in after
      ensures after[other].issue != before[id].issue
    {
      if other != id {
        assert other in Others(after, id);
        assert other in before && before[other] == after[other];
      }
    }
  }
}
