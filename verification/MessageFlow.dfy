/**
 The messages of one partition on their way through the producer: the partition queue, the
 transmit queue, requests in flight, and delivery reports.
 */
module MessageFlow {
  import opened Bytes
  import opened Produce
  import Splice

  datatype ProduceError = NoError | LeaderGone | Fatal

  datatype Report = Report(m: Rkm, failed: bool, offset: Option<int>)

  /** The messages of requests in flight, oldest request first. */
  function Flat(batches: seq<seq<Rkm>>): seq<Rkm> {
    if batches == [] then [] else Flat(batches[..|batches| - 1]) + batches[|batches| - 1]
  }

  lemma FlatPush(batches: seq<seq<Rkm>>, batch: seq<Rkm>)
    ensures Flat(batches + [batch]) == Flat(batches) + batch
  {
    assert (batches + [batch])[..|batches|] == batches;
  }

  lemma FlatNone(a: seq<seq<Rkm>>)
    ensures Flat(a + []) == Flat(a) + Flat([])
  {
    assert a + [] == a;
  }

  lemma {:induction false} FlatConcat(a: seq<seq<Rkm>>, b: seq<seq<Rkm>>)
    ensures Flat(a + b) == Flat(a) + Flat(b)
  {
    hide Flat;
    if b == [] {
      FlatNone(a);
    } else {
      var n := |b| - 1;
      FlatConcat(a, b[..n]);
      assert a + b == a + b[..n] + [b[n]] && b == b[..n] + [b[n]];
      FlatPush(a + b[..n], b[n]);
      FlatPush(b[..n], b[n]);
    }
  }

  lemma Around<T>(s: seq<T>, i: nat)
    requires i < |s|
    ensures s == s[..i] + [s[i]] + s[i + 1..]
  {
  }

  lemma FlatAround(batches: seq<seq<Rkm>>, i: nat)
    requires i < |batches|
    ensures Flat(batches) == Flat(batches[..i]) + batches[i] + Flat(batches[i + 1..])
    ensures Flat(batches[..i] + batches[i + 1..]) == Flat(batches[..i]) + Flat(batches[i + 1..])
  {
    hide *;
    var a, b, c := batches[..i], batches[i], batches[i + 1..];
    Around(batches, i);
    FlatPush(a, b);
    FlatConcat(a + [b], c);
    FlatConcat(a, c);
  }

  ghost function Total(a: multiset<Rkm>, b: multiset<Rkm>, c: multiset<Rkm>, d: multiset<Rkm>, e: multiset<Rkm>,
                       f: multiset<Rkm>): multiset<Rkm>
  {
    a + b + c + d + e + f
  }

  lemma TotalAdd(a: multiset<Rkm>, b: multiset<Rkm>, c: multiset<Rkm>, d: multiset<Rkm>, e: multiset<Rkm>,
                 f: multiset<Rkm>, x: multiset<Rkm>)
    ensures Total(a + x, b, c, d, e, f) == Total(a, b, c, d, e, f) + x
    ensures Total(a, b + x, c, d, e, f) == Total(a, b, c, d, e, f) + x
    ensures Total(a, b, c + x, d, e, f) == Total(a, b, c, d, e, f) + x
    ensures Total(a, b, c, d + x, e, f) == Total(a, b, c, d, e, f) + x
    ensures Total(a, b, c, d, e + x, f) == Total(a, b, c, d, e, f) + x
    ensures Total(a, b, c, d, e, f + x) == Total(a, b, c, d, e, f) + x
  {
  }

  lemma Joined(x: seq<Rkm>, y: seq<Rkm>)
    ensures multiset(x + y) == multiset(x) + multiset(y) == multiset(y) + multiset(x) == multiset(y + x)
  {
  }

  lemma OkJoined(x: seq<Rkm>, y: seq<Rkm>)
    ensures AllOk(x + y) <==> AllOk(x) && AllOk(y)
  {
    if AllOk(x + y) {
      assert forall i :: 0 <= i < |x| ==> (x + y)[i] == x[i];
      assert forall i :: 0 <= i < |y| ==> (x + y)[|x| + i] == y[i];
    }
  }

  function Messages(reports: seq<Report>): seq<Rkm> {
    seq(|reports|, i requires 0 <= i < |reports| => reports[i].m)
  }

  /** How many messages at the front have timed out; the scan stops at the first that has not. */
  function Expired(ms: seq<Rkm>, now: int): (k: nat)
    ensures k <= |ms| && forall i :: 0 <= i < k ==> ms[i].deadline <= now
    ensures k < |ms| ==> ms[k].deadline > now
  {
    if ms == [] || ms[0].deadline > now then 0 else 1 + Expired(ms[1..], now)
  }

  /** Produced earlier. */
  ghost predicate Earlier(produced: seq<Rkm>, a: Rkm, b: Rkm) {
    exists i, j :: 0 <= i < j < |produced| && produced[i] == a && produced[j] == b
  }

  ghost predicate InOrder(produced: seq<Rkm>, ms: seq<Rkm>) {
    forall i, j :: 0 <= i < j < |ms| ==> Earlier(produced, ms[i], ms[j])
  }

  /** Everything in `xs` was produced before everything in `ys`. */
  ghost predicate Precedes(produced: seq<Rkm>, xs: seq<Rkm>, ys: seq<Rkm>) {
    forall i, j :: 0 <= i < |xs| && 0 <= j < |ys| ==> Earlier(produced, xs[i], ys[j])
  }

  lemma OrderOfConcat(p: seq<Rkm>, x: seq<Rkm>, y: seq<Rkm>)
    ensures InOrder(p, x + y) <==> InOrder(p, x) && InOrder(p, y) && Precedes(p, x, y)
  {
    hide Earlier;
    if InOrder(p, x + y) {
      assert forall i :: 0 <= i < |x| ==> (x + y)[i] == x[i];
      assert forall j :: 0 <= j < |y| ==> (x + y)[|x| + j] == y[j];
    }
  }

  lemma PrecedesConcat(p: seq<Rkm>, x: seq<Rkm>, y: seq<Rkm>, z: seq<Rkm>)
    ensures Precedes(p, x, y + z) <==> Precedes(p, x, y) && Precedes(p, x, z)
  {
    hide Earlier;
    if Precedes(p, x, y + z) {
      assert forall i :: 0 <= i < |y| ==> (y + z)[i] == y[i];
      assert forall j :: 0 <= j < |z| ==> (y + z)[|y| + j] == z[j];
    }
  }

  /** Three pieces in a row are in order exactly when each is, and each pair is. */
  lemma OrderOfThree(p: seq<Rkm>, x: seq<Rkm>, y: seq<Rkm>, z: seq<Rkm>)
    ensures InOrder(p, x + (y + z)) <==> InOrder(p, x) && InOrder(p, y) && InOrder(p, z)
                                         && Precedes(p, x, y) && Precedes(p, x, z) && Precedes(p, y, z)
  {
    hide *;
    OrderOfConcat(p, x, y + z);
    OrderOfConcat(p, y, z);
    PrecedesConcat(p, x, y, z);
  }

  lemma EarlierOneWay(p: seq<Rkm>, a: Rkm, b: Rkm)
    requires Splice.Distinct(p) && Earlier(p, a, b)
    ensures !Earlier(p, b, a)
  {
  }

  lemma PrecedesOneWay(p: seq<Rkm>, x: seq<Rkm>, y: seq<Rkm>)
    requires Splice.Distinct(p) && x != [] && y != [] && Precedes(p, x, y)
    ensures !Precedes(p, y, x)
  {
    hide Earlier;
    EarlierOneWay(p, x[0], y[0]);
  }

  /** A piece that is moved behind the next one keeps its place in the order only if that one is empty. */
  lemma PutBehind(p: seq<Rkm>, x: seq<Rkm>, b: seq<Rkm>, z: seq<Rkm>, q: seq<Rkm>)
    requires Splice.Distinct(p) && b != [] && InOrder(p, x + (b + (z + q)))
    ensures InOrder(p, x + (z + (b + q))) <==> z == []
  {
    hide InOrder, Precedes, Earlier, Splice.Distinct;
    OrderOfConcat(p, x, b + (z + q));
    PrecedesConcat(p, x, b, z + q);
    PrecedesConcat(p, x, z, q);
    OrderOfThree(p, b, z, q);
    OrderOfConcat(p, x, z + (b + q));
    PrecedesConcat(p, x, z, b + q);
    PrecedesConcat(p, x, b, q);
    OrderOfThree(p, z, b, q);
    if z == [] {
      assert z + (b + q) == b + (z + q);
    } else {
      PrecedesOneWay(p, b, z);
    }
  }

  /** And so does one that is moved in front of the one before. */
  lemma PutBefore(p: seq<Rkm>, h: seq<Rkm>, x: seq<Rkm>, b: seq<Rkm>, q: seq<Rkm>)
    requires Splice.Distinct(p) && b != [] && InOrder(p, h + (x + (b + q)))
    ensures InOrder(p, h + (b + (x + q))) <==> x == []
  {
    hide *;
    if x == [] {
      assert b + (x + q) == x + (b + q);
    } else {
      PutBehind(p, h, x, b, q);
    }
  }

  lemma Swapped(p: seq<Rkm>, h: seq<Rkm>, x: seq<Rkm>, y: seq<Rkm>, q: seq<Rkm>)
    requires Splice.Distinct(p) && InOrder(p, h + (x + (y + q)))
    ensures InOrder(p, h + (y + (x + q))) <==> x == [] || y == []
  {
    hide *;
    if y == [] {
      assert y + (x + q) == x + (y + q);
    } else {
      PutBefore(p, h, x, y, q);
    }
  }

  /** Taking a piece out keeps the order. */
  lemma TakenOut(p: seq<Rkm>, x: seq<Rkm>, b: seq<Rkm>, z: seq<Rkm>)
    requires InOrder(p, x + (b + z))
    ensures InOrder(p, x + z)
  {
    hide InOrder, Precedes, Earlier;
    OrderOfThree(p, x, b, z);
    OrderOfConcat(p, x, z);
  }

  /** What is put back in front of the partition queue stands behind the transmit queue. */
  lemma PutInBetween(p: seq<Rkm>, x: seq<Rkm>, b: seq<Rkm>, q: seq<Rkm>)
    requires InOrder(p, x + q)
    ensures InOrder(p, x + (b + q)) <==> InOrder(p, b) && Precedes(p, x, b) && Precedes(p, b, q)
  {
    hide *;
    OrderOfConcat(p, x, q);
    OrderOfThree(p, x, b, q);
  }

  lemma OneMore(p: seq<Rkm>, s: seq<Rkm>, m: Rkm)
    requires InOrder(p, s) && forall k :: 0 <= k < |s| ==> s[k] in p
    ensures InOrder(p + [m], s + [m])
  {
    forall i, j | 0 <= i < j < |s| + 1
      ensures Earlier(p + [m], (s + [m])[i], (s + [m])[j])
    {
      if j < |s| {
        assert Earlier(p, s[i], s[j]);
        var k, l :| 0 <= k < l < |p| && p[k] == s[i] && p[l] == s[j];
        assert (p + [m])[k] == s[i] && (p + [m])[l] == s[j];
      } else {
        var k :| 0 <= k < |p| && p[k] == s[i];
        assert (p + [m])[k] == s[i] && (p + [m])[|p|] == m;
      }
    }
  }

  /** No batch is empty. */
  ghost predicate AllFull(batches: seq<seq<Rkm>>) {
    forall i :: 0 <= i < |batches| ==> batches[i] != []
  }

  lemma FlatFull(batches: seq<seq<Rkm>>)
    requires AllFull(batches)
    ensures Flat(batches) == [] <==> batches == []
  {
  }

  class Toppar {
    const conf: Config
    const compress: seq<byte> -> Option<seq<byte>>
    const reporting: bool      // a delivery report callback is registered
    const errorsOnly: bool     // delivery.report.only.error
    const offsetReport: bool   // produce.offset.report
    const bufferingMax: nat
    var msgq: seq<Rkm>
    var xmit: seq<Rkm>
    var inflight: seq<seq<Rkm>>  // requests in the order they are sent
    var retrying: seq<seq<Rkm>>  // requests in the broker's retry queue
    var reports: seq<Report>
    var disposed: seq<Rkm>     // destroyed without a report
    var lastXmit: int
    ghost var produced: seq<Rkm>
    ghost var acked: seq<Rkm>    // acknowledged by the broker, in the order of its answers

    ghost function Everywhere(): multiset<Rkm>
      reads `msgq, `xmit, `inflight, `retrying, `reports, `disposed
    {
      Total(multiset(msgq), multiset(xmit), multiset(Flat(inflight)), multiset(Flat(retrying)),
            multiset(Messages(reports)), multiset(disposed))
    }

    /** Every message produced is in exactly one place, as often as it was produced. */
    ghost predicate Valid()
      reads this
    {
      && AllOk(msgq) && AllOk(xmit) && AllOk(Flat(inflight)) && AllOk(Flat(retrying)) && conf.batchNum > 0
      && (forall s :: compress(s).Some? ==> |compress(s).value| < INT32_MAX)
      && Everywhere() == multiset(produced) && (forall k :: 0 <= k < |acked| ==> acked[k] in produced)
    }

    /** Not yet handed over, in the order it would be. */
    ghost function Waiting(): seq<Rkm>
      reads `msgq, `xmit
    {
      xmit + msgq
    }

    /** Acknowledged or still to be, in the order the broker would get the messages if nothing failed from now on. */
    ghost function Pipeline(): seq<Rkm>
      reads `msgq, `xmit, `inflight, `retrying, `acked
    {
      acked + (Flat(inflight) + (Flat(retrying) + Waiting()))
    }

    /** With distinct messages and no empty request, the pipeline has the order of production. */
    ghost predicate Ordered()
      reads `msgq, `xmit, `inflight, `retrying, `acked, `produced
    {
      Splice.Distinct(produced) && AllFull(inflight) && AllFull(retrying) && InOrder(produced, Pipeline())
    }

    lemma OrderedIs()
      ensures Ordered() <==> Splice.Distinct(produced) && AllFull(inflight) && AllFull(retrying)
                             && InOrder(produced, acked + (Flat(inflight) + (Flat(retrying) + (xmit + msgq))))
    {
    }

    lemma PipelineProduced()
      requires Valid()
      ensures forall k :: 0 <= k < |Pipeline()| ==> Pipeline()[k] in produced
    {
      hide Flat, Messages, AllOk;
      var x, y := Flat(inflight), Flat(retrying) + Waiting();
      forall k | |acked| <= k < |Pipeline()|
        ensures Pipeline()[k] in produced
      {
        var m := Pipeline()[k];
        assert m == (x + y)[k - |acked|];
        assert m in multiset(x + y);
        Joined(x, y);
        Joined(Flat(retrying), Waiting());
        Joined(xmit, msgq);
        assert m in Everywhere();
        assert m in multiset(produced);
      }
    }

    constructor (conf: Config, compress: seq<byte> -> Option<seq<byte>>, reporting: bool, errorsOnly: bool,
                 offsetReport: bool, bufferingMax: nat)
      requires conf.batchNum > 0 && forall s :: compress(s).Some? ==> |compress(s).value| < INT32_MAX
      ensures Valid() && msgq == [] && xmit == [] && inflight == [] && retrying == [] && reports == [] && disposed == []
      ensures produced == [] && acked == [] && Ordered()
      ensures this.conf == conf && this.compress == compress && this.bufferingMax == bufferingMax && lastXmit == 0
      ensures this.reporting == reporting && this.errorsOnly == errorsOnly && this.offsetReport == offsetReport
    {
      this.conf, this.compress, this.bufferingMax := conf, compress, bufferingMax;
      this.reporting, this.errorsOnly, this.offsetReport := reporting, errorsOnly, offsetReport;
      msgq, xmit, inflight, retrying, reports, disposed, lastXmit := [], [], [], [], [], [], 0;
      produced, acked := [], [];
    }

    method Enqueue(m: Rkm)
      requires Valid() && m.Ok()
      modifies `msgq, `produced
      ensures Valid() && produced == old(produced) + [m] && Waiting() == old(Waiting()) + [m]
      ensures old(Ordered()) && m !in old(produced) ==> Ordered()
    {
      hide Flat, Messages, Total, InOrder, Earlier;
      PipelineProduced();
      if Ordered() {
        OneMore(produced, Pipeline(), m);
        assert Pipeline() + [m] == acked + (Flat(inflight) + (Flat(retrying) + (xmit + (msgq + [m]))));
      }
      Joined(msgq, [m]);
      OkJoined(msgq, [m]);
      Added(multiset([m]));
      msgq := msgq + [m];
      produced := produced + [m];
    }

    lemma Added(x: multiset<Rkm>)
      ensures var a, b, c, d, e, f := multiset(msgq), multiset(xmit), multiset(Flat(inflight)), multiset(Flat(retrying)),
                                      multiset(Messages(reports)), multiset(disposed);
        && Total(a + x, b, c, d, e, f) == Everywhere() + x == Total(a, b + x, c, d, e, f)
        && Total(a, b, c + x, d, e, f) == Everywhere() + x == Total(a, b, c, d + x, e, f)
        && Total(a, b, c, d, e + x, f) == Everywhere() + x == Total(a, b, c, d, e, f + x)
    {
      hide Flat, Messages, Total;
      TotalAdd(multiset(msgq), multiset(xmit), multiset(Flat(inflight)), multiset(Flat(retrying)),
               multiset(Messages(reports)), multiset(disposed), x);
    }

    /** rd_kafka_dr_msgq: to the application, or away; `held` are messages in nobody's queue. */
    method DrMsgq(batch: seq<Rkm>, failed: bool, offsets: seq<Option<int>>)
      requires |offsets| == |batch|
      modifies `reports, `disposed
      ensures Everywhere() == old(Everywhere()) + multiset(batch)
      ensures var told := reporting && (!errorsOnly || failed);
        && reports == old(reports)
             + (if told then seq(|batch|, i requires 0 <= i < |batch| => Report(batch[i], failed, offsets[i])) else [])
        && disposed == old(disposed) + if told then [] else batch
    {
      hide Flat, Total;
      Added(multiset(batch));
      if reporting && (!errorsOnly || failed) {
        var more := seq(|batch|, i requires 0 <= i < |batch| => Report(batch[i], failed, offsets[i]));
        assert Messages(reports + more) == Messages(reports) + batch;
        Joined(Messages(reports), batch);
        reports := reports + more;
      } else {
        Joined(disposed, batch);
        disposed := disposed + batch;
      }
      assert reports + [] == reports && disposed + [] == disposed;
    }

    ghost predicate Orderly()
      reads `msgq, `xmit, `inflight, `retrying
    {
      && AllOk(msgq) && AllOk(xmit) && AllOk(Flat(inflight)) && AllOk(Flat(retrying)) && conf.batchNum > 0
      && forall s :: compress(s).Some? ==> |compress(s).value| < INT32_MAX
    }

    /** rd_kafka_msgq_concat of the partition queue onto the transmit queue. */
    method TakeOver()
      requires Orderly()
      modifies `msgq, `xmit
      ensures Orderly() && msgq == [] && xmit == old(Waiting()) && Everywhere() == old(Everywhere())
    {
      hide Flat, Messages, Total;
      OkJoined(xmit, msgq);
      Joined(xmit, msgq);
      ghost var m := multiset(msgq);
      xmit, msgq := xmit + msgq, [];
      ghost var x := multiset(old(xmit));
      TotalAdd(multiset{}, x, multiset(Flat(inflight)), multiset(Flat(retrying)), multiset(Messages(reports)),
               multiset(disposed), m);
      assert multiset{} + m == m;
    }

    /** rd_kafka_msgq_age_scan of the transmit queue, and the reports it leads to. */
    method AgeScan(now: int) returns (k: nat)
      requires Orderly()
      modifies `xmit, `reports, `disposed
      ensures k == Expired(old(xmit), now) && xmit == old(xmit)[k..]
      ensures Orderly() && Everywhere() == old(Everywhere())
    {
      hide Flat, Messages, Total, Expired;
      k := 0;
      while k < |xmit| && xmit[k].deadline <= now
        invariant k <= |xmit| && forall i :: 0 <= i < k ==> xmit[i].deadline <= now
      {
        k := k + 1;
      }
      ExpiredIs(xmit, now, k);
      var timedout := xmit[..k];
      assert xmit == timedout + xmit[k..];
      OkJoined(timedout, xmit[k..]);
      Joined(timedout, xmit[k..]);
      xmit := xmit[k..];
      Added(multiset(timedout));
      DrMsgq(timedout, true, seq(k, _ => None));
    }

    /** One round of the sending loop: a batch from the front becomes a request. */
    method SendBatch() returns (n: nat)
      requires Orderly() && xmit != []
      modifies `xmit, `inflight
      ensures Orderly() && Everywhere() == old(Everywhere()) && n <= |old(xmit)|
      ensures Greedy(old(xmit), Msgcnt(|old(xmit)|, conf.batchNum), conf.maxMsgSize, n) && xmit == old(xmit)[n..]
      ensures inflight == old(inflight) + if n == 0 then [] else [old(xmit)[..n]]
    {
      hide *;
      IsOrderly();
      var b;
      n, b := ProduceToppar(xmit, conf, compress);
      assert xmit[0..] == xmit && inflight + [] == inflight;
      if b != null {
        Launch(n);
      }
    }

    lemma IsOrderly()
      requires Orderly()
      ensures AllOk(msgq) && AllOk(xmit) && AllOk(Flat(inflight)) && AllOk(Flat(retrying)) && conf.batchNum > 0
      ensures forall s :: compress(s).Some? ==> |compress(s).value| < INT32_MAX
    {
    }

    method Launch(n: nat)
      requires Orderly() && n <= |xmit|
      modifies `xmit, `inflight
      ensures Orderly() && Everywhere() == old(Everywhere())
      ensures xmit == old(xmit)[n..] && inflight == old(inflight) + [old(xmit)[..n]]
    {
      hide Flat, Messages, Total, AllOk;
      var batch := xmit[..n];
      assert xmit == batch + xmit[n..];
      OkJoined(batch, xmit[n..]);
      Joined(batch, xmit[n..]);
      FlatPush(inflight, batch);
      Joined(Flat(inflight), batch);
      OkJoined(Flat(inflight), batch);
      xmit := xmit[n..];
      Added(multiset(batch));
      inflight := inflight + [batch];
    }

    /**
     rd_kafka_toppar_producer_serve. Whatever is not timed out keeps its order: the new requests
     and what is left over are the old queue, cut into batches. The loop ends with an empty
     queue or at a message that does not fit even an empty request.
     */
    method Serve(timeoutScan: bool, now: int) returns (cnt: nat, ghost k: nat, ghost batches: seq<seq<Rkm>>)
      requires Valid()
      modifies `msgq, `xmit, `inflight, `reports, `disposed, `lastXmit
      ensures Valid() && msgq == [] && k == if timeoutScan then Expired(old(Waiting()), now) else 0
      ensures k <= |old(Waiting())| && Flat(batches) + xmit == old(Waiting())[k..] && cnt == |Flat(batches)|
      ensures inflight == old(inflight) + batches && forall i :: 0 <= i < |batches| ==> batches[i] != []
      ensures k <= |old(Waiting())| && var waiting := old(Waiting())[k..];
        var waits := waiting == [] || (old(lastXmit) + bufferingMax > now && |waiting| < conf.batchNum);
        && (waits ==> batches == [] && lastXmit == old(lastXmit))
        && (!waits ==> (xmit == [] || xmit[0].len > conf.maxMsgSize) && lastXmit == now)
      ensures old(Ordered()) ==> (Ordered() <==> retrying == [] || batches == [])
    {
      hide *;
      ValidParts();
      OrderedIs();
      ghost var ordered, flying, queue := Ordered(), inflight, xmit + msgq;
      WaitingIs();
      cnt, k, batches := 0, 0, [];
      TakeOver();
      if timeoutScan {
        k := AgeScan(now);
      }
      ServeStart(xmit);
      if xmit == [] || (lastXmit + bufferingMax > now && |xmit| < conf.batchNum) {
        ValidAgain();
        if ordered {
          ServedInOrder(flying, queue, k, batches);
        }
        return;
      }
      lastXmit := now;
      cnt, batches := SendWaiting();
      ValidAgain();
      if ordered {
        ServedInOrder(flying, queue, k, batches);
      }
    }

    /** The sending loop: the transmit queue is cut into requests. */
    method SendWaiting() returns (cnt: nat, ghost batches: seq<seq<Rkm>>)
      requires Orderly()
      modifies `xmit, `inflight
      ensures Orderly() && Everywhere() == old(Everywhere())
      ensures Flat(batches) + xmit == old(xmit) && cnt == |Flat(batches)| && inflight == old(inflight) + batches
      ensures forall i :: 0 <= i < |batches| ==> batches[i] != []
      ensures xmit == [] || xmit[0].len > conf.maxMsgSize
    {
      hide *;
      cnt, batches := 0, [];
      ghost var waiting := xmit;
      ServeStart(waiting);
      while xmit != []
        invariant Orderly() && Everywhere() == old(Everywhere())
        invariant Flat(batches) + xmit == waiting && cnt == |Flat(batches)| && inflight == old(inflight) + batches
        invariant forall i :: 0 <= i < |batches| ==> batches[i] != []
        decreases |xmit|
      {
        ghost var before, sent := xmit, inflight;
        var r := SendBatch();
        if r == 0 {
          TooLarge(before);
          break;
        }
        ServeNext(batches, before, r, waiting, sent, old(inflight));
        cnt := cnt + r;
        batches := batches + [before[..r]];
      }
    }

    lemma ValidParts()
      requires Valid()
      ensures Orderly() && Everywhere() == multiset(produced) && forall k :: 0 <= k < |acked| ==> acked[k] in produced
    {
      hide Flat, Messages, Total;
    }

    lemma ValidAgain()
      requires Orderly() && Everywhere() == multiset(produced) && forall k :: 0 <= k < |acked| ==> acked[k] in produced
      ensures Valid()
    {
      hide Flat, Messages, Total;
    }

    lemma WaitingIs()
      ensures Waiting() == xmit + msgq
    {
    }

    /** New requests are sent before what waits for its retry. */
    lemma ServedInOrder(flying: seq<seq<Rkm>>, queue: seq<Rkm>, k: nat, batches: seq<seq<Rkm>>)
      requires Splice.Distinct(produced) && AllFull(flying) && AllFull(retrying)
      requires InOrder(produced, acked + (Flat(flying) + (Flat(retrying) + queue)))
      requires k <= |queue| && Flat(batches) + xmit == queue[k..] && msgq == [] && inflight == flying + batches
      requires forall i :: 0 <= i < |batches| ==> batches[i] != []
      ensures Ordered() <==> retrying == [] || batches == []
    {
      hide *;
      var f, r, b := Flat(flying), Flat(retrying), Flat(batches);
      FlatConcat(flying, batches);
      FlatFull(retrying);
      FullIs(batches);
      FlatFull(batches);
      FullConcat(flying, batches);
      OrderOfSending(produced, acked, f, r, b, queue, k, xmit);
      OrderedIs();
      assert xmit + [] == xmit;
    }

    lemma ServeStart(waiting: seq<Rkm>)
      ensures Flat([]) + waiting == waiting && |Flat([])| == 0 && inflight + [] == inflight
    {
    }

    /** Nothing was taken: the first message alone is over the limit. */
    lemma TooLarge(before: seq<Rkm>)
      requires Orderly() && before != [] && Greedy(before, Msgcnt(|before|, conf.batchNum), conf.maxMsgSize, 0)
      ensures before[0..] == before && before[0].len > conf.maxMsgSize
    {
      assert before[..0] == [];
    }

    lemma ServeNext(batches: seq<seq<Rkm>>, before: seq<Rkm>, r: nat, waiting: seq<Rkm>, flying: seq<seq<Rkm>>,
                    was: seq<seq<Rkm>>)
      requires r <= |before| && Flat(batches) + before == waiting && flying == was + batches
      ensures Flat(batches + [before[..r]]) + before[r..] == waiting
      ensures |Flat(batches + [before[..r]])| == |Flat(batches)| + r
      ensures flying + [before[..r]] == was + (batches + [before[..r]])
    {
      FlatPush(batches, before[..r]);
    }

    /** A request no longer in flight; its messages are in nobody's queue. */
    method Land(i: nat) returns (batch: seq<Rkm>)
      requires Orderly() && i < |inflight|
      modifies `inflight
      ensures Orderly() && batch == old(inflight)[i] && inflight == old(inflight)[..i] + old(inflight)[i + 1..]
      ensures Everywhere() + multiset(batch) == old(Everywhere()) && AllOk(batch)
    {
      hide Flat, Messages, Total, AllOk;
      batch := inflight[i];
      FlatAround(inflight, i);
      ghost var x, y := Flat(inflight[..i]), Flat(inflight[i + 1..]);
      OkJoined(x + batch, y);
      OkJoined(x, batch);
      OkJoined(x, y);
      Joined(x + batch, y);
      Joined(x, batch);
      Joined(x, y);
      assert multiset(Flat(inflight)) == multiset(x + y) + multiset(batch);
      inflight := inflight[..i] + inflight[i + 1..];
      Added(multiset(batch));
    }

    /** rd_kafka_toppar_insert_msgq: in front of the partition queue. */
    method InsertFront(batch: seq<Rkm>)
      requires Orderly() && AllOk(batch)
      modifies `msgq
      ensures Orderly() && msgq == batch + old(msgq) && Everywhere() == old(Everywhere()) + multiset(batch)
    {
      hide Flat, Messages, Total, AllOk;
      OkJoined(batch, msgq);
      Joined(msgq, batch);
      Added(multiset(batch));
      msgq := batch + msgq;
    }

    /** The offsets rd_kafka_produce_msgset_reply gives the messages of a batch. */
    function Offsets(n: nat, offset: Option<int>): (o: seq<Option<int>>)
      ensures |o| == n
    {
      if offset.None? then seq(n, _ => None)
      else if offsetReport then seq(n, i => Some(offset.value + i))
      else seq(n, i => if i == n - 1 then Some(offset.value + n) else None)
    }

    ghost function Reports(batch: seq<Rkm>, failed: bool, offset: Option<int>): seq<Report> {
      seq(|batch|, j requires 0 <= j < |batch| => Report(batch[j], failed, Offsets(|batch|, offset)[j]))
    }

    /**
     With produce.offset.report the j-th message is told the offset of the first plus j; without
     it only the last is told one, and it is the offset behind it.
     */
    lemma ReportsAre(batch: seq<Rkm>, failed: bool, offset: Option<int>)
      ensures |Reports(batch, failed, offset)| == |batch|
      ensures forall j :: 0 <= j < |batch| ==>
        Reports(batch, failed, offset)[j] ==
          Report(batch[j], failed,
                 if offset.None? then None
                 else if offsetReport then Some(offset.value + j)
                 else if j == |batch| - 1 then Some(offset.value + |batch|) else None)
    {
      var n := |batch|;
      assert forall j :: 0 <= j < n ==>
        Offsets(n, offset)[j] == if offset.None? then None else if offsetReport then Some(offset.value + j)
                                 else if j == n - 1 then Some(offset.value + n) else None;
    }

    /** Each message of an answered or given up request is reported, with its offset, or disposed of. */
    method Conclude(batch: seq<Rkm>, failed: bool, offset: Option<int>)
      modifies `reports, `disposed
      ensures Everywhere() == old(Everywhere()) + multiset(batch)
      ensures var told := reporting && (!errorsOnly || failed);
        && reports == old(reports) + (if told then Reports(batch, failed, offset) else [])
        && disposed == old(disposed) + if told then [] else batch
    {
      hide Flat, Messages, Total, Offsets;
      var offsets := Offsets(|batch|, offset);
      assert Reports(batch, failed, offset)
          == seq(|batch|, i requires 0 <= i < |batch| => Report(batch[i], failed, offsets[i]));
      DrMsgq(batch, failed, offsets);
    }

    /** rd_kafka_broker_buf_retry: to the tail of the retry queue. */
    method Park(batch: seq<Rkm>)
      requires Orderly() && AllOk(batch)
      modifies `retrying
      ensures Orderly() && retrying == old(retrying) + [batch] && Everywhere() == old(Everywhere()) + multiset(batch)
    {
      hide Flat, Messages, Total, AllOk;
      FlatPush(retrying, batch);
      Joined(Flat(retrying), batch);
      OkJoined(Flat(retrying), batch);
      Added(multiset(batch));
      retrying := retrying + [batch];
    }

    /**
     rd_kafka_produce_msgset_reply for the i-th request in flight. `retried` says that
     rd_kafka_buf_retry has granted another try. The order of production is kept by an answer to
     the oldest request, by a retry of the newest one when no other waits for its retry, by
     putting back the newest one when moreover the transmit queue is empty, and by giving up.
     */
    method Reply(i: nat, err: ProduceError, retried: bool, offset: Option<int>)
      requires Valid() && i < |inflight|
      modifies `msgq, `inflight, `retrying, `reports, `disposed, `acked
      ensures Valid() && xmit == old(xmit) && inflight == old(inflight)[..i] + old(inflight)[i + 1..]
      ensures var batch := old(inflight)[i];
        var done := !(err != NoError && retried);
        var told := done && err != LeaderGone && reporting && (!errorsOnly || err != NoError);
        && retrying == (if done then old(retrying) else old(retrying) + [batch])
        && msgq == (if done && err == LeaderGone then batch + old(msgq) else old(msgq))
        && |reports| == |old(reports)| + (if told then |batch| else 0) && old(reports) <= reports
        && (told ==>
              forall j :: 0 <= j < |batch| ==>
                reports[|old(reports)| + j] ==
                  Report(batch[j], err != NoError,
                         if offset.None? then None
                         else if offsetReport then Some(offset.value + j)
                         else if j == |batch| - 1 then Some(offset.value + |batch|) else None))
        && disposed == old(disposed) + (if done && err != LeaderGone && !told then batch else [])
        && acked == old(acked) + if err == NoError then batch else []
      ensures old(Ordered()) ==>
        var newest := i == |old(inflight)| - 1 && old(retrying) == [];
        (Ordered() <==> if err == NoError then i == 0
                        else if retried then newest
                        else if err == LeaderGone then newest && old(xmit) == []
                        else true)
      ensures InOrder(produced, old(Waiting())) ==>
        var batch := old(inflight)[i];
        (InOrder(produced, Waiting()) <==>
           !(err == LeaderGone && !retried)
           || (&& InOrder(produced, batch)
               && Precedes(produced, old(xmit), batch) && Precedes(produced, batch, old(msgq))))
    {
      hide *;
      WaitingIs();
      OrderedIs();
      if Ordered() {
        OrderOfReply(i);
      }
      if InOrder(produced, xmit + msgq) {
        PutInBetween(produced, xmit, inflight[i], msgq);
      }
      assert acked + [] == acked;
      FlatPush(retrying, inflight[i]);
      FullPush(retrying, inflight[i]);
      ReportsAre(inflight[i], err != NoError, offset);
      Settle(i, err, retried, offset);
      WaitingIs();
      OrderedIs();
    }

    /** Where its messages go. */
    method Settle(i: nat, err: ProduceError, retried: bool, offset: Option<int>)
      requires Valid() && i < |inflight|
      modifies `msgq, `inflight, `retrying, `reports, `disposed, `acked
      ensures Valid() && inflight == old(inflight)[..i] + old(inflight)[i + 1..]
      ensures var batch := old(inflight)[i];
        var done := !(err != NoError && retried);
        var told := done && err != LeaderGone && reporting && (!errorsOnly || err != NoError);
        && retrying == (if done then old(retrying) else old(retrying) + [batch])
        && msgq == (if done && err == LeaderGone then batch + old(msgq) else old(msgq))
        && reports == old(reports) + (if told then Reports(batch, err != NoError, offset) else [])
        && disposed == old(disposed) + (if done && err != LeaderGone && !told then batch else [])
        && acked == old(acked) + if err == NoError then batch else []
    {
      hide *;
      ValidParts();
      BatchProduced(i);
      var batch := Land(i);
      Place(batch, err, retried, offset);
      if err == NoError {
        acked := acked + batch;
      } else {
        assert acked + [] == acked;
      }
      ValidAgain();
    }

    /** Back to a queue, or to the application. */
    method Place(batch: seq<Rkm>, err: ProduceError, retried: bool, offset: Option<int>)
      requires Orderly() && AllOk(batch)
      modifies `msgq, `retrying, `reports, `disposed
      ensures Orderly() && Everywhere() == old(Everywhere()) + multiset(batch)
      ensures var done := !(err != NoError && retried);
        var told := done && err != LeaderGone && reporting && (!errorsOnly || err != NoError);
        && retrying == (if done then old(retrying) else old(retrying) + [batch])
        && msgq == (if done && err == LeaderGone then batch + old(msgq) else old(msgq))
        && reports == old(reports) + (if told then Reports(batch, err != NoError, offset) else [])
        && disposed == old(disposed) + if done && err != LeaderGone && !told then batch else []
    {
      hide *;
      assert reports + [] == reports && disposed + [] == disposed;
      if err != NoError && retried {
        Park(batch);
      } else if err == LeaderGone {
        InsertFront(batch);
      } else {
        Conclude(batch, err != NoError, offset);
      }
    }

    lemma BatchProduced(i: nat)
      requires Orderly() && Everywhere() == multiset(produced) && i < |inflight|
      ensures forall k :: 0 <= k < |inflight[i]| ==> inflight[i][k] in produced
    {
      hide Flat, Messages, AllOk;
      FlatAround(inflight, i);
      var x, b, y := Flat(inflight[..i]), inflight[i], Flat(inflight[i + 1..]);
      forall k | 0 <= k < |b|
        ensures b[k] in produced
      {
        assert b[k] in multiset(b);
        Joined(x + b, y);
        Joined(x, b);
        assert b[k] in Everywhere();
        assert b[k] in multiset(produced);
      }
    }

    /** What becomes of the order when the i-th request is answered, given up, retried or put back. */
    lemma OrderOfReply(i: nat)
      requires i < |inflight| && Ordered()
      ensures var batch, others := inflight[i], inflight[..i] + inflight[i + 1..];
        var f, r := Flat(others), Flat(retrying);
        && Splice.Distinct(produced) && AllFull(others) && AllFull(retrying) && batch != []
        && InOrder(produced, acked + (f + (r + (xmit + msgq))))
        && (InOrder(produced, acked + batch + (f + (r + (xmit + msgq)))) <==> i == 0)
        && (InOrder(produced, acked + (f + (r + batch + (xmit + msgq)))) <==> i == |inflight| - 1 && retrying == [])
        && (InOrder(produced, acked + (f + (r + (xmit + (batch + msgq))))) <==>
              i == |inflight| - 1 && retrying == [] && xmit == [])
    {
      hide Flat, InOrder, Earlier, Splice.Distinct;
      FlatAround(inflight, i);
      FlatFull(inflight[..i]);
      FlatFull(inflight[i + 1..]);
      FlatFull(retrying);
      var b, x, y, r, w := inflight[i], Flat(inflight[..i]), Flat(inflight[i + 1..]), Flat(retrying), xmit + msgq;
      OrderOfPieces(produced, acked, x, b, y, r, xmit, msgq);
    }

    /**
     The broker fails and every request has tries left: all are retried, oldest first. Together
     they keep their order, unless they line up behind others that wait already.
     */
    method RetryAll()
      requires Valid()
      modifies `inflight, `retrying
      ensures Valid() && inflight == [] && retrying == old(retrying) + old(inflight)
      ensures old(Ordered()) ==> (Ordered() <==> old(retrying) == [] || old(inflight) == [])
    {
      hide *;
      OrderedIs();
      if Ordered() {
        OrderOfRetryAll();
      }
      while inflight != []
        invariant Valid() && retrying + inflight == old(retrying) + old(inflight)
        decreases |inflight|
      {
        RetryFirst();
      }
      assert retrying + [] == retrying;
      OrderedIs();
    }

    method RetryFirst()
      requires Valid() && inflight != []
      modifies `inflight, `retrying
      ensures Valid() && |inflight| == |old(inflight)| - 1 && retrying + inflight == old(retrying) + old(inflight)
    {
      hide *;
      ValidParts();
      var first := Land(0);
      Park(first);
      ValidAgain();
    }

    lemma OrderOfRetryAll()
      requires Ordered()
      ensures AllFull([]) && AllFull(retrying + inflight) && Splice.Distinct(produced)
      ensures InOrder(produced, acked + (Flat([]) + (Flat(retrying + inflight) + (xmit + msgq))))
        <==> retrying == [] || inflight == []
    {
      hide Flat, InOrder, Earlier, Splice.Distinct;
      FlatConcat(retrying, inflight);
      FullConcat(retrying, inflight);
      FlatFull(retrying);
      FlatFull(inflight);
      FlatFull([]);
      var f, r, w := Flat(inflight), Flat(retrying), xmit + msgq;
      assert acked + ([] + (r + f + w)) == acked + (r + (f + w));
      Swapped(produced, acked, f, r, w);
    }

    /** rd_kafka_broker_retry_bufs_move, for the oldest request of the partition: to the tail of what is sent. */
    method Resend()
      requires Valid() && retrying != []
      modifies `inflight, `retrying
      ensures Valid() && inflight == old(inflight) + [old(retrying)[0]] && retrying == old(retrying)[1..]
      ensures Pipeline() == old(Pipeline()) && (Ordered() <==> old(Ordered()))
    {
      hide *;
      ValidParts();
      OrderedIs();
      WaitingIs();
      ghost var before := Pipeline();
      PipelineIs();
      FirstOut(inflight, retrying, Waiting());
      var batch := Unpark();
      Relaunch(batch);
      ValidAgain();
      OrderedIs();
      WaitingIs();
      PipelineIs();
    }

    lemma PipelineIs()
      ensures Pipeline() == acked + (Flat(inflight) + (Flat(retrying) + Waiting()))
    {
    }

    method Unpark() returns (batch: seq<Rkm>)
      requires Orderly() && retrying != []
      modifies `retrying
      ensures Orderly() && batch == old(retrying)[0] && retrying == old(retrying)[1..]
      ensures Everywhere() + multiset(batch) == old(Everywhere()) && AllOk(batch)
    {
      hide Flat, Messages, Total, AllOk;
      batch := retrying[0];
      FlatHead(retrying);
      ghost var rest := Flat(retrying[1..]);
      OkJoined(batch, rest);
      Joined(batch, rest);
      retrying := retrying[1..];
      Added(multiset(batch));
    }

    method Relaunch(batch: seq<Rkm>)
      requires Orderly() && AllOk(batch)
      modifies `inflight
      ensures Orderly() && inflight == old(inflight) + [batch] && Everywhere() == old(Everywhere()) + multiset(batch)
    {
      hide Flat, Messages, Total, AllOk;
      FlatPush(inflight, batch);
      Joined(Flat(inflight), batch);
      OkJoined(Flat(inflight), batch);
      Added(multiset(batch));
      inflight := inflight + [batch];
    }

    /** With distinct messages, each is in exactly one place, and reported or disposed of at most once. */
    lemma OnePlace(m: Rkm)
      requires Valid() && multiset(produced)[m] == 1
      ensures multiset(msgq)[m] + multiset(xmit)[m] + multiset(Flat(inflight))[m] + multiset(Flat(retrying))[m]
              + multiset(Messages(reports))[m] + multiset(disposed)[m] == 1
    {
      hide Flat, Messages;
      assert Everywhere()[m] == 1;
    }
  }

  lemma FullIs(batches: seq<seq<Rkm>>)
    ensures AllFull(batches) <==> forall i :: 0 <= i < |batches| ==> batches[i] != []
  {
  }

  lemma FullConcat(a: seq<seq<Rkm>>, b: seq<seq<Rkm>>)
    requires AllFull(a) && AllFull(b)
    ensures AllFull(a + b)
  {
  }

  /** `f` is in flight and `r` waits for its retry; of `queue`, `k` messages time out and `b` are sent. */
  lemma OrderOfSending(p: seq<Rkm>, h: seq<Rkm>, f: seq<Rkm>, r: seq<Rkm>, b: seq<Rkm>, queue: seq<Rkm>, k: nat,
                       rest: seq<Rkm>)
    requires Splice.Distinct(p) && InOrder(p, h + (f + (r + queue))) && k <= |queue| && b + rest == queue[k..]
    ensures InOrder(p, h + (f + b + (r + rest))) <==> r == [] || b == []
  {
    hide *;
    assert queue == queue[..k] + queue[k..];
    assert h + (f + (r + queue)) == h + f + r + (queue[..k] + queue[k..]);
    TakenOut(p, h + f + r, queue[..k], queue[k..]);
    assert h + f + r + (b + rest) == h + f + (r + (b + rest));
    assert h + (f + b + (r + rest)) == h + f + (b + (r + rest));
    Swapped(p, h + f, r, b, rest);
  }

  /** `x`, `b` and `y` are in flight, `r` waits for its retry, `t` and `q` have not been sent. */
  lemma OrderOfPieces(p: seq<Rkm>, h: seq<Rkm>, x: seq<Rkm>, b: seq<Rkm>, y: seq<Rkm>, r: seq<Rkm>, t: seq<Rkm>,
                      q: seq<Rkm>)
    requires Splice.Distinct(p) && b != [] && InOrder(p, h + (x + b + y + (r + (t + q))))
    ensures InOrder(p, h + (x + y + (r + (t + q))))
    ensures InOrder(p, h + b + (x + y + (r + (t + q)))) <==> x == []
    ensures InOrder(p, h + (x + y + (r + b + (t + q)))) <==> y == [] && r == []
    ensures InOrder(p, h + (x + y + (r + (t + (b + q))))) <==> y == [] && r == [] && t == []
  {
    hide *;
    var rest := y + (r + (t + q));
    assert h + (x + b + y + (r + (t + q))) == h + (x + (b + rest)) == h + x + (b + rest);
    assert h + (x + y + (r + (t + q))) == h + x + rest;
    TakenOut(p, h + x, b, rest);
    assert h + b + (x + y + (r + (t + q))) == h + (b + (x + rest));
    PutBefore(p, h, x, b, rest);
    assert h + x + (b + rest) == h + x + (b + (y + r + (t + q)));
    assert h + (x + y + (r + b + (t + q))) == h + x + (y + r + (b + (t + q)));
    PutBehind(p, h + x, b, y + r, t + q);
    assert h + x + (b + rest) == h + x + (b + (y + r + t + q));
    assert h + (x + y + (r + (t + (b + q)))) == h + x + (y + r + t + (b + q));
    PutBehind(p, h + x, b, y + r + t, q);
    assert y + r == [] <==> y == [] && r == [];
    assert y + r + t == [] <==> y == [] && r == [] && t == [];
  }

  lemma FullPush(batches: seq<seq<Rkm>>, batch: seq<Rkm>)
    ensures AllFull(batches + [batch]) <==> AllFull(batches) && batch != []
  {
    assert AllFull(batches + [batch]) ==> forall i :: 0 <= i < |batches| ==> (batches + [batch])[i] == batches[i];
    assert (batches + [batch])[|batches|] == batch;
  }

  /** Moving the first of one list to the end of another keeps the messages of both in place. */
  lemma FirstOut(a: seq<seq<Rkm>>, b: seq<seq<Rkm>>, w: seq<Rkm>)
    requires b != []
    ensures Flat(a + [b[0]]) == Flat(a) + b[0] && Flat(b) == b[0] + Flat(b[1..])
    ensures Flat(a + [b[0]]) + (Flat(b[1..]) + w) == Flat(a) + (Flat(b) + w)
    ensures AllFull(a + [b[0]]) && AllFull(b[1..]) <==> AllFull(a) && AllFull(b)
  {
    hide *;
    FlatPush(a, b[0]);
    FlatHead(b);
    FullPush(a, b[0]);
    FullTail(b);
    Regrouped(Flat(a), b[0], Flat(b[1..]), w);
  }

  lemma Regrouped(x: seq<Rkm>, y: seq<Rkm>, z: seq<Rkm>, w: seq<Rkm>)
    ensures (x + y) + (z + w) == x + ((y + z) + w)
  {
  }

  lemma FlatHead(b: seq<seq<Rkm>>)
    requires b != []
    ensures Flat(b) == b[0] + Flat(b[1..])
  {
    hide *;
    FlatOne(b[0]);
    FlatConcat([b[0]], b[1..]);
    assert b == [b[0]] + b[1..];
  }

  lemma FullTail(b: seq<seq<Rkm>>)
    requires b != []
    ensures AllFull(b) <==> b[0] != [] && AllFull(b[1..])
  {
    assert forall i :: 0 <= i < |b[1..]| ==> b[1..][i] == b[i + 1];
  }

  lemma FlatOne(batch: seq<Rkm>)
    ensures Flat([batch]) == batch
  {
    assert [] + [batch] == [batch];
    FlatPush([], batch);
  }

  lemma {:induction false} ExpiredIs(ms: seq<Rkm>, now: int, k: nat)
    requires k <= |ms| && (forall i :: 0 <= i < k ==> ms[i].deadline <= now) && (k < |ms| ==> ms[k].deadline > now)
    ensures k == Expired(ms, now)
  {
    if k > 0 {
      ExpiredIs(ms[1..], now, k - 1);
    }
  }

  lemma InOnePart(x: seq<Rkm>, y: seq<Rkm>, m: Rkm)
    requires x + y == [m]
    ensures (x == [m] && y == []) || (x == [] && y == [m])
  {
    assert x == [] ==> x + y == y;
    assert y == [] ==> x + y == x;
    assert |x + y| == 1;
  }

  /** The one message waiting makes one request. */
  lemma OneBatch(batches: seq<seq<Rkm>>, left: seq<Rkm>, m: Rkm, most: nat)
    requires Flat(batches) + left == [m] && forall i :: 0 <= i < |batches| ==> batches[i] != []
    requires m.len <= most && (left == [] || left[0].len > most)
    ensures batches == [[m]] && left == []
  {
    InOnePart(Flat(batches), left, m);
    var n := |batches| - 1;
    assert Flat(batches) == Flat(batches[..n]) + batches[n];
    FlatFull(batches[..n]);
  }

  lemma OutOfOrder(a: Rkm, b: Rkm, t: Toppar)
    requires a != b && t.produced == [a, b] && t.inflight == t.retrying == [] && t.acked + t.Waiting() == [b, a]
    ensures !t.Ordered()
  {
    assert t.Pipeline() == [b, a];
    assert !Earlier([a, b], [b, a][0], [b, a][1]);
  }

  lemma WaitingOf(t: Toppar)
    ensures t.Waiting() == t.xmit + t.msgq
  {
  }

  /**
   Order is lost even though the transmit queue is empty all the time: two requests are in
   flight when the leader changes, and the messages of the second one are put in front of
   those of the first.
   */
  method PutBackOldestFirst(a: Rkm, b: Rkm, conf: Config, compress: seq<byte> -> Option<seq<byte>>) returns (t: Toppar)
    requires a.Ok() && b.Ok() && a != b && a.len <= conf.maxMsgSize && b.len <= conf.maxMsgSize
    requires conf.batchNum > 0 && forall s :: compress(s).Some? ==> |compress(s).value| < INT32_MAX
    ensures t.Valid() && t.produced == [a, b] && t.inflight == [] && t.xmit == [] && t.msgq == [b, a]
    ensures t.acked == [] && !t.Ordered()
  {
    hide *;
    t := TwoRequests(a, b, conf, compress);
    t.Reply(0, LeaderGone, false, None);
    assert t.inflight == [[b]] && t.msgq == [a];
    t.Reply(0, LeaderGone, false, None);
    assert t.msgq == [b, a];
    WaitingOf(t);
    OutOfOrder(a, b, t);
  }

  /**
   The first of two requests in flight fails and is retried: it is sent again behind the second
   one, and the broker has the messages in the wrong order.
   */
  method RetriedBehind(a: Rkm, b: Rkm, conf: Config, compress: seq<byte> -> Option<seq<byte>>) returns (t: Toppar)
    requires a.Ok() && b.Ok() && a != b && a.len <= conf.maxMsgSize && b.len <= conf.maxMsgSize
    requires conf.batchNum > 0 && forall s :: compress(s).Some? ==> |compress(s).value| < INT32_MAX
    ensures t.Valid() && t.produced == [a, b] && t.inflight == t.retrying == [] && t.Waiting() == []
    ensures t.acked == [b, a] && !t.Ordered()
  {
    hide *;
    t := TwoRequests(a, b, conf, compress);
    RetryOldest(t);
    assert t.inflight == [[b]] && t.retrying == [[a]];
    t.Resend();
    assert t.inflight == [[b], [a]] && t.retrying == [];
    AnswerOldest(t);
    assert t.inflight == [[a]] && t.acked == [b];
    AnswerOldest(t);
    assert t.acked == [b, a];
    WaitingOf(t);
    OutOfOrder(a, b, t);
  }

  /** A message produced while the only request in flight waits for its retry is sent before it. */
  method Overtaken(a: Rkm, b: Rkm, conf: Config, compress: seq<byte> -> Option<seq<byte>>) returns (t: Toppar)
    requires a.Ok() && b.Ok() && a != b && a.len <= conf.maxMsgSize && b.len <= conf.maxMsgSize
    requires conf.batchNum > 0 && forall s :: compress(s).Some? ==> |compress(s).value| < INT32_MAX
    ensures t.Valid() && t.produced == [a, b] && t.inflight == [[b], [a]] && t.retrying == [] && t.Waiting() == []
    ensures !t.Ordered()
  {
    hide *;
    t := OneRequest(a, conf, compress);
    RetryOldest(t);
    WaitingOf(t);
    assert t.retrying == [[a]] && t.Waiting() == [];
    EnqueueAndSend(t, b);
    assert t.inflight == [[b]];
    t.Resend();
    WaitingOf(t);
    SentOutOfOrder(a, b, t);
  }

  method RetryOldest(t: Toppar)
    requires t.Valid() && t.inflight != []
    modifies t`msgq, t`inflight, t`retrying, t`reports, t`disposed, t`acked
    ensures t.Valid() && t.inflight == old(t.inflight)[1..] && t.retrying == old(t.retrying) + [old(t.inflight)[0]]
    ensures t.msgq == old(t.msgq) && t.acked == old(t.acked)
  {
    hide *;
    assert t.inflight[..0] + t.inflight[1..] == t.inflight[1..] && t.acked + [] == t.acked;
    t.Reply(0, Fatal, true, None);
  }

  method AnswerOldest(t: Toppar)
    requires t.Valid() && t.inflight != []
    modifies t`msgq, t`inflight, t`retrying, t`reports, t`disposed, t`acked
    ensures t.Valid() && t.inflight == old(t.inflight)[1..] && t.acked == old(t.acked) + old(t.inflight)[0]
    ensures t.msgq == old(t.msgq) && t.retrying == old(t.retrying)
  {
    hide *;
    assert t.inflight[..0] + t.inflight[1..] == t.inflight[1..];
    t.Reply(0, NoError, false, None);
  }

  method EnqueueAndSend(t: Toppar, m: Rkm)
    requires t.Valid() && t.Waiting() == [] && m.Ok() && m.len <= t.conf.maxMsgSize && t.bufferingMax == 0
    requires t.lastXmit == 0
    modifies t`produced, t`msgq, t`xmit, t`inflight, t`reports, t`disposed, t`lastXmit
    ensures t.Valid() && t.produced == old(t.produced) + [m] && t.inflight == old(t.inflight) + [[m]]
    ensures t.Waiting() == [] && t.msgq == [] && t.xmit == [] && t.lastXmit == 0
  {
    hide *;
    t.Enqueue(m);
    assert [] + [m] == [m];
    Send(t, m);
  }

  lemma SentOutOfOrder(a: Rkm, b: Rkm, t: Toppar)
    requires a != b && t.produced == [a, b] && t.inflight == [[b], [a]] && t.retrying == [] && t.acked == t.Waiting() == []
    ensures !t.Ordered()
  {
    FlatOne([b]);
    assert [[b]] + [[a]] == [[b], [a]];
    FlatPush([[b]], [a]);
    assert t.Pipeline() == [b, a];
    assert !Earlier([a, b], [b, a][0], [b, a][1]);
  }

  method TwoRequests(a: Rkm, b: Rkm, conf: Config, compress: seq<byte> -> Option<seq<byte>>) returns (t: Toppar)
    requires a.Ok() && b.Ok() && a.len <= conf.maxMsgSize && b.len <= conf.maxMsgSize
    requires conf.batchNum > 0 && forall s :: compress(s).Some? ==> |compress(s).value| < INT32_MAX
    ensures t.Valid() && t.produced == [a, b] && t.inflight == [[a], [b]] && t.xmit == [] && t.msgq == [] && fresh(t)
    ensures t.retrying == [] && t.acked == []
  {
    hide *;
    t := OneRequest(a, conf, compress);
    WaitingOf(t);
    EnqueueAndSend(t, b);
  }

  method OneRequest(m: Rkm, conf: Config, compress: seq<byte> -> Option<seq<byte>>) returns (t: Toppar)
    requires m.Ok() && m.len <= conf.maxMsgSize
    requires conf.batchNum > 0 && forall s :: compress(s).Some? ==> |compress(s).value| < INT32_MAX
    ensures t.Valid() && t.produced == [m] && t.inflight == [[m]] && t.xmit == [] && t.msgq == [] && fresh(t)
    ensures t.retrying == [] && t.acked == [] && t.conf == conf && t.bufferingMax == 0 && t.lastXmit == 0
  {
    hide *;
    t := new Toppar(conf, compress, true, false, true, 0);
    WaitingOf(t);
    EnqueueAndSend(t, m);
  }

  /** The producer is served at once when one message waits. */
  method Send(t: Toppar, m: Rkm)
    requires t.Valid() && t.Waiting() == [m] && m.len <= t.conf.maxMsgSize && t.bufferingMax == 0 && t.lastXmit == 0
    modifies t`msgq, t`xmit, t`inflight, t`reports, t`disposed, t`lastXmit
    ensures t.Valid() && t.msgq == [] && t.xmit == [] && t.inflight == old(t.inflight) + [[m]] && t.lastXmit == 0
    ensures t.Waiting() == []
  {
    hide *;
    var _, k, batches := t.Serve(false, 0);
    assert [m][0..] == [m];
    OneBatch(batches, t.xmit, m, t.conf.maxMsgSize);
    WaitingOf(t);
  }
}
