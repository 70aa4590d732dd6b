/**
 The transmit queue of a broker: rd_kafka_broker_buf_enq0, rd_kafka_send with its partial
 sends, and the timeout scan of rkb_outbufs.
 */
module Send {
  import opened Bytes
  import opened WriteBuffer
  import MsgHdr

  /** A finalized request: its memory and vectors, and how much of it was sent. */
  datatype OutBuf = OutBuf(id: nat, mem: seq<byte>, iov: seq<IoVec>, of: nat, noResponse: bool, flash: bool) {
    predicate Ok() { AllBelow(iov, |mem|) && |iov| <= IOV_MAX && of < TotalSize(iov) }

    /** The octets of the request, Size field first. */
    function Octets(): (s: seq<byte>)
      requires AllBelow(iov, |mem|)
      ensures |s| == TotalSize(iov)
    {
      Gather(mem, iov)
    }
  }

  predicate Bounded(bs: seq<OutBuf>) {
    forall i :: 0 <= i < |bs| ==> AllBelow(bs[i].iov, |bs[i].mem|)
  }

  predicate AllOk(bs: seq<OutBuf>) {
    forall i :: 0 <= i < |bs| ==> bs[i].Ok()
  }

  predicate NoneBegun(bs: seq<OutBuf>) {
    forall i :: 0 <= i < |bs| ==> bs[i].of == 0
  }

  function Flat(bs: seq<OutBuf>): seq<byte>
    requires Bounded(bs)
  {
    if bs == [] then [] else Flat(bs[..|bs| - 1]) + bs[|bs| - 1].Octets()
  }

  lemma FlatPush(bs: seq<OutBuf>, b: OutBuf)
    requires Bounded(bs) && AllBelow(b.iov, |b.mem|)
    ensures Bounded(bs + [b]) && Flat(bs + [b]) == Flat(bs) + b.Octets()
  {
    hide Gather;
    assert (bs + [b])[..|bs|] == bs;
  }

  /** The part of the first request that has been sent. */
  function Begun(bs: seq<OutBuf>): seq<byte>
    requires AllOk(bs)
  {
    if bs == [] then [] else bs[0].Octets()[..bs[0].of]
  }

  /** Index of the first request that is not a flash request, or the length. */
  function FirstOrdinary(bs: seq<OutBuf>): (k: nat)
    ensures k <= |bs|
    ensures forall i :: 0 <= i < k ==> bs[i].flash
    ensures k < |bs| ==> !bs[k].flash
  {
    if bs == [] || !bs[0].flash then 0 else 1 + FirstOrdinary(bs[1..])
  }

  /** The octets the next sendmsg offers: those not sent yet. */
  method NextOctets(b: OutBuf) returns (octets: seq<byte>)
    requires b.Ok()
    ensures b.of < |b.Octets()| && octets == b.Octets()[b.of..]
  {
    hide Gather, TotalSize, AllBelow;
    var msg := b.iov;
    if b.of != 0 {
      msg := MsgHdr.Rebuild(b.iov, b.of, IOV_MAX, b.mem);
    }
    octets := Gather(b.mem, msg);
  }

  class TransmitQueue {
    var outbufs: seq<OutBuf>
    var waitresps: seq<OutBuf>
    var finished: seq<OutBuf>   // requests without response: called back when sent
    var wire: seq<byte>         // everything the transport accepted
    ghost var sent: seq<OutBuf> // requests sent whole, in order

    ghost predicate Valid()
      reads this
    {
      AllOk(outbufs) && Bounded(sent)
    }

    /** The octets of each request are contiguous on the wire; only the first queued one has begun. */
    ghost predicate Contiguous()
      requires Valid()
      reads this
    {
      (outbufs != [] ==> NoneBegun(outbufs[1..])) && wire == Flat(sent) + Begun(outbufs)
    }

    constructor ()
      ensures Valid() && Contiguous() && outbufs == [] && wire == []
    {
      outbufs, waitresps, finished, wire, sent := [], [], [], [], [];
    }

    /**
     rd_kafka_broker_buf_enq0. The loop for the head case stops at the first request that
     is not a flash request and inserts behind it, or at the head when there is none.
     */
    method Enqueue(b: OutBuf, atHead: bool)
      requires Valid() && Contiguous() && b.Ok() && b.of == 0
      modifies this`outbufs
      ensures Valid()
      ensures var k := FirstOrdinary(old(outbufs));
        var at := if !atHead then |old(outbufs)| else if k < |old(outbufs)| then k + 1 else 0;
        outbufs == old(outbufs)[..at] + [b] + old(outbufs)[at..]
      ensures Contiguous() <==>
        !(atHead && FirstOrdinary(old(outbufs)) == |old(outbufs)| && old(outbufs) != [] && old(outbufs)[0].of > 0)
    {
      hide Flat, Gather, AllBelow, TotalSize;
      var at := |outbufs|;
      if atHead {
        var prev := 0;
        while prev < |outbufs| && outbufs[prev].flash
          invariant 0 <= prev <= |outbufs|
          invariant forall i :: 0 <= i < prev ==> outbufs[i].flash
        {
          prev := prev + 1;
        }
        FirstOrdinaryIs(outbufs, prev);
        at := if prev < |outbufs| then prev + 1 else 0;
      }
      InsertKeeps(outbufs, at, b);
      outbufs := outbufs[..at] + [b] + outbufs[at..];
    }

    /** Removing request `i` from the queue, as rd_kafka_broker_bufq_timeout_scan does. */
    method TimeOut(i: nat) returns (b: OutBuf)
      requires Valid() && Contiguous() && i < |outbufs|
      modifies this`outbufs
      ensures Valid() && b == old(outbufs)[i]
      ensures outbufs == old(outbufs)[..i] + old(outbufs)[i + 1..]
      ensures Contiguous() <==> !(i == 0 && b.of > 0)
    {
      hide Flat, Gather, AllBelow, TotalSize;
      RemoveKeeps(outbufs, i);
      b := outbufs[i];
      outbufs := outbufs[..i] + outbufs[i + 1..];
    }

    /** Everything handed to the transport or still to be: the requests in queue order. */
    ghost function Stream(): seq<byte>
      requires Valid() && Bounded(sent + outbufs)
      reads this
    {
      Flat(sent + outbufs)
    }

    /** The wire never holds anything but the requests, whole and in order. */
    lemma WireIsPrefix()
      requires Valid() && Contiguous()
      ensures Bounded(sent + outbufs) && wire <= Stream()
      ensures outbufs == [] ==> wire == Stream()
    {
      hide Flat, Gather, AllBelow, TotalSize;
      if outbufs == [] {
        assert sent + outbufs == sent;
      } else {
        var b := outbufs[0];
        FlatPush(sent, b);
        BoundedRest(sent, outbufs);
        FlatPrefix(sent + [b], outbufs[1..]);
        assert sent + outbufs == (sent + [b]) + outbufs[1..];
        assert b.Octets() == b.Octets()[..b.of] + b.Octets()[b.of..];
      }
    }

    /** One sendmsg of rd_kafka_send; `r` is what the transport took. */
    method SendHead(r: nat) returns (whole: bool)
      requires Valid() && Contiguous() && outbufs != []
      requires r <= TotalSize(outbufs[0].iov) - outbufs[0].of
      modifies this
      ensures Valid() && Contiguous()
      ensures whole <==> old(outbufs)[0].of + r == TotalSize(old(outbufs)[0].iov)
      ensures !whole ==> outbufs == old(outbufs)[0 := old(outbufs)[0].(of := old(outbufs)[0].of + r)]
      ensures !whole ==> sent == old(sent) && waitresps == old(waitresps) && finished == old(finished)
      ensures whole ==> outbufs == old(outbufs)[1..] && sent == old(sent) + [old(outbufs)[0]]
      ensures whole && old(outbufs)[0].noResponse ==>
        waitresps == old(waitresps) && finished == old(finished) + [old(outbufs)[0]]
      ensures whole && !old(outbufs)[0].noResponse ==>
        waitresps == old(waitresps) + [old(outbufs)[0]] && finished == old(finished)
      ensures old(wire) <= wire && |wire| == |old(wire)| + r
    {
      hide Gather, TotalSize, Flat, AllBelow, AllOk, NoneBegun, Begun, OutBuf.Ok, OutBuf.Octets, Bounded;
      var b := outbufs[0];
      HeadOk(outbufs);
      var octets := NextOctets(b);
      whole := b.of + r == TotalSize(b.iov);
      if whole {
        SentWhole(octets);
        assert octets[..r] == octets;
      } else {
        SentPart(octets, r);
      }
    }

    /** The transport took all that was left of the first request. */
    method SentWhole(octets: seq<byte>)
      requires Valid() && Contiguous() && outbufs != [] && outbufs[0].Ok()
      requires outbufs[0].of <= |outbufs[0].Octets()| && octets == outbufs[0].Octets()[outbufs[0].of..]
      modifies `outbufs, `wire, `sent, `waitresps, `finished
      ensures Valid() && Contiguous() && wire == old(wire) + octets
      ensures outbufs == old(outbufs)[1..] && sent == old(sent) + [old(outbufs)[0]]
      ensures waitresps == old(waitresps) + if old(outbufs)[0].noResponse then [] else [old(outbufs)[0]]
      ensures finished == old(finished) + if old(outbufs)[0].noResponse then [old(outbufs)[0]] else []
    {
      hide Gather, TotalSize, Flat, AllBelow, AllOk, NoneBegun, Begun, OutBuf.Ok, OutBuf.Octets, Bounded;
      var b := outbufs[0];
      HeadOk(outbufs);
      SendSlices(b.Octets(), b.of, |octets|);
      assert b.Octets()[..|b.Octets()|] == b.Octets() && octets[..|octets|] == octets;
      FlatPush(sent, b);
      RestKeeps(outbufs);
      assert waitresps + [] == waitresps && finished + [] == finished;
      wire := wire + octets;
      outbufs := outbufs[1..];
      sent := sent + [b];
      if b.noResponse { finished := finished + [b]; } else { waitresps := waitresps + [b]; }
    }

    /** It took a part. */
    method SentPart(octets: seq<byte>, r: nat)
      requires Valid() && Contiguous() && outbufs != [] && outbufs[0].Ok() && r <= |octets|
      requires outbufs[0].of <= |outbufs[0].Octets()| && octets == outbufs[0].Octets()[outbufs[0].of..]
      requires outbufs[0].of + r < TotalSize(outbufs[0].iov)
      modifies `outbufs, `wire
      ensures Valid() && Contiguous() && wire == old(wire) + octets[..r]
      ensures outbufs == old(outbufs)[0 := old(outbufs)[0].(of := old(outbufs)[0].of + r)]
    {
      hide Gather, TotalSize, Flat, AllBelow, AllOk, NoneBegun, Begun, OutBuf.Ok, OutBuf.Octets, Bounded;
      var b := outbufs[0];
      HeadOk(outbufs);
      SendSlices(b.Octets(), b.of, r);
      AdvanceKeeps(outbufs, r);
      wire := wire + octets[..r];
      outbufs := outbufs[0 := b.(of := b.of + r)];
    }

    /** rd_kafka_send: `moves` is what successive sendmsg calls return, -1 for an error. */
    method SendAll(moves: seq<int>) returns (cnt: int, ghost k: nat)
      requires Valid() && Contiguous()
      modifies this
      ensures Valid() && Contiguous()
      ensures k <= |old(outbufs)| && sent == old(sent) + old(outbufs)[..k]
      ensures outbufs != [] ==> k < |old(outbufs)|
      ensures outbufs == [] ==> k == |old(outbufs)|
      ensures k < |old(outbufs)| ==> outbufs != [] && outbufs[1..] == old(outbufs)[k + 1..]
      ensures k < |old(outbufs)| ==> outbufs[0] == old(outbufs)[k].(of := outbufs[0].of)
      ensures old(wire) <= wire
      ensures cnt <= k && (cnt == k || outbufs != [])
    {
      hide Gather, TotalSize, Flat, AllBelow, AllOk, NoneBegun, Begun, OutBuf.Ok, OutBuf.Octets, Bounded;
      cnt, k := 0, 0;
      var j := 0;
      while outbufs != []
        invariant Valid() && Contiguous() && k <= |old(outbufs)| && j <= |moves|
        invariant outbufs == old(outbufs)[k..] && sent == old(sent) + old(outbufs)[..k]
        invariant old(wire) <= wire && cnt == k
        decreases |outbufs|
      {
        var b := outbufs[0];
        HeadOk(outbufs);
        var room := TotalSize(b.iov) - b.of;
        var r := if j < |moves| then moves[j] else 0;
        if j < |moves| { j := j + 1; }
        if r < 0 {
          return -1, k;
        }
        var whole := SendHead(if r < room then r else room);
        if !whole {
          return 0, k;
        }
        cnt, k := cnt + 1, k + 1;
      }
    }
  }

  lemma HeadOk(bs: seq<OutBuf>)
    requires bs != [] && AllOk(bs)
    ensures bs[0].Ok() && AllBelow(bs[0].iov, |bs[0].mem|) && bs[0].of < TotalSize(bs[0].iov) == |bs[0].Octets()|
    ensures Begun(bs) == bs[0].Octets()[..bs[0].of] && bs[0].Octets()[..TotalSize(bs[0].iov)] == bs[0].Octets()
  {
    hide Gather, TotalSize, AllBelow;
  }

  lemma AdvanceKeeps(bs: seq<OutBuf>, r: nat)
    requires bs != [] && AllOk(bs) && bs[0].of + r < TotalSize(bs[0].iov)
    ensures var next := bs[0 := bs[0].(of := bs[0].of + r)];
      && AllOk(next) && next[1..] == bs[1..] && AllBelow(bs[0].iov, |bs[0].mem|)
      && bs[0].of + r <= |bs[0].Octets()| && Begun(next) == bs[0].Octets()[..bs[0].of + r]
  {
    hide Gather, TotalSize, AllBelow;
  }

  lemma SendSlices(s: seq<byte>, of: nat, r: nat)
    requires of + r <= |s|
    ensures s[..of] + s[of..][..r] == s[..of + r]
  {
  }

  lemma InsertKeeps(bs: seq<OutBuf>, at: nat, b: OutBuf)
    requires at <= |bs| && AllOk(bs) && b.Ok() && b.of == 0 && (bs != [] ==> NoneBegun(bs[1..]))
    ensures var r := bs[..at] + [b] + bs[at..];
      && AllOk(r)
      && (at > 0 || bs == [] || bs[0].of == 0 ==> NoneBegun(r[1..]) && Begun(r) == Begun(bs))
      && (at == 0 && bs != [] && bs[0].of > 0 ==> !NoneBegun(r[1..]))
  {
    hide OutBuf.Ok, OutBuf.Octets;
    var r := bs[..at] + [b] + bs[at..];
    assert forall i :: 0 <= i < |r| ==> r[i] == if i < at then bs[i] else if i == at then b else bs[i - 1];
    assert forall i :: 1 <= i < |bs| ==> bs[1..][i - 1] == bs[i];
    if at == 0 && bs != [] { assert r[1..][0] == bs[0]; }
    NothingBegun(b);
    if bs != [] { NothingBegun(bs[0]); }
  }

  lemma NothingBegun(b: OutBuf)
    requires b.Ok()
    ensures b.of <= |b.Octets()| && b.Octets()[..0] == []
  {
    hide Gather, TotalSize;
  }

  lemma RemoveKeeps(bs: seq<OutBuf>, at: nat)
    requires at < |bs| && AllOk(bs) && NoneBegun(bs[1..])
    ensures var r := bs[..at] + bs[at + 1..];
      && AllOk(r)
      && (r != [] ==> NoneBegun(r[1..]))
      && (at > 0 || bs[0].of == 0 ==> Begun(r) == Begun(bs))
      && (at == 0 && bs[0].of > 0 ==> |Begun(r)| < |Begun(bs)|)
  {
    hide OutBuf.Ok, OutBuf.Octets;
    var r := bs[..at] + bs[at + 1..];
    assert forall i :: 0 <= i < |r| ==> r[i] == if i < at then bs[i] else bs[i + 1];
    assert forall i :: 1 <= i < |bs| ==> bs[1..][i - 1] == bs[i];
    NothingBegun(bs[0]);
    if r != [] { NothingBegun(r[0]); }
  }

  /** Behind the first request nothing has begun. */
  lemma RestKeeps(bs: seq<OutBuf>)
    requires bs != [] && AllOk(bs) && NoneBegun(bs[1..])
    ensures AllOk(bs[1..]) && Begun(bs[1..]) == []
    ensures bs[1..] != [] ==> NoneBegun(bs[1..][1..])
  {
    hide Gather, TotalSize, AllBelow;
  }

  lemma BoundedRest(a: seq<OutBuf>, bs: seq<OutBuf>)
    requires bs != [] && Bounded(a) && AllOk(bs)
    ensures Bounded(a + [bs[0]] + bs[1..]) && Bounded(a + bs)
  {
    hide AllBelow;
  }

  lemma {:induction false} FlatPrefix(a: seq<OutBuf>, b: seq<OutBuf>)
    requires Bounded(a + b)
    ensures Bounded(a) && Flat(a) <= Flat(a + b)
  {
    hide OutBuf.Octets, AllBelow;
    if b == [] {
      assert a + b == a;
    } else {
      assert (a + b)[..|a + b| - 1] == a + b[..|b| - 1];
      FlatPrefix(a, b[..|b| - 1]);
    }
  }

  lemma FirstOrdinaryIs(bs: seq<OutBuf>, k: nat)
    requires k <= |bs| && (forall i :: 0 <= i < k ==> bs[i].flash) && (k < |bs| ==> !bs[k].flash)
    ensures FirstOrdinary(bs) == k
  {
  }
}