/** Building a Fetch request for the partitions of a broker: rd_kafka_broker_fetch_toppars. */
module Fetch {
  import opened Bytes
  import opened WriteBuffer
  import opened FetchFormat
  import CircleQueue

  /** The runs so far, the count of the last one still zero. */
  ghost function OpenOctets(rs: seq<Run>, maxBytes: int): seq<byte> {
    if rs == [] then []
    else RunsOctets(rs[..|rs| - 1], maxBytes) + RunOctets(rs[|rs| - 1], 0, maxBytes)
  }

  /** Where that count is. */
  ghost function CountAt(rs: seq<Run>, maxBytes: int): nat
    requires rs != []
  {
    |RunsOctets(rs[..|rs| - 1], maxBytes)| + |KStringOctets(rs[|rs| - 1].topic.name)|
  }

  lemma Closed(rs: seq<Run>, maxBytes: int)
    requires rs != []
    ensures CountAt(rs, maxBytes) + 4 <= |OpenOctets(rs, maxBytes)|
    ensures Patched(OpenOctets(rs, maxBytes), CountAt(rs, maxBytes), EncodeInt(|rs[|rs| - 1].parts|, 4))
         == RunsOctets(rs, maxBytes)
  {
    var m := |rs| - 1;
    hide RunsOctets, EncodeInt, KStringOctets, PartsOctets;
    RunsPush(rs[..m], rs[m], maxBytes);
    assert rs[..m] + [rs[m]] == rs;
  }

  lemma OpenSame(rs: seq<Run>, p: Toppar, maxBytes: int)
    requires rs != [] && rs[|rs| - 1].topic == p.topic
    ensures OpenOctets(Extend(rs, p), maxBytes) == OpenOctets(rs, maxBytes) + PartOctets(p, maxBytes)
    ensures CountAt(Extend(rs, p), maxBytes) == CountAt(rs, maxBytes)
    ensures |Extend(rs, p)| == |rs| && |Extend(rs, p)[|rs| - 1].parts| == |rs[|rs| - 1].parts| + 1
  {
    hide RunsOctets, EncodeInt, KStringOctets, PartsOctets, PartOctets;
    var m := |rs| - 1;
    PartsPush(rs[m].parts, p, maxBytes);
    assert Extend(rs, p)[..m] == rs[..m];
  }

  lemma OpenNew(rs: seq<Run>, p: Toppar, maxBytes: int)
    requires rs == [] || rs[|rs| - 1].topic != p.topic
    ensures OpenOctets(Extend(rs, p), maxBytes)
         == RunsOctets(rs, maxBytes) + KStringOctets(p.topic.name) + EncodeInt(0, 4) + PartOctets(p, maxBytes)
    ensures CountAt(Extend(rs, p), maxBytes) == |RunsOctets(rs, maxBytes)| + |KStringOctets(p.topic.name)|
    ensures |Extend(rs, p)| == |rs| + 1 && |Extend(rs, p)[|rs|].parts| == 1
  {
    hide EncodeInt, KStringOctets, PartOctets, RunsOctets;
    OnePart(p, maxBytes);
    assert Extend(rs, p)[..|rs|] == rs;
  }

  lemma OnePart(p: Toppar, maxBytes: int)
    ensures PartsOctets([p], maxBytes) == PartOctets(p, maxBytes)
  {
    hide PartOctets;
    assert [p][1..] == [];
  }

  /** A growable buffer whose only vector is the request header. */
  ghost predicate Growing(b: Buffer, pending: seq<byte>)
    reads b, b.buf
  {
    b.Building() && b.growable && |b.iov| == 1 && !b.crcOn && b.iovCnt == 2 && b.Pending() == pending
  }

  method AppendTo(b: Buffer, data: seq<byte>, ghost pending: seq<byte>) returns (at: nat)
    requires Growing(b, pending)
    modifies b`buf, b`wof, b`crc, b.buf
    ensures Growing(b, pending + data) && (b.buf == old(b.buf) || fresh(b.buf)) && b.View() == old(b.View())
    ensures at == b.wofInit + |pending| && b.wofInit == old(b.wofInit) && b.iov == old(b.iov)
  {
    hide AllBelow, Gather;
    b.Sizes();
    at := b.Append(data);
  }

  /** rd_kafka_buf_update_i32 of a count written before. */
  method PatchCount(b: Buffer, at: nat, count: int, ghost pending: seq<byte>)
    requires Growing(b, pending) && b.wofInit <= at && at + 4 <= b.wofInit + |pending|
    modifies b.buf
    ensures at - b.wofInit + 4 <= |pending| && Growing(b, Patched(pending, at - b.wofInit, EncodeInt(count, 4)))
    ensures b.View() == old(b.View())
  {
    hide AllBelow, Gather, EncodeInt;
    b.Sizes();
    b.UpdatePending(at, EncodeInt(count, 4));
  }

  /** What the loop of the builder knows: `rs` are the runs written, the last one's count still zero. */
  ghost predicate Stuffed(b: Buffer, hd: seq<byte>, rs: seq<Run>, maxBytes: int, last: Option<Topic>, ofCount: nat,
                          partitions: nat, topics: nat)
    reads b, b.buf
  {
    && Growing(b, hd + OpenOctets(rs, maxBytes)) && topics == |rs| && (last.None? <==> rs == [])
    && (rs != [] ==> last == Some(rs[|rs| - 1].topic) && partitions == |rs[|rs| - 1].parts|
                     && ofCount == b.wofInit + |hd| + CountAt(rs, maxBytes))
  }

  /** Fill in the count of the last topic, if there is one. */
  method CloseTopic(b: Buffer, last: Option<Topic>, ofCount: nat, partitions: nat, ghost hd: seq<byte>,
                    ghost rs: seq<Run>, ghost maxBytes: int, ghost topics: nat)
    requires Stuffed(b, hd, rs, maxBytes, last, ofCount, partitions, topics)
    modifies b.buf
    ensures Growing(b, hd + RunsOctets(rs, maxBytes)) && b.View() == old(b.View())
  {
    hide Growing, RunsOctets, EncodeInt, OpenOctets, CountAt;
    if last.Some? {
      Closed(rs, maxBytes);
      PatchCount(b, ofCount, partitions, hd + OpenOctets(rs, maxBytes));
      PatchedBehind(hd, OpenOctets(rs, maxBytes), CountAt(rs, maxBytes), EncodeInt(partitions, 4));
    } else {
      NoneOpen(maxBytes);
    }
  }

  lemma NoneOpen(maxBytes: int)
    ensures OpenOctets([], maxBytes) == RunsOctets([], maxBytes) == []
  {
  }

  lemma PatchedBehind(hd: seq<byte>, s: seq<byte>, at: nat, data: seq<byte>)
    requires at + |data| <= |s|
    ensures Patched(hd + s, |hd| + at, data) == hd + Patched(s, at, data)
  {
  }

  method WritePart(b: Buffer, p: Toppar, maxBytes: int, ghost pending: seq<byte>)
    requires Growing(b, pending)
    modifies b`buf, b`wof, b`crc, b.buf
    ensures Growing(b, pending + PartOctets(p, maxBytes)) && (b.buf == old(b.buf) || fresh(b.buf))
    ensures b.View() == old(b.View()) && b.wofInit == old(b.wofInit) && b.iov == old(b.iov)
  {
    hide Growing, EncodeInt;
    var x, y, z := EncodeInt(p.partition, 4), EncodeInt(p.offset, 8), EncodeInt(maxBytes, 4);
    var _ := AppendTo(b, x, pending);
    var _ := AppendTo(b, y, pending + x);
    var _ := AppendTo(b, z, pending + x + y);
    assert pending + x + y + z == pending + (x + y + z);
  }

  method OpenTopic(b: Buffer, t: Topic, ghost pending: seq<byte>) returns (ofCount: nat)
    requires Growing(b, pending)
    modifies b`buf, b`wof, b`crc, b.buf
    ensures Growing(b, pending + KStringOctets(t.name) + EncodeInt(0, 4)) && (b.buf == old(b.buf) || fresh(b.buf))
    ensures b.View() == old(b.View()) && b.wofInit == old(b.wofInit) && b.iov == old(b.iov)
    ensures ofCount == b.wofInit + |pending| + |KStringOctets(t.name)|
  {
    hide Growing, EncodeInt, KStringOctets;
    var _ := AppendTo(b, KStringOctets(t.name), pending);
    ofCount := AppendTo(b, EncodeInt(0, 4), pending + KStringOctets(t.name));
  }

  /** One partition. */
  method AddPart(b: Buffer, p: Toppar, maxBytes: int, last: Option<Topic>, ofCount: nat, partitions: nat, topics: nat,
                 ghost hd: seq<byte>, ghost rs: seq<Run>)
    returns (last': Option<Topic>, ofCount': nat, partitions': nat, topics': nat)
    requires Stuffed(b, hd, rs, maxBytes, last, ofCount, partitions, topics)
    modifies b`buf, b`wof, b`crc, b.buf
    ensures Stuffed(b, hd, Extend(rs, p), maxBytes, last', ofCount', partitions', topics')
    ensures (b.buf == old(b.buf) || fresh(b.buf)) && b.View() == old(b.View()) && b.wofInit == old(b.wofInit)
    ensures b.iov == old(b.iov)
  {
    hide Growing, RunsOctets, EncodeInt, OpenOctets, CountAt, KStringOctets, PartOctets, Extend;
    last', ofCount', partitions', topics' := last, ofCount, partitions, topics;
    if last != Some(p.topic) {
      CloseTopic(b, last, ofCount, partitions, hd, rs, maxBytes, topics);
      ofCount' := OpenTopic(b, p.topic, hd + RunsOctets(rs, maxBytes));
      topics', last', partitions' := topics + 1, Some(p.topic), 0;
      OpenNew(rs, p, maxBytes);
      WritePart(b, p, maxBytes, hd + RunsOctets(rs, maxBytes) + KStringOctets(p.topic.name) + EncodeInt(0, 4));
      Regroup(hd, RunsOctets(rs, maxBytes), KStringOctets(p.topic.name), EncodeInt(0, 4), PartOctets(p, maxBytes));
    } else {
      OpenSame(rs, p, maxBytes);
      WritePart(b, p, maxBytes, hd + OpenOctets(rs, maxBytes));
      Regroup2(hd, OpenOctets(rs, maxBytes), PartOctets(p, maxBytes));
    }
    partitions' := partitions' + 1;
  }

  lemma Regroup(hd: seq<byte>, a: seq<byte>, x: seq<byte>, y: seq<byte>, z: seq<byte>)
    ensures hd + a + x + y + z == hd + (a + x + y + z)
  {
  }

  lemma Regroup2(hd: seq<byte>, a: seq<byte>, z: seq<byte>)
    ensures hd + a + z == hd + (a + z)
  {
  }

  /** The ring from `start` (counted from 1) once around. */
  ghost function Order(ring: seq<Toppar>, start: nat): seq<Toppar>
    requires 0 < start <= |ring|
  {
    ring[start - 1..] + ring[..start - 1]
  }

  /** Position after `i` steps of CIRCLEQ_LOOP_NEXT. */
  ghost function Position(n: nat, start: nat, i: nat): (k: nat)
    requires 0 < start <= n
    ensures 0 < k <= n
  {
    if i == 0 then start else CircleQueue.LoopAfter(n, Position(n, start, i - 1))
  }

  lemma {:induction false} PositionIs(n: nat, start: nat, i: nat)
    requires 0 < start <= n && i <= n
    ensures Position(n, start, i) == if start + i <= n then start + i else start + i - n
  {
    if i > 0 {
      PositionIs(n, start, i - 1);
    }
  }

  lemma OrderAt(ring: seq<Toppar>, start: nat, i: nat)
    requires 0 < start <= |ring| && i < |ring|
    ensures |Order(ring, start)| == |ring|
    ensures Order(ring, start)[i] == ring[Position(|ring|, start, i) - 1]
    ensures Position(|ring|, start, i + 1) == start <==> i + 1 == |ring|
  {
    hide Position;
    PositionIs(|ring|, start, i);
    PositionIs(|ring|, start, i + 1);
  }

  datatype Config = Config(clientId: KString, apiVersion: int, maxWait: int, minBytes: int, maxBytes: int)

  method NewFetch(c: Config, n: nat) returns (b: Buffer)
    ensures fresh(b) && fresh(b.buf) && Growing(b, [])
    ensures b.iov == [Own(0, 12 + |KStringOctets(c.clientId)|)]
    ensures b.wofInit == 12 + |KStringOctets(c.clientId)| == |b.View()|
  {
    hide EncodeInt, KStringOctets, Gather, AllBelow;
    b := new Buffer(12 + |KStringOctets(c.clientId)|, 1, 16 + n * 60, true);
    b.Sizes();
    assert [Own(0, b.wofInit)][..0] == [];
    assert TotalSize(b.iov) == TotalSize([]) + b.iov[0].Size();
  }

  lemma HeadIs(maxWait: int, minBytes: int)
    ensures FetchHead(maxWait, minBytes, 0)
            == [] + EncodeInt(-1, 4) + EncodeInt(maxWait, 4) + EncodeInt(minBytes, 4) + EncodeInt(0, 4)
  {
    hide EncodeInt;
  }

  method BeginFetch(c: Config, n: nat) returns (b: Buffer, ofTopics: nat)
    ensures fresh(b) && fresh(b.buf) && Growing(b, FetchHead(c.maxWait, c.minBytes, 0))
    ensures b.iov == [Own(0, 12 + |KStringOctets(c.clientId)|)] && ofTopics == b.wofInit + 12
    ensures b.wofInit == 12 + |KStringOctets(c.clientId)| == |b.View()|
  {
    hide EncodeInt, KStringOctets, Growing, FetchHead, TotalSize;
    b := NewFetch(c, n);
    HeadIs(c.maxWait, c.minBytes);
    var x, y, z := EncodeInt(-1, 4), EncodeInt(c.maxWait, 4), EncodeInt(c.minBytes, 4);
    var _ := AppendTo(b, x, []);
    var _ := AppendTo(b, y, [] + x);
    var _ := AppendTo(b, z, [] + x + y);
    ofTopics := AppendTo(b, EncodeInt(0, 4), [] + x + y + z);
  }

  /** The do loop over the ring. */
  method AddRing(b: Buffer, ring: seq<Toppar>, start: nat, maxBytes: int, ghost hd: seq<byte>)
    returns (last: Option<Topic>, ofCount: nat, partitions: nat, topics: nat, cnt: nat)
    requires Growing(b, hd) && 0 < start <= |ring|
    modifies b`buf, b`wof, b`crc, b.buf
    ensures Stuffed(b, hd, Runs(Order(ring, start)), maxBytes, last, ofCount, partitions, topics) && cnt == |ring|
    ensures (b.buf == old(b.buf) || fresh(b.buf)) && b.View() == old(b.View()) && b.wofInit == old(b.wofInit)
    ensures b.iov == old(b.iov)
  {
    hide *;
    GrowingValid(b, hd);
    last, ofCount, partitions, topics, cnt := None, 0, 0, 0, 0;
    ghost var order := Order(ring, start);
    StartStuffed(b, hd, maxBytes, ofCount, partitions, order);
    var k := start;
    OrderAt(ring, start, 0);
    Started(|ring|, start);
    var more := true;
    while more
      invariant cnt <= |ring| && more == (cnt < |ring|) && 0 < k <= |ring| && k == Position(|ring|, start, cnt)
      invariant |order| == |ring| && Stuffed(b, hd, Runs(order[..cnt]), maxBytes, last, ofCount, partitions, topics)
      invariant b.Valid()
      invariant (b.buf == old(b.buf) || fresh(b.buf)) && b.View() == old(b.View()) && b.wofInit == old(b.wofInit)
      invariant b.iov == old(b.iov)
      decreases |ring| - cnt
    {
      OrderAt(ring, start, cnt);
      last, ofCount, partitions, topics := AddPart(b, ring[k - 1], maxBytes, last, ofCount, partitions, topics, hd,
                                                   Runs(order[..cnt]));
      StuffedValid(b, hd, Extend(Runs(order[..cnt]), ring[k - 1]), maxBytes, last, ofCount, partitions, topics);
      RunsNext(order, cnt);
      Stepped(|ring|, start, cnt);
      k := CircleQueue.LoopAfter(|ring|, k);
      cnt := cnt + 1;
      more := k != start;
    }
    WholeOrder(order);
  }

  lemma GrowingValid(b: Buffer, pending: seq<byte>)
    requires Growing(b, pending)
    ensures b.Valid()
  {
  }

  lemma StuffedValid(b: Buffer, hd: seq<byte>, rs: seq<Run>, maxBytes: int, last: Option<Topic>, ofCount: nat,
                     partitions: nat, topics: nat)
    requires Stuffed(b, hd, rs, maxBytes, last, ofCount, partitions, topics)
    ensures b.Valid()
  {
    hide Growing;
    GrowingValid(b, hd + OpenOctets(rs, maxBytes));
  }

  lemma StartStuffed(b: Buffer, hd: seq<byte>, maxBytes: int, ofCount: nat, partitions: nat, order: seq<Toppar>)
    requires Growing(b, hd)
    ensures Stuffed(b, hd, Runs(order[..0]), maxBytes, None, ofCount, partitions, 0)
  {
    hide Growing;
    assert hd + [] == hd;
  }

  lemma Started(n: nat, start: nat)
    requires 0 < start <= n
    ensures Position(n, start, 0) == start
  {
  }

  lemma Stepped(n: nat, start: nat, i: nat)
    requires 0 < start <= n
    ensures Position(n, start, i + 1) == CircleQueue.LoopAfter(n, Position(n, start, i))
  {
  }

  lemma RunsNext(order: seq<Toppar>, i: nat)
    requires i < |order|
    ensures Runs(order[..i + 1]) == Extend(Runs(order[..i]), order[i])
  {
    hide Extend;
    assert order[..i + 1][..i] == order[..i];
  }

  lemma WholeOrder(order: seq<Toppar>)
    ensures order[..|order|] == order
  {
  }

  lemma TopicsPatched(c: Config, n: nat, body: seq<byte>)
    ensures Patched(FetchHead(c.maxWait, c.minBytes, 0) + body, 12, EncodeInt(n, 4))
         == FetchHead(c.maxWait, c.minBytes, n) + body
  {
    hide EncodeInt;
  }

  /** Push what was written and put the request header in front. */
  method Complete(b: Buffer, c: Config, ghost body: seq<byte>)
    requires Growing(b, body) && body != [] && b.iov == [Own(0, 12 + |KStringOctets(c.clientId)|)]
    requires b.wofInit == 12 + |KStringOctets(c.clientId)| == |b.View()|
    modifies b
    modifies b.buf
    ensures b.Valid() && b.len == |b.View()| && b.buf == old(b.buf)
    ensures b.View() == RequestHeader(b.len - 4, 1, c.apiVersion, 0, c.clientId) + body
  {
    hide RequestHeader, KStringOctets, EncodeInt, Gather, AllBelow, TotalSize;
    b.Sizes();
    ghost var v := b.View();
    b.Autopush();
    assert (v + body)[|v|..] == body;
    b.FinalizeRequest(1, c.apiVersion, c.clientId);
  }

  /**
   rd_kafka_broker_fetch_toppars: every partition of the ring, from `start` once around, grouped
   into topics with counts filled in afterwards. The next request starts one position later.
   */
  method BuildFetch(c: Config, ring: seq<Toppar>, start: nat) returns (b: Buffer?, cnt: nat, next: nat)
    requires ring != [] ==> 0 < start <= |ring|
    ensures cnt == |ring| && (b == null <==> ring == [])
    ensures ring != [] ==> next == CircleQueue.LoopAfter(|ring|, start)
    ensures b != null ==> fresh(b) && fresh(b.buf) && b.Valid() && b.len == |b.View()|
    ensures b != null ==> b.View() == RequestHeader(b.len - 4, 1, c.apiVersion, 0, c.clientId)
                                      + FetchOctets(c.maxWait, c.minBytes, c.maxBytes, Runs(Order(ring, start)))
  {
    hide *;
    if ring == [] {
      return null, 0, start;
    }
    var ofTopics;
    b, ofTopics := BeginFetch(c, |ring|);
    ghost var hd, rs := FetchHead(c.maxWait, c.minBytes, 0), Runs(Order(ring, start));
    var last, ofCount, partitions, topics;
    last, ofCount, partitions, topics, cnt := AddRing(b, ring, start, c.maxBytes, hd);
    next := CircleQueue.LoopAfter(|ring|, start);
    TopicsAre(b, hd, rs, c.maxBytes, last, ofCount, partitions, topics);
    CloseTopic(b, last, ofCount, partitions, hd, rs, c.maxBytes, topics);
    PatchCount(b, ofTopics, topics, hd + RunsOctets(rs, c.maxBytes));
    TopicsPatched(c, topics, RunsOctets(rs, c.maxBytes));
    WholeRequest(c, rs);
    Complete(b, c, FetchOctets(c.maxWait, c.minBytes, c.maxBytes, rs));
  }

  lemma TopicsAre(b: Buffer, hd: seq<byte>, rs: seq<Run>, maxBytes: int, last: Option<Topic>, ofCount: nat,
                  partitions: nat, topics: nat)
    requires Stuffed(b, hd, rs, maxBytes, last, ofCount, partitions, topics)
    ensures topics == |rs|
  {
    hide Growing;
  }

  lemma WholeRequest(c: Config, rs: seq<Run>)
    ensures FetchOctets(c.maxWait, c.minBytes, c.maxBytes, rs)
         == FetchHead(c.maxWait, c.minBytes, |rs|) + RunsOctets(rs, c.maxBytes)
    ensures FetchOctets(c.maxWait, c.minBytes, c.maxBytes, rs) != []
  {
    hide RunsOctets;
  }

  /** Over as many requests as the ring has partitions, each one goes first exactly once. */
  lemma EachFirstOnce(n: nat, start: nat, k: nat)
    requires 0 < start <= n && 0 < k <= n
    ensures exists i :: 0 <= i < n && Position(n, start, i) == k
    ensures forall i, j :: 0 <= i < n && 0 <= j < n && Position(n, start, i) == Position(n, start, j) ==> i == j
  {
    hide Position;
    forall i | 0 <= i < n
      ensures Position(n, start, i) == if start + i <= n then start + i else start + i - n
    {
      PositionIs(n, start, i);
    }
    var i := if k >= start then k - start else k + n - start;
    assert Position(n, start, i) == k;
  }

  /** Each partition of the ring is in the request exactly once. */
  lemma OrderIsPermutation(ring: seq<Toppar>, start: nat)
    requires 0 < start <= |ring|
    ensures multiset(Order(ring, start)) == multiset(ring)
  {
    assert ring == ring[..start - 1] + ring[start - 1..];
  }

  /** What a broker reads from the request: the partitions of the ring, from the start pointer once around. */
  lemma RequestAsksForRing(c: Config, ring: seq<Toppar>, start: nat)
    requires 0 < start <= |ring| && PartsFit(ring) && |ring| <= INT32_MAX
    requires FitsInt(c.maxWait, 4) && FitsInt(c.minBytes, 4) && FitsInt(c.maxBytes, 4)
    ensures var d := DecodeFetch(FetchOctets(c.maxWait, c.minBytes, c.maxBytes, Runs(Order(ring, start))));
      d.Some? && Asked(d.value.topics) == Asking(ring[start - 1..], c.maxBytes) + Asking(ring[..start - 1], c.maxBytes)
  {
    hide DecodeFetch, FetchOctets, Runs, FitsInt, Asked, Asking, PartFits;
    var order := Order(ring, start);
    forall i | 0 <= i < |order|
      ensures PartFits(order[i])
    {
      OrderAt(ring, start, i);
    }
    AsksForAll(c.maxWait, c.minBytes, c.maxBytes, order);
    AskingConcat(ring[start - 1..], ring[..start - 1], c.maxBytes);
  }
}
