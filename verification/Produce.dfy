/** Building a Produce request from the messages of a partition: rd_kafka_broker_produce_toppar. */
module Produce {
  import opened Bytes
  import opened Message
  import opened WriteBuffer

  /** RD_KAFKA_PAYLOAD_IOV_MAX */
  const PAYLOAD_IOV_MAX: nat := IOV_MAX - 2

  /** A message to produce; `len` is a field of its own, and nobody here checks that it is 0 for a NULL payload. */
  datatype Rkm = Rkm(id: nat, key: KBytes, payload: KBytes, len: nat, deadline: int) {
    /** The length is that of the payload, if there is one. */
    predicate Ok() { len < INT32_MAX && (payload.Some? ==> len == |payload.value|) }

    function AsMessage(): Message { Message(0, 0, 0, key, payload) }

    /** What rd_kafka_buf_write_Message reports for it. */
    function OutLen(): int { 12 + DeclaredSize(AsMessage(), len) }

    function Octets(): seq<byte> { Framed(AsMessage(), DeclaredSize(AsMessage(), len)) }
  }

  predicate AllOk(ms: seq<Rkm>) {
    forall i :: 0 <= i < |ms| ==> ms[i].Ok()
  }

  /** The MessageSetSize counted for a batch. */
  function SetSize(ms: seq<Rkm>): int {
    if ms == [] then 0 else SetSize(ms[..|ms| - 1]) + ms[|ms| - 1].OutLen()
  }

  function SetOctets(ms: seq<Rkm>): seq<byte> {
    if ms == [] then [] else SetOctets(ms[..|ms| - 1]) + ms[|ms| - 1].Octets()
  }

  lemma SetPush(ms: seq<Rkm>, m: Rkm)
    ensures SetSize(ms + [m]) == SetSize(ms) + m.OutLen() && SetOctets(ms + [m]) == SetOctets(ms) + m.Octets()
  {
    assert (ms + [m])[..|ms|] == ms;
  }

  /** The size counted for an uncompressed set is the real length exactly when no NULL payload has been given a length. */
  lemma {:induction false} SetSizeExact(ms: seq<Rkm>)
    requires AllOk(ms)
    ensures |SetOctets(ms)| <= SetSize(ms)
    ensures |SetOctets(ms)| == SetSize(ms) <==> forall i :: 0 <= i < |ms| && ms[i].payload.None? ==> ms[i].len == 0
  {
    hide Framed;
    if ms != [] {
      var n := |ms| - 1;
      SetSizeExact(ms[..n]);
      assert ms[..n + 1] == ms;
      assert forall i :: 0 <= i < n ==> ms[..n][i] == ms[i];
    }
  }

  function ProduceHeader(acks: int, timeout: int, topic: KString, partition: int, size: int): seq<byte> {
    EncodeInt(acks, 2) + EncodeInt(timeout, 4) + EncodeInt(1, 4) + KStringOctets(topic) + EncodeInt(1, 4)
    + EncodeInt(partition, 4) + EncodeInt(size, 4)
  }

  lemma ProduceHeaderParts(acks: int, timeout: int, topic: KString, partition: int, size: int)
    ensures var h, t := ProduceHeader(acks, timeout, topic, partition, size), 10 + |KStringOctets(topic)|;
      && |h| == t + 12 && h[..2] == EncodeInt(acks, 2) && h[2..6] == EncodeInt(timeout, 4) && h[6..10] == EncodeInt(1, 4)
      && h[10..t] == KStringOctets(topic) && h[t..t + 4] == EncodeInt(1, 4)
      && h[t + 4..t + 8] == EncodeInt(partition, 4) && h[t + 8..] == EncodeInt(size, 4)
  {
    hide EncodeInt, KStringOctets;
  }

  lemma ProduceHeaderDecoded(acks: int, timeout: int, topic: KString, partition: int, size: int)
    requires FitsInt(acks, 2) && FitsInt(timeout, 4) && FitsInt(partition, 4) && FitsInt(size, 4)
    ensures var h, t := ProduceHeader(acks, timeout, topic, partition, size), 10 + |KStringOctets(topic)|;
      && |h| == t + 12 && h[10..t] == KStringOctets(topic)
      && DecodeInt(h[..2]) == acks && DecodeInt(h[2..6]) == timeout && DecodeInt(h[6..10]) == 1
      && DecodeInt(h[t..t + 4]) == 1 && DecodeInt(h[t + 4..t + 8]) == partition && DecodeInt(h[t + 8..]) == size
  {
    ProduceHeaderParts(acks, timeout, topic, partition, size);
    Widths();
    IntRoundTrip(acks, 2);
    IntRoundTrip(timeout, 4);
    IntRoundTrip(1, 4);
    IntRoundTrip(partition, 4);
    IntRoundTrip(size, 4);
    hide EncodeInt, DecodeInt, KStringOctets, ProduceHeader;
  }

  /** Where each field lies: one topic, one partition, and the size of the set last. */
  lemma ProduceHeaderLayout(acks: int, timeout: int, topic: KString, partition: int, size: int)
    requires FitsInt(acks, 2) && FitsInt(timeout, 4) && FitsInt(partition, 4) && FitsInt(size, 4)
    requires topic.Some? && |topic.value| < 0x8000
    ensures var h, t := ProduceHeader(acks, timeout, topic, partition, size), 12 + |topic.value|;
      && |h| == t + 12 && DecodeInt(h[..2]) == acks && DecodeInt(h[2..6]) == timeout && DecodeInt(h[6..10]) == 1
      && DecodeInt(h[10..12]) == |topic.value| && h[12..t] == topic.value
      && DecodeInt(h[t..t + 4]) == 1 && DecodeInt(h[t + 4..t + 8]) == partition && DecodeInt(h[t + 8..]) == size
  {
    hide EncodeInt, DecodeInt, FitsInt, KStringOctets, ProduceHeader;
    ProduceHeaderDecoded(acks, timeout, topic, partition, size);
    KStringLayout(topic);
    var h, t := ProduceHeader(acks, timeout, topic, partition, size), 12 + |topic.value|;
    assert h[10..12] == h[10..t][..2] && h[12..t] == h[10..t][2..];
  }

  lemma HeaderInPieces(p: seq<byte>, acks: int, timeout: int, topic: KString, partition: int, size: int)
    ensures p + EncodeInt(acks, 2) + EncodeInt(timeout, 4) + EncodeInt(1, 4) + KStringOctets(topic) + EncodeInt(1, 4)
            + EncodeInt(partition, 4) + EncodeInt(size, 4)
         == p + ProduceHeader(acks, timeout, topic, partition, size)
    ensures |ProduceHeader(acks, timeout, topic, partition, size)| == 22 + |KStringOctets(topic)|
  {
    hide EncodeInt, KStringOctets;
  }

  /** A buffer with room for `msgcnt` messages, the request header blank and the Produce header written. */
  ghost predicate Begun(b: Buffer, msgcnt: nat, head: nat, first: nat)
    reads b, b.buf
  {
    && b.Building() && !b.crcOn && b.wof == b.wofInit == first
    && head + 4 <= first && b.iov == [Own(0, head), Own(head, first - head)]
    && b.buf.Length == first + COPIED * msgcnt && 2 + 4 * msgcnt <= b.iovCnt
  }

  method WriteProduceHeader(b: Buffer, acks: int, timeout: int, topic: KString, partition: int)
    requires b.Building() && !b.crcOn && b.wof + 22 + |KStringOctets(topic)| <= b.buf.Length && b.Pending() == []
    modifies b`buf, b`wof, b`crc, b.buf
    ensures b.Building() && b.buf == old(b.buf) && b.wof == old(b.wof) + 22 + |KStringOctets(topic)|
    ensures b.View() == old(b.View()) && b.Pending() == ProduceHeader(acks, timeout, topic, partition, 0)
  {
    hide Buffer.View, Buffer.Pending, Gather, AllBelow, EncodeInt, KStringOctets, ProduceHeader, Buffer.Building;
    var _ := b.Append(EncodeInt(acks, 2));
    var _ := b.Append(EncodeInt(timeout, 4));
    var _ := b.Append(EncodeInt(1, 4));
    var _ := b.Append(KStringOctets(topic));
    var _ := b.Append(EncodeInt(1, 4));
    var _ := b.Append(EncodeInt(partition, 4));
    var _ := b.Append(EncodeInt(0, 4));
    HeaderInPieces([], acks, timeout, topic, partition, 0);
  }

  method Begin(clientId: KString, acks: int, timeout: int, topic: KString, partition: int, msgcnt: nat)
    returns (b: Buffer, first: nat)
    requires 1 + 4 * msgcnt <= PAYLOAD_IOV_MAX
    ensures fresh(b) && fresh(b.buf) && b.Valid()
    ensures Begun(b, msgcnt, 12 + |KStringOctets(clientId)|, first)
    ensures first == 12 + |KStringOctets(clientId)| + 22 + |KStringOctets(topic)|
    ensures TotalSize(b.iov[..1]) == 12 + |KStringOctets(clientId)| <= |b.View()|
    ensures b.View()[12 + |KStringOctets(clientId)|..] == ProduceHeader(acks, timeout, topic, partition, 0)
  {
    hide EncodeInt, KStringOctets, ProduceHeader, Gather;
    var head := 12 + |KStringOctets(clientId)|;
    HeaderInPieces([], acks, timeout, topic, partition, 0);
    b := new Buffer(head, 1 + 4 * msgcnt, 22 + |KStringOctets(topic)| + COPIED * msgcnt, false);
    WriteProduceHeader(b, acks, timeout, topic, partition);
    b.Sizes();
    b.Autopush();
    first := b.wof;
  }

  /** After some messages: each took its share of the buffer and at most four vectors. */
  ghost predicate Filled(b: Buffer, head: nat, first: nat, room: nat, v0: seq<byte>, messages: seq<byte>)
    reads b, b.buf
  {
    && b.Building() && !b.crcOn && b.Pending() == []
    && b.buf.Length >= b.wof + COPIED * room && b.wof == b.wofInit && |b.iov| + 4 * room <= b.iovCnt
    && 0 < head && head + 4 <= first && |b.iov| >= 2
    && b.iov[..2] == [Own(0, head), Own(head, first - head)] && AllAbove(b.iov[2..], first) && first <= b.wof
    && b.View() == v0 + messages && |v0| == first
  }

  lemma StackGrows(iov: seq<IoVec>, v: IoVec, tail: seq<IoVec>, first: nat, at: nat)
    requires |iov| >= 2 && AllAbove(iov[2..], first) && AllAbove(tail, at) && first <= at
    requires v.Own? && first <= v.of
    ensures (iov + [v] + tail)[..2] == iov[..2] && AllAbove((iov + [v] + tail)[2..], first)
  {
    assert (iov + [v] + tail)[2..] == iov[2..] + [v] + tail;
  }

  method WriteOne(b: Buffer, m: Message, len: int, ghost head: nat, ghost first: nat, ghost room: nat,
                  ghost v0: seq<byte>, ghost messages: seq<byte>) returns (outlen: int)
    requires room > 0 && (m.value.Some? ==> len == |m.value.value|) && Filled(b, head, first, room, v0, messages)
    modifies b`buf, b`wof, b`crc, b`crcOn, b`iov, b`wofInit, b.buf
    ensures b.buf == old(b.buf) && Filled(b, head, first, room - 1, v0, messages + Framed(m, DeclaredSize(m, len)))
    ensures outlen == 12 + DeclaredSize(m, len)
  {
    hide Buffer.View, Buffer.Pending, Buffer.Building, Gather, AllBelow, AllAbove, Framed, Tail, KBytesSize;
    ghost var iov0, of0 := b.iov, b.wofInit;
    TailAbove(m, b.wof + 18);
    var _, n := b.WriteMessage(m, len);
    outlen := n;
    StackGrows(iov0, Own(of0, 18), Tail(m, of0 + 18), first, of0 + 18);
    Appended(v0, messages, Framed(m, DeclaredSize(m, len)));
  }

  lemma Appended(v0: seq<byte>, x: seq<byte>, y: seq<byte>)
    ensures (v0 + x) + ([] + y) == v0 + (x + y)
  {
  }

  /**
   The loop of produce_toppar: the longest batch from the front of the queue that neither
   `msgcnt` nor the size check cuts short.
   */
  method FillSet(b: Buffer, xmit: seq<Rkm>, msgcnt: nat, maxMsgSize: nat, ghost head: nat, ghost first: nat,
                 ghost v0: seq<byte>) returns (n: nat, size: int)
    requires AllOk(xmit) && Filled(b, head, first, msgcnt, v0, [])
    modifies b`buf, b`wof, b`crc, b`crcOn, b`iov, b`wofInit, b.buf
    ensures b.buf == old(b.buf) && n <= |xmit| && n <= msgcnt && Filled(b, head, first, msgcnt - n, v0, SetOctets(xmit[..n]))
    ensures size == SetSize(xmit[..n]) && Greedy(xmit, msgcnt, maxMsgSize, n)
  {
    hide *;
    n, size := 0, 0;
    NothingYet(xmit);
    while n < msgcnt && n < |xmit| && size + xmit[n].len <= maxMsgSize
      invariant b.buf == old(b.buf) && n <= |xmit| && n <= msgcnt && AllOk(xmit)
      invariant Filled(b, head, first, msgcnt - n, v0, SetOctets(xmit[..n])) && size == SetSize(xmit[..n])
      invariant forall k :: 0 <= k < n ==> SetSize(xmit[..k]) + xmit[k].len <= maxMsgSize
    {
      NextOne(xmit, n);
      var outlen := WriteOne(b, xmit[n].AsMessage(), xmit[n].len, head, first, msgcnt - n, v0, SetOctets(xmit[..n]));
      size := size + outlen;
      n := n + 1;
    }
    IsGreedy(xmit, msgcnt, maxMsgSize, n);
  }

  /** Where a batch ends. */
  ghost predicate Greedy(xmit: seq<Rkm>, msgcnt: nat, maxMsgSize: nat, n: nat) {
    && n <= |xmit| && n <= msgcnt
    && (forall k :: 0 <= k < n ==> SetSize(xmit[..k]) + xmit[k].len <= maxMsgSize)
    && (n < msgcnt && n < |xmit| ==> SetSize(xmit[..n]) + xmit[n].len > maxMsgSize)
  }

  lemma IsGreedy(xmit: seq<Rkm>, msgcnt: nat, maxMsgSize: nat, n: nat)
    requires n <= |xmit| && n <= msgcnt
    requires forall k :: 0 <= k < n ==> SetSize(xmit[..k]) + xmit[k].len <= maxMsgSize
    requires n < msgcnt && n < |xmit| ==> SetSize(xmit[..n]) + xmit[n].len > maxMsgSize
    ensures Greedy(xmit, msgcnt, maxMsgSize, n)
  {
  }

  lemma NothingYet(xmit: seq<Rkm>)
    ensures SetSize(xmit[..0]) == 0 && SetOctets(xmit[..0]) == []
  {
  }

  lemma NextOne(xmit: seq<Rkm>, n: nat)
    requires n < |xmit| && AllOk(xmit)
    ensures xmit[n].OutLen() == 12 + DeclaredSize(xmit[n].AsMessage(), xmit[n].len)
    ensures xmit[n].Octets() == Framed(xmit[n].AsMessage(), DeclaredSize(xmit[n].AsMessage(), xmit[n].len))
    ensures xmit[n].AsMessage().value.Some? ==> xmit[n].len == |xmit[n].AsMessage().value.value|
    ensures xmit[..n] + [xmit[n]] == xmit[..n + 1]
    ensures SetSize(xmit[..n + 1]) == SetSize(xmit[..n]) + xmit[n].OutLen()
    ensures SetOctets(xmit[..n + 1]) == SetOctets(xmit[..n]) + xmit[n].Octets()
  {
    hide Framed, DeclaredSize;
    SetPush(xmit[..n], xmit[n]);
    assert xmit[..n] + [xmit[n]] == xmit[..n + 1];
  }

  /** The counted size exceeds max_msg_size by at most the last message's own overhead. */
  lemma SizeBound(xmit: seq<Rkm>, msgcnt: nat, maxMsgSize: nat, n: nat)
    requires AllOk(xmit) && Greedy(xmit, msgcnt, maxMsgSize, n) && n > 0
    ensures SetSize(xmit[..n]) <= maxMsgSize + (xmit[n - 1].OutLen() - xmit[n - 1].len)
    ensures xmit[n - 1].OutLen() - xmit[n - 1].len == 22 + KBytesSize(xmit[n - 1].key)
  {
    hide SetSize, SetOctets, Framed, KBytesSize;
    NextOne(xmit, n - 1);
    assert SetSize(xmit[..n - 1]) + xmit[n - 1].len <= maxMsgSize;
  }

  /** The checkpoint before the messages still stands for what it stood for then. */
  lemma Checkpoint(b: Buffer, head: nat, first: nat, room: nat, v0: seq<byte>, messages: seq<byte>)
    requires Filled(b, head, first, room, v0, messages)
    ensures AllBelow(b.iov[..2], first) && first <= b.buf.Length && Gather(b.buf[..], b.iov[..2]) == v0
  {
    assert AllBelow(b.iov, b.buf.Length);
    assert b.iov == b.iov[..2] + b.iov[2..];
    assert forall i :: 0 <= i < |b.iov| - 2 ==> b.iov[2..][i] == b.iov[i + 2];
    HeadSize(b.iov[..2], head, first);
    hide Gather, TotalSize;
    GatherConcat(b.buf[..], b.iov[..2], b.iov[2..]);
    SamePrefix(Gather(b.buf[..], b.iov[..2]), Gather(b.buf[..], b.iov[2..]), v0, messages);
  }

  lemma HeadSize(iov: seq<IoVec>, head: nat, first: nat)
    requires head <= first && iov == [Own(0, head), Own(head, first - head)]
    ensures TotalSize(iov) == first && TotalSize(iov[..1]) == head
  {
    var one := [Own(0, head)];
    assert one[..|one| - 1] == [] && iov[..1] == one && iov[..|iov| - 1] == one;
    assert TotalSize(one) == TotalSize([]) + one[0].Size();
    assert TotalSize(iov) == TotalSize(one) + iov[1].Size();
  }

  lemma SamePrefix(a: seq<byte>, x: seq<byte>, b: seq<byte>, y: seq<byte>)
    requires a + x == b + y && |a| == |b|
    ensures a == b
  {
    assert (a + x)[..|a|] == a && (b + y)[..|b|] == b;
  }

  /** The message that stands for a compressed set. */
  function Wrapper(codec: int, compressed: seq<byte>): Message {
    Message(0, 0, codec, None, Some(compressed))
  }

  /** The end of rd_kafka_compress_MessageSet_buf: back to the checkpoint, and one message instead. */
  method ReplaceByWrapper(b: Buffer, codec: int, compressed: seq<byte>, ghost head: nat, first: nat, ghost room: nat,
                          ghost total: nat, ghost v0: seq<byte>, ghost messages: seq<byte>) returns (size: int)
    requires room < total && Filled(b, head, first, room, v0, messages) && |compressed| < INT32_MAX
    requires b.buf.Length >= first + COPIED * total && 2 + 4 * total <= b.iovCnt
    modifies b`buf, b`wof, b`crc, b`crcOn, b`iov, b`wofInit, b.buf
    ensures b.buf == old(b.buf) && Filled(b, head, first, total - 1, v0, Octets(Wrapper(codec, compressed)))
    ensures size == |Octets(Wrapper(codec, compressed))|
  {
    hide *;
    RewindTo(b, head, first, room, total, v0, messages);
    Wrapped(codec, compressed);
    size := WriteOne(b, Wrapper(codec, compressed), |compressed|, head, first, total, v0, []);
  }

  lemma Wrapped(codec: int, compressed: seq<byte>)
    ensures var m := Wrapper(codec, compressed);
      && [] + Framed(m, DeclaredSize(m, |compressed|)) == Octets(m) && 12 + DeclaredSize(m, |compressed|) == |Octets(m)|
      && m.value == Some(compressed)
  {
    hide Framed;
  }

  method RewindTo(b: Buffer, ghost head: nat, first: nat, ghost room: nat, ghost total: nat, ghost v0: seq<byte>,
                  ghost messages: seq<byte>)
    requires Filled(b, head, first, room, v0, messages)
    requires b.buf.Length >= first + COPIED * total && 2 + 4 * total <= b.iovCnt
    modifies b`iov, b`wof, b`wofInit
    ensures Filled(b, head, first, total, v0, [])
  {
    hide Gather, AllBelow, TotalSize;
    Checkpoint(b, head, first, room, v0, messages);
    b.Rewind(2, first, first);
    Emptied(v0);
  }

  lemma Emptied(v0: seq<byte>)
    ensures v0 + [] == v0
  {
  }

  /** Fill in MessageSetSize, in octets that were pushed long ago. */
  method PatchSetSize(b: Buffer, size: int, ghost head: nat, first: nat, ghost room: nat, ghost v0: seq<byte>,
                      ghost messages: seq<byte>)
    requires Filled(b, head, first, room, v0, messages)
    modifies b.buf
    ensures |v0| == first >= 4 && Filled(b, head, first, room, Patched(v0, first - 4, EncodeInt(size, 4)), messages)
  {
    hide Gather, AllBelow, AllAbove, TotalSize, EncodeInt, Patched;
    assert b.iov == [Own(0, head)] + [Own(head, first - head)] + b.iov[2..];
    BelowHead(head);
    b.UpdatePushed(first - 4, EncodeInt(size, 4), [Own(0, head)], Own(head, first - head), b.iov[2..]);
    PatchedPart(v0, messages, first - 4, EncodeInt(size, 4));
  }

  lemma BelowHead(head: nat)
    ensures AllBelow([Own(0, head)], head) && TotalSize([Own(0, head)]) == head
  {
    var one := [Own(0, head)];
    assert one[..|one| - 1] == [];
    assert TotalSize(one) == TotalSize([]) + one[0].Size();
  }

  lemma PatchedPart(v: seq<byte>, w: seq<byte>, at: nat, data: seq<byte>)
    requires at + |data| <= |v|
    ensures Patched(v + w, at, data) == Patched(v, at, data) + w
  {
  }

  lemma SetSizePatched(v0: seq<byte>, head: nat, acks: int, timeout: int, topic: KString, partition: int, size: int)
    requires head <= |v0| && v0[head..] == ProduceHeader(acks, timeout, topic, partition, 0) && |v0| >= 4
    ensures Patched(v0, |v0| - 4, EncodeInt(size, 4))[head..] == ProduceHeader(acks, timeout, topic, partition, size)
  {
    HeaderInPieces([], acks, timeout, topic, partition, 0);
    hide EncodeInt, KStringOctets;
  }

  lemma HeaderStillFirst(b: Buffer, head: nat, first: nat, room: nat, v: seq<byte>, messages: seq<byte>)
    requires Filled(b, head, first, room, v, messages)
    ensures b.HeaderFirst(head)
  {
    hide Gather, TotalSize;
    assert forall i :: 2 <= i < |b.iov| ==> b.iov[i] == b.iov[2..][i - 2];
    assert b.iov[1] == b.iov[..2][1] && b.iov[0] == b.iov[..2][0];
  }

  datatype Config = Config(clientId: KString, apiVersion: int, acks: int, timeout: int, topic: KString, partition: int,
                           batchNum: nat, maxMsgSize: nat, codec: int)

  /** The most messages one request takes: the batch size, and what the vector stack holds. */
  function Msgcnt(queued: nat, batchNum: nat): (n: nat)
    ensures 1 + 4 * n <= PAYLOAD_IOV_MAX
    ensures n == if queued > 255 && batchNum > 255 then 254 else if queued < batchNum then queued else batchNum
  {
    var n := if queued < batchNum then queued else batchNum;
    if 1 + 4 * n > PAYLOAD_IOV_MAX then PAYLOAD_IOV_MAX / 4 - 1 else n
  }

  /** The message set of a batch, and the size its request declares for it. */
  ghost function Sent(batch: seq<Rkm>, codec: int, compress: seq<byte> -> Option<seq<byte>>): (seq<byte>, int) {
    if codec != 0 && compress(SetOctets(batch)).Some? then
      var whole := Octets(Wrapper(codec, compress(SetOctets(batch)).value));
      (whole, |whole|)
    else (SetOctets(batch), SetSize(batch))
  }

  /** The compressor takes the batch. */
  predicate Compressed(batch: seq<Rkm>, codec: int, compress: seq<byte> -> Option<seq<byte>>) {
    codec != 0 && compress(SetOctets(batch)).Some?
  }

  /** MessageSetSize is the real length exactly when the set is compressed, or no NULL payload has a length. */
  lemma SentSizeExact(batch: seq<Rkm>, codec: int, compress: seq<byte> -> Option<seq<byte>>)
    requires AllOk(batch)
    ensures var (messages, size) := Sent(batch, codec, compress);
      size == |messages| <==> Compressed(batch, codec, compress)
                              || forall i :: 0 <= i < |batch| && batch[i].payload.None? ==> batch[i].len == 0
  {
    hide SetOctets, SetSize;
    SetSizeExact(batch);
  }

  /** The raw octets the compressor is given are those of the batch. */
  lemma RawSet(b: Buffer, head: nat, first: nat, room: nat, v0: seq<byte>, messages: seq<byte>)
    requires Filled(b, head, first, room, v0, messages)
    ensures |b.iov| >= 2 && AllBelow(b.iov[2..], b.buf.Length) && Gather(b.buf[..], b.iov[2..]) == messages
  {
    Checkpoint(b, head, first, room, v0, messages);
    assert b.iov == b.iov[..2] + b.iov[2..];
    assert forall i :: 0 <= i < |b.iov| - 2 ==> b.iov[2..][i] == b.iov[i + 2];
    hide Gather, TotalSize;
    GatherConcat(b.buf[..], b.iov[..2], b.iov[2..]);
    var a, x := Gather(b.buf[..], b.iov[..2]), Gather(b.buf[..], b.iov[2..]);
    assert (a + x)[|a|..] == x && (v0 + messages)[|v0|..] == messages;
  }

  method Compress(b: Buffer, c: Config, compress: seq<byte> -> Option<seq<byte>>, counted: int, ghost head: nat, first: nat,
                  ghost room: nat, ghost total: nat, ghost v0: seq<byte>, ghost batch: seq<Rkm>) returns (size: int)
    requires room < total && Filled(b, head, first, room, v0, SetOctets(batch)) && counted == SetSize(batch)
    requires b.buf.Length >= first + COPIED * total && 2 + 4 * total <= b.iovCnt
    requires forall s :: compress(s).Some? ==> |compress(s).value| < INT32_MAX
    modifies b`buf, b`wof, b`crc, b`crcOn, b`iov, b`wofInit, b.buf
    ensures b.buf == old(b.buf) && Filled(b, head, first, 0, v0, Sent(batch, c.codec, compress).0)
    ensures size == Sent(batch, c.codec, compress).1
  {
    hide Filled, Gather, AllBelow, SetOctets, SetSize, Octets, Wrapper;
    size := counted;
    RawSet(b, head, first, room, v0, SetOctets(batch));
    if c.codec != 0 {
      var result := compress(Gather(b.buf[..], b.iov[2..]));
      if result.Some? {
        size := ReplaceByWrapper(b, c.codec, result.value, head, first, room, total, v0, SetOctets(batch));
        NoMore(b, head, first, total - 1, v0, Octets(Wrapper(c.codec, result.value)));
        return;
      }
    }
    NoMore(b, head, first, room, v0, SetOctets(batch));
  }

  lemma NoMore(b: Buffer, head: nat, first: nat, room: nat, v0: seq<byte>, messages: seq<byte>)
    requires Filled(b, head, first, room, v0, messages)
    ensures Filled(b, head, first, 0, v0, messages)
  {
  }

  /**
   rd_kafka_broker_produce_toppar, up to the enqueuing: `n` messages leave the queue, and `b` is
   their request, unless not even the first message fits.
   */
  method ProduceToppar(xmit: seq<Rkm>, c: Config, compress: seq<byte> -> Option<seq<byte>>) returns (n: nat, b: Buffer?)
    requires AllOk(xmit) && xmit != [] && c.batchNum > 0
    requires forall s :: compress(s).Some? ==> |compress(s).value| < INT32_MAX
    ensures n <= |xmit| && (b == null <==> n == 0)
    ensures Greedy(xmit, Msgcnt(|xmit|, c.batchNum), c.maxMsgSize, n)
    ensures b != null ==> fresh(b) && fresh(b.buf) && b.Valid() && b.len == |b.View()|
    ensures b != null ==> var (messages, size) := Sent(xmit[..n], c.codec, compress);
      && b.View() == RequestHeader(b.len - 4, 0, c.apiVersion, 0, c.clientId)
                  + (ProduceHeader(c.acks, c.timeout, c.topic, c.partition, size) + messages)
      && (size == |messages| <==> Compressed(xmit[..n], c.codec, compress)
                                  || forall i :: 0 <= i < n && xmit[i].payload.None? ==> xmit[i].len == 0)
  {
    hide *;
    var msgcnt := Msgcnt(|xmit|, c.batchNum);
    var first;
    b, first := Begin(c.clientId, c.acks, c.timeout, c.topic, c.partition, msgcnt);
    ghost var head, v0 := 12 + |KStringOctets(c.clientId)|, b.View();
    Prepared(b, msgcnt, head, first);
    var size;
    n, size := FillSet(b, xmit, msgcnt, c.maxMsgSize, head, first, v0);
    if n == 0 {
      b := null;
      return;
    }
    size := Compress(b, c, compress, size, head, first, msgcnt - n, msgcnt, v0, xmit[..n]);
    Complete(b, c, size, head, first, v0, Sent(xmit[..n], c.codec, compress).0);
    FrontOk(xmit, n);
    SentSizeExact(xmit[..n], c.codec, compress);
    assert forall i :: 0 <= i < n ==> xmit[..n][i] == xmit[i];
  }

  lemma FrontOk(ms: seq<Rkm>, n: nat)
    requires AllOk(ms) && n <= |ms|
    ensures AllOk(ms[..n])
  {
  }

  lemma Prepared(b: Buffer, msgcnt: nat, head: nat, first: nat)
    requires Begun(b, msgcnt, head, first) && head > 0
    ensures Filled(b, head, first, msgcnt, b.View(), [])
    ensures b.buf.Length >= first + COPIED * msgcnt && 2 + 4 * msgcnt <= b.iovCnt
  {
    hide Gather, TotalSize;
    HeadSize(b.iov, head, first);
    assert b.iov[..2] == b.iov && b.iov[2..] == [];
    Emptied(b.View());
  }

  lemma FilledSizes(b: Buffer, head: nat, first: nat, v: seq<byte>, messages: seq<byte>)
    requires Filled(b, head, first, 0, v, messages)
    ensures first >= 4 && |v| == first && b.Building() && b.Pending() == [] && !b.crcOn && b.View() == v + messages
  {
    hide Gather, TotalSize, AllBelow, AllAbove;
  }

  lemma TakeOff(v: seq<byte>, messages: seq<byte>, head: nat)
    requires head <= |v|
    ensures (v + messages)[head..] == v[head..] + messages
  {
  }

  lemma HeaderIsValid(b: Buffer, head: nat)
    requires b.HeaderFirst(head)
    ensures b.Valid()
  {
    hide Gather, TotalSize, AllBelow, AllAbove;
  }

  /** MessageSetSize, the request header and Size. */
  method Complete(b: Buffer, c: Config, size: int, ghost head: nat, first: nat, ghost v0: seq<byte>,
                  ghost messages: seq<byte>)
    requires head == 12 + |KStringOctets(c.clientId)| && Filled(b, head, first, 0, v0, messages)
    requires head <= |v0| && v0[head..] == ProduceHeader(c.acks, c.timeout, c.topic, c.partition, 0)
    modifies b`buf, b`wof, b`crc, b`len, b.buf
    ensures b.Valid() && b.len == |b.View()| && b.buf == old(b.buf)
    ensures b.View() == RequestHeader(b.len - 4, 0, c.apiVersion, 0, c.clientId)
                        + (ProduceHeader(c.acks, c.timeout, c.topic, c.partition, size) + messages)
  {
    hide *;
    FilledSizes(b, head, first, v0, messages);
    PatchSetSize(b, size, head, first, 0, v0, messages);
    SetSizePatched(v0, head, c.acks, c.timeout, c.topic, c.partition, size);
    ghost var v := Patched(v0, first - 4, EncodeInt(size, 4));
    HeaderStillFirst(b, head, first, 0, v, messages);
    FilledSizes(b, head, first, v, messages);
    TakeOff(v, messages, head);
    b.FinalizeRequest(0, c.apiVersion, c.clientId);
    HeaderIsValid(b, head);
  }
}
