/**
 What a reader of message sets finds in the message set of a Produce request, compressed or not,
 before and after the broker has given the messages their offsets.
 */
module ProduceRoundTrip {
  import opened Bytes
  import opened Message
  import opened MessageSet
  import opened MessageRoundTrip
  import Crc32
  import WriteBuffer
  import Produce

  // ----- One message, whatever size its header declares

  predicate FieldsFit(m: Message) {
    FitsInt(m.offset, 8) && FitsInt(m.attributes, 1) && KBytesFit(m.key) && KBytesFit(m.value)
  }

  function Declared(size: int): int { DecodeInt(EncodeInt(size, 4)) }

  lemma ReadFramedHeader(data: seq<byte>, of: nat, m: Message, size: int)
    requires At(data, of, Framed(m, size)) && FieldsFit(m)
    ensures ReadHeader(data, of) == Got(Header(m.offset, Declared(size), m.attributes), of + 18)
  {
    var f := Framed(m, size);
    FramedParts(m, size);
    BodyParts(m, size);
    hide EncodeInt, DecodeInt, FitsInt, Framed, KBytesFit, KBytesOctets, KBytesSize;
    AtPart(data, of, f, 0, 8);
    AtPart(data, of, f, 8, 12);
    AtPart(data, of, f, 17, 18);
    assert f[0..8] == f[..8];
    ReadIntAt(data, of, m.offset, 8);
    ReadIntAt(data, of + 17, m.attributes, 1);
  }

  lemma ReadFramedRest(data: seq<byte>, of: nat, m: Message, size: int)
    requires At(data, of, Framed(m, size)) && FieldsFit(m)
    ensures of + 18 + KBytesSize(m.key) <= |data|
    ensures of + |Framed(m, size)| == of + 18 + KBytesSize(m.key) + KBytesSize(m.value)
    ensures ReadBytes(data, of + 18) == Got(m.key, of + 18 + KBytesSize(m.key))
    ensures ReadBytes(data, of + 18 + KBytesSize(m.key)) == Got(m.value, of + |Framed(m, size)|)
  {
    var f, k := Framed(m, size), KBytesSize(m.key);
    BodyParts(m, size);
    hide EncodeInt, DecodeInt, FitsInt, Framed, KBytesFit, KBytesOctets, ReadBytes;
    AtPart(data, of, f, 18, 18 + k);
    ReadBytesAt(data, of + 18, m.key);
    AtPart(data, of, f, 18 + k, |f|);
    assert f[18 + k..|f|] == f[18 + k..];
    ReadBytesAt(data, of + 18 + k, m.value);
  }

  /** It is read unless its header declares more octets than there are. */
  lemma ReadFramed(data: seq<byte>, of: nat, m: Message, size: int)
    requires At(data, of, Framed(m, size)) && FieldsFit(m)
    ensures |Framed(m, size)| >= 18
    ensures ReadEntry(data, of) ==
      if Wrapped(Declared(size) - 6) > |data| - (of + 18) then Short
      else Got(Entry(Header(m.offset, Declared(size), m.attributes), m.key, m.value), of + |Framed(m, size)|)
  {
    hide *;
    FramedParts(m, size);
    ReadFramedHeader(data, of, m, size);
    ReadFramedRest(data, of, m, size);
    EntryFrom(data, of, Header(m.offset, Declared(size), m.attributes), m.key, of + 18 + KBytesSize(m.key), m.value,
              of + |Framed(m, size)|);
  }

  lemma EntryFrom(data: seq<byte>, of: nat, h: Header, key: KBytes, middle: nat, value: KBytes, end: nat)
    requires of + 18 <= middle <= end && middle <= |data| && ReadHeader(data, of) == Got(h, of + 18)
    requires ReadBytes(data, of + 18) == Got(key, middle) && ReadBytes(data, middle) == Got(value, end)
    ensures ReadEntry(data, of) ==
      if Wrapped(h.messageSize - 6) > |data| - (of + 18) then Short else Got(Entry(h, key, value), end)
  {
    hide ReadHeader, ReadBytes, Wrapped;
  }

  // ----- The messages of a batch, with offsets

  /** A message of a batch, once it has an offset. */
  function WithOffset(m: Produce.Rkm, offset: int): Message { Message(offset, 0, 0, m.key, m.payload) }

  function Frame(m: Produce.Rkm, offset: int): (s: seq<byte>)
    ensures |s| == 12 + WithOffset(m, offset).Size()
  {
    Framed(WithOffset(m, offset), WriteBuffer.DeclaredSize(WithOffset(m, offset), m.len))
  }

  /** The set of a batch whose messages have been given offsets. */
  function Numbered(batch: seq<Produce.Rkm>, offsets: seq<int>): seq<byte>
    requires |batch| == |offsets|
  {
    if batch == [] then [] else Frame(batch[0], offsets[0]) + Numbered(batch[1..], offsets[1..])
  }

  lemma PatchedFront(a: seq<byte>, b: seq<byte>, rest: seq<byte>)
    requires |a| == |b|
    ensures |a| <= |a + rest| && WriteBuffer.Patched(a + rest, 0, b) == b + rest
  {
  }

  lemma FramedFrom(m: Message, size: int)
    ensures |Framed(m, size)| >= 8
    ensures Framed(m, size)[8..] == EncodeInt(size, 4) + Crc32.CrcOctets(Crc32.Crc(Body(m))) + Body(m)
    ensures Framed(m, size) == EncodeInt(m.offset, 8) + Framed(m, size)[8..]
  {
    hide EncodeInt, Crc32.Crc, Crc32.CrcOctets, Body;
  }

  lemma BodyOf(m: Produce.Rkm, offset: int)
    ensures Body(WithOffset(m, offset)) == Body(WithOffset(m, 0))
    ensures WriteBuffer.DeclaredSize(WithOffset(m, offset), m.len) == WriteBuffer.DeclaredSize(WithOffset(m, 0), m.len)
  {
    hide EncodeInt, KBytesOctets, KBytesSize;
  }

  lemma FrameIs(m: Produce.Rkm, offset: int)
    ensures Frame(m, offset) == Framed(WithOffset(m, offset), WriteBuffer.DeclaredSize(WithOffset(m, offset), m.len))
    ensures WithOffset(m, offset).offset == offset && m.Octets() == Frame(m, 0)
  {
    hide Framed, WriteBuffer.DeclaredSize;
  }

  lemma FrameParts(m: Produce.Rkm, offset: int)
    ensures |Frame(m, 0)| >= 8 && Frame(m, offset) == EncodeInt(offset, 8) + Frame(m, 0)[8..] && Frame(m, 0) == m.Octets()
    ensures m.Octets() == EncodeInt(0, 8) + Frame(m, 0)[8..]
  {
    hide *;
    FrameIs(m, offset);
    FrameIs(m, 0);
    BodyOf(m, offset);
    var size := WriteBuffer.DeclaredSize(WithOffset(m, 0), m.len);
    FramedFrom(WithOffset(m, offset), size);
    FramedFrom(WithOffset(m, 0), size);
  }

  /** Giving a message its offset is filling in the eight octets of that field: the Crc, for one, stays. */
  lemma NumberingIsPatching(m: Produce.Rkm, offset: int)
    ensures |m.Octets()| >= 8 && Frame(m, offset) == WriteBuffer.Patched(m.Octets(), 0, EncodeInt(offset, 8))
  {
    hide Frame, EncodeInt, WriteBuffer.Patched;
    FrameParts(m, offset);
    PatchedFront(EncodeInt(0, 8), EncodeInt(offset, 8), Frame(m, 0)[8..]);
  }

  lemma {:induction false} SetFirst(batch: seq<Produce.Rkm>)
    requires batch != []
    ensures Produce.SetOctets(batch) == batch[0].Octets() + Produce.SetOctets(batch[1..])
  {
    hide Produce.Rkm.Octets;
    var n := |batch| - 1;
    if n == 0 {
      assert Produce.SetOctets(batch[..0]) == [] && Produce.SetOctets(batch[1..]) == [];
    } else {
      SetFirst(batch[..n]);
      assert batch[..n][1..] == batch[1..][..n - 1];
    }
  }

  function Zeros(n: nat): seq<int> { seq(n, _ => 0) }

  /** Before that every offset is 0. */
  lemma {:induction false} SetIsNumbered(batch: seq<Produce.Rkm>)
    ensures Produce.SetOctets(batch) == Numbered(batch, Zeros(|batch|))
  {
    hide Frame, Framed;
    if batch != [] {
      SetFirst(batch);
      SetIsNumbered(batch[1..]);
      FrameParts(batch[0], 0);
      assert Zeros(|batch|)[1..] == Zeros(|batch| - 1);
    }
  }

  // ----- What a reader finds

  /** Within the limits of rd_kafka_msg_new0: message.max.bytes is at most 1000000000. */
  predicate Sendable(m: Produce.Rkm) {
    m.Ok() && (if m.key.Some? then |m.key.value| else 0) + m.len <= 1_000_000_000
  }

  predicate AllSendable(batch: seq<Produce.Rkm>) {
    forall i :: 0 <= i < |batch| ==> Sendable(batch[i])
  }

  predicate OffsetsFit(offsets: seq<int>) {
    forall i :: 0 <= i < |offsets| ==> FitsInt(offsets[i], 8)
  }

  /** A NULL payload that was given more length than all messages behind it have octets: the reader stops there. */
  predicate Stops(batch: seq<Produce.Rkm>, offsets: seq<int>, i: nat)
    requires i < |batch| == |offsets|
  {
    batch[i].payload.None? && batch[i].len > |Numbered(batch[i + 1..], offsets[i + 1..])|
  }

  function MessageOp(m: Produce.Rkm, offset: int): Op { Fetch(offset, m.key, m.payload) }

  /** The ops are those of the batch, in order, up to the first message that stops the reader. */
  ghost predicate UpToStop(ops: seq<Op>, batch: seq<Produce.Rkm>, offsets: seq<int>)
    requires |batch| == |offsets|
  {
    && |ops| <= |batch|
    && (forall i :: 0 <= i < |ops| ==> ops[i] == MessageOp(batch[i], offsets[i]) && !Stops(batch, offsets, i))
    && (|ops| < |batch| ==> Stops(batch, offsets, |ops|))
  }

  lemma DeclaredIs(m: Produce.Rkm, offset: int)
    requires Sendable(m)
    ensures var size := WriteBuffer.DeclaredSize(WithOffset(m, offset), m.len);
      Wrapped(Declared(size) - 6) == KBytesSize(m.key) + 4 + m.len
    ensures KBytesFit(m.key) && KBytesFit(m.payload)
  {
    Widths();
    IntRoundTrip(WriteBuffer.DeclaredSize(WithOffset(m, offset), m.len), 4);
    hide EncodeInt, DecodeInt, Pow256;
  }

  lemma PlainFits(m: Produce.Rkm, offset: int)
    requires Sendable(m) && FitsInt(offset, 8)
    ensures FieldsFit(WithOffset(m, offset))
  {
    Widths();
    DeclaredIs(m, offset);
    hide Sendable, KBytesFit;
  }

  /** The first message of what is left. */
  lemma ReadFrame(data: seq<byte>, of: nat, m: Produce.Rkm, offset: int, rest: seq<byte>)
    requires Sendable(m) && FitsInt(offset, 8) && of <= |data| && data[of..] == Frame(m, offset) + rest
    ensures of + |Frame(m, offset)| <= |data| && data[of + |Frame(m, offset)|..] == rest && |Frame(m, offset)| >= 18
    ensures var e := ReadEntry(data, of);
      if m.payload.None? && m.len > |rest| then e == Short
      else e.Got? && e.next == of + |Frame(m, offset)|
           && e.value.header.offset == offset && e.value.header.attributes == 0
           && e.value.key == m.key && e.value.value == m.payload
  {
    var f, size := Frame(m, offset), WriteBuffer.DeclaredSize(WithOffset(m, offset), m.len);
    assert f == Framed(WithOffset(m, offset), size);
    assert |f| == 18 + KBytesSize(m.key) + KBytesSize(m.payload);
    assert m.payload.Some? ==> m.len == |m.payload.value|;
    hide Framed, Frame, FitsInt, ReadEntry, Declared, WriteBuffer.DeclaredSize;
    PlainFits(m, offset);
    DeclaredIs(m, offset);
    Front(data, of, f, rest);
    ReadFramed(data, of, WithOffset(m, offset), size);
    hide Wrapped;
  }

  lemma Front(data: seq<byte>, of: nat, f: seq<byte>, rest: seq<byte>)
    requires of <= |data| && data[of..] == f + rest
    ensures of + |f| + |rest| == |data| && At(data, of, f) && data[of + |f|..] == rest
  {
    assert (f + rest)[..|f|] == f && (f + rest)[|f|..] == rest;
    assert data[of..][..|f|] == data[of..of + |f|] && data[of..][|f|..] == data[of + |f|..];
  }

  lemma UpToStopFirst(op: Op, ops: seq<Op>, batch: seq<Produce.Rkm>, offsets: seq<int>)
    requires |batch| == |offsets| && batch != [] && op == MessageOp(batch[0], offsets[0]) && !Stops(batch, offsets, 0)
    requires UpToStop(ops, batch[1..], offsets[1..])
    ensures UpToStop([op] + ops, batch, offsets)
  {
    hide Numbered;
    forall i | 0 <= i < |batch| - 1
      ensures Stops(batch, offsets, i + 1) == Stops(batch[1..], offsets[1..], i)
    {
      assert batch[1..][i + 1..] == batch[i + 2..] && offsets[1..][i + 1..] == offsets[i + 2..];
    }
    hide Stops;
    var all := [op] + ops;
    forall i | 0 <= i < |all|
      ensures all[i] == MessageOp(batch[i], offsets[i]) && !Stops(batch, offsets, i)
    {
      if i > 0 {
        var j := i - 1;
        assert ops[j] == MessageOp(batch[1..][j], offsets[1..][j]) && !Stops(batch[1..], offsets[1..], j);
        assert Stops(batch, offsets, j + 1) == Stops(batch[1..], offsets[1..], j);
      }
    }
    if |ops| < |batch| - 1 {
      var j := |ops|;
      assert Stops(batch[1..], offsets[1..], j);
      assert Stops(batch, offsets, j + 1) == Stops(batch[1..], offsets[1..], j);
    }
  }

  lemma StopsFirst(batch: seq<Produce.Rkm>, offsets: seq<int>)
    requires |batch| == |offsets| && batch != [] && Stops(batch, offsets, 0)
    ensures UpToStop([], batch, offsets)
  {
  }

  /** Keys and payloads come back in order, with the offsets given. */
  lemma {:induction false} NumberedSeen(data: seq<byte>, of: nat, batch: seq<Produce.Rkm>, offsets: seq<int>,
                                        z: Decompressor, fuel: nat)
    requires |batch| == |offsets| && AllSendable(batch) && OffsetsFit(offsets) && fuel >= |batch|
    requires of <= |data| && data[of..] == Numbered(batch, offsets)
    ensures UpToStop(Seen(data, of, z, fuel), batch, offsets)
    decreases |batch|
  {
    hide FitsInt, Frame, ReadEntry, Sendable, UpToStop;
    if batch == [] {
      UpToNothing(offsets);
    } else {
      var rest := Numbered(batch[1..], offsets[1..]);
      ReadFrame(data, of, batch[0], offsets[0], rest);
      if Stops(batch, offsets, 0) {
        StopsFirst(batch, offsets);
      } else {
        var next := of + |Frame(batch[0], offsets[0])|;
        NumberedSeen(data, next, batch[1..], offsets[1..], z, fuel - 1);
        UpToStopFirst(MessageOp(batch[0], offsets[0]), Seen(data, next, z, fuel - 1), batch, offsets);
      }
    }
  }

  lemma UpToNothing(offsets: seq<int>)
    requires offsets == []
    ensures UpToStop([], [], offsets)
  {
  }

  // ----- The set a Produce request carries

  lemma WholeFits(codec: int, offset: int, packed: seq<byte>)
    requires codec in {1, 2} && FitsInt(offset, 8) && |packed| < INT32_MAX
    ensures var m := Message(offset, 0, codec, None, Some(packed));
      FieldsFit(m) && Wrapped(Declared(m.Size()) - 6) <= |Octets(m)| - 18
  {
    Widths();
    var m := Message(offset, 0, codec, None, Some(packed));
    var size := m.Size();
    if size <= INT32_MAX {
      IntRoundTrip(size, 4);
    } else {
      Overflown(size);
    }
    hide EncodeInt, DecodeInt, Framed;
  }

  /** A size just above the 32-bit range is read as a negative one. */
  lemma Overflown(size: nat)
    requires INT32_MAX < size < 0x1_0000_0000
    ensures DecodeInt(EncodeInt(size, 4)) == size - 0x1_0000_0000
  {
    Widths();
    SmallMod(size, 0x1_0000_0000);
    BigEndianRoundTrip(size, 4);
  }

  /** A set packed into one message is seen when the codec gives it back, whatever the offset of that message. */
  lemma PackedSeen(codec: int, offset: int, packed: seq<byte>, z: Decompressor, fuel: nat)
    requires codec in {1, 2} && FitsInt(offset, 8) && |packed| < INT32_MAX && z(codec, packed).Some? && fuel > 0
    ensures Seen(Octets(Message(offset, 0, codec, None, Some(packed))), 0, z, fuel)
         == Seen(z(codec, packed).value, 0, z, fuel - 1)
  {
    var m := Message(offset, 0, codec, None, Some(packed));
    var data := Octets(m);
    hide Octets, Framed, FitsInt, FieldsFit, Wrapped, Declared, ReadEntry;
    WholeFits(codec, offset, packed);
    assert data[0..0 + |data|] == data;
    WholeIs(m);
    ReadFramed(data, 0, m, m.Size());
    assert Seen(data, |data|, z, fuel - 1) == [];
  }

  lemma WholeIs(m: Message)
    ensures Octets(m) == Framed(m, m.Size())
  {
  }

  /** Without lengths on NULL payloads nothing stops a reader. */
  lemma AllSeen(ops: seq<Op>, batch: seq<Produce.Rkm>, offsets: seq<int>)
    requires |batch| == |offsets| && UpToStop(ops, batch, offsets)
    requires forall i :: 0 <= i < |batch| && batch[i].payload.None? ==> batch[i].len == 0
    ensures |ops| == |batch|
    ensures forall i :: 0 <= i < |batch| ==> ops[i] == Fetch(offsets[i], batch[i].key, batch[i].payload)
  {
    hide Numbered;
  }

  /** A compressed set is one message whose attributes name the codec; another set is sent as it is. */
  lemma SentIs(batch: seq<Produce.Rkm>, codec: int, compress: seq<byte> -> Option<seq<byte>>)
    ensures var whole := Produce.SetOctets(batch);
      Produce.Sent(batch, codec, compress).0 ==
        if codec != 0 && compress(whole).Some? then Octets(Message(0, 0, codec, None, Some(compress(whole).value)))
        else whole
  {
    hide Octets, Produce.SetOctets, Produce.SetSize;
  }

  lemma FromStart(s: seq<byte>)
    ensures s[0..] == s && FitsInt(0, 8)
  {
    Widths();
  }

  lemma ZerosFit(n: nat)
    ensures |Zeros(n)| == n && OffsetsFit(Zeros(n)) && forall i :: 0 <= i < n ==> Zeros(n)[i] == 0
  {
    Widths();
  }

  lemma SetSeen(batch: seq<Produce.Rkm>, z: Decompressor, fuel: nat)
    requires AllSendable(batch) && fuel >= |batch|
    ensures UpToStop(Seen(Produce.SetOctets(batch), 0, z, fuel), batch, Zeros(|batch|))
  {
    var whole := Produce.SetOctets(batch);
    SetIsNumbered(batch);
    FromStart(whole);
    ZerosFit(|batch|);
    hide *;
    NumberedSeen(whole, 0, batch, Zeros(|batch|), z, fuel);
  }

  /**
   What ProduceToppar sends, read with a codec that gives back what the compressor took: each message of
   the batch, its key and its payload, in order; up to the first NULL payload with more length
   than there are octets behind it.
   */
  lemma SentSeen(batch: seq<Produce.Rkm>, codec: int, compress: seq<byte> -> Option<seq<byte>>, z: Decompressor,
                 fuel: nat)
    requires AllSendable(batch) && codec in {0, 1, 2} && fuel > |batch|
    requires forall s :: compress(s).Some? ==> |compress(s).value| < INT32_MAX
    requires var whole := Produce.SetOctets(batch);
      codec != 0 && compress(whole).Some? ==> z(codec, compress(whole).value) == Some(whole)
    ensures UpToStop(Seen(Produce.Sent(batch, codec, compress).0, 0, z, fuel), batch, Zeros(|batch|))
  {
    hide *;
    var whole := Produce.SetOctets(batch);
    SentIs(batch, codec, compress);
    if codec != 0 && compress(whole).Some? {
      FromStart(whole);
      PackedSeen(codec, 0, compress(whole).value, z, fuel);
      SetSeen(batch, z, fuel - 1);
    } else {
      SetSeen(batch, z, fuel);
    }
  }

  /** rd_kafka_msg_new0 gives a NULL payload length 0 (rdkafka_msg.c:72). */
  predicate Lengths(batch: seq<Produce.Rkm>) {
    forall i :: 0 <= i < |batch| && batch[i].payload.None? ==> batch[i].len == 0
  }

  /** So of the messages an application makes, each is found in the request. */
  lemma SentRead(batch: seq<Produce.Rkm>, codec: int, compress: seq<byte> -> Option<seq<byte>>, z: Decompressor,
                 fuel: nat)
    requires AllSendable(batch) && Lengths(batch) && codec in {0, 1, 2} && fuel > |batch|
    requires forall s :: compress(s).Some? ==> |compress(s).value| < INT32_MAX
    requires var whole := Produce.SetOctets(batch);
      codec != 0 && compress(whole).Some? ==> z(codec, compress(whole).value) == Some(whole)
    ensures var ops := Seen(Produce.Sent(batch, codec, compress).0, 0, z, fuel);
      |ops| == |batch| && forall i :: 0 <= i < |batch| ==> ops[i] == Fetch(0, batch[i].key, batch[i].payload)
  {
    hide Produce.SetOctets, Produce.Sent, Seen, UpToStop, AllSendable;
    SentSeen(batch, codec, compress, z, fuel);
    ZerosFit(|batch|);
    AllSeen(Seen(Produce.Sent(batch, codec, compress).0, 0, z, fuel), batch, Zeros(|batch|));
  }

  lemma KStringSize(s: WriteBuffer.KString)
    ensures |WriteBuffer.KStringOctets(s)| == 2 + if s.Some? then |s.value| else 0
  {
  }

  /** The message set lies behind both headers of the request. */
  lemma SetBehindHeaders(view: seq<byte>, size: int, corrId: int, setSize: int, c: Produce.Config, messages: seq<byte>)
    requires view == WriteBuffer.RequestHeader(size, 0, c.apiVersion, corrId, c.clientId)
      + (Produce.ProduceHeader(c.acks, c.timeout, c.topic, c.partition, setSize) + messages)
    ensures var at := 38 + (if c.clientId.Some? then |c.clientId.value| else 0)
                      + if c.topic.Some? then |c.topic.value| else 0;
      at <= |view| && view[at..] == messages
  {
    hide EncodeInt, WriteBuffer.KStringOctets;
    KStringSize(c.clientId);
    KStringSize(c.topic);
  }

  // ----- And what the handler of a Fetch response then delivers

  ghost predicate Growing(offsets: seq<int>, from: int) {
    && (forall i :: 0 <= i < |offsets| ==> from <= offsets[i])
    && forall i, j :: 0 <= i < j < |offsets| ==> offsets[i] < offsets[j]
  }

  /** The messages of a batch as the application receives them. */
  function Received(batch: seq<Produce.Rkm>, offsets: seq<int>): seq<Op>
    requires |batch| == |offsets|
  {
    seq(|batch|, i requires 0 <= i < |batch| => Fetch(offsets[i], batch[i].key, batch[i].payload))
  }

  lemma ReceivedAre(ops: seq<Op>, batch: seq<Produce.Rkm>, offsets: seq<int>, d: Delivery)
    requires |ops| == |batch| == |offsets| && OffsetsFit(offsets) && Growing(offsets, d.fetchOffset)
    requires forall i :: 0 <= i < |batch| ==> ops[i] == Fetch(offsets[i], batch[i].key, batch[i].payload)
    ensures ops == Received(batch, offsets) && Taken(ops, d).ops == d.ops + ops
  {
    OffsetsTop(offsets);
    hide OffsetsFit, Taken;
    AllTaken(ops, d);
  }

  /** With growing offsets, none early, keys and payloads arrive in order. */
  lemma NumberedHandled(batch: seq<Produce.Rkm>, offsets: seq<int>, d: Delivery, z: Decompressor, fuel: nat)
    requires |batch| == |offsets| && AllSendable(batch) && Lengths(batch) && fuel >= |batch|
    requires OffsetsFit(offsets) && Growing(offsets, d.fetchOffset)
    ensures Handled(Numbered(batch, offsets), 0, d, z, fuel).ops == d.ops + Received(batch, offsets)
  {
    var data := Numbered(batch, offsets);
    var ops := Seen(data, 0, z, fuel);
    hide Numbered, Seen, Handled, UpToStop, AllSendable, OffsetsFit, Growing, Received, Taken;
    FromStart(data);
    NumberedSeen(data, 0, batch, offsets, z, fuel);
    AllSeen(ops, batch, offsets);
    HandledIsTaken(data, 0, d, z, fuel);
    ReceivedAre(ops, batch, offsets, d);
  }

  lemma OffsetsTop(offsets: seq<int>)
    requires OffsetsFit(offsets)
    ensures forall i :: 0 <= i < |offsets| ==> offsets[i] <= INT64_MAX
  {
    Widths();
  }

  /** A broker that numbers the messages inside a compressed one changes nothing about that. */
  lemma PackedHandled(batch: seq<Produce.Rkm>, offsets: seq<int>, codec: int, offset: int, packed: seq<byte>, d: Delivery,
                      z: Decompressor, fuel: nat)
    requires |batch| == |offsets| && AllSendable(batch) && Lengths(batch) && fuel > |batch|
    requires OffsetsFit(offsets) && Growing(offsets, d.fetchOffset)
    requires codec in {1, 2} && FitsInt(offset, 8) && |packed| < INT32_MAX
    requires z(codec, packed) == Some(Numbered(batch, offsets))
    ensures Handled(Octets(Message(offset, 0, codec, None, Some(packed))), 0, d, z, fuel).ops
         == d.ops + Received(batch, offsets)
  {
    hide *;
    var data := Octets(Message(offset, 0, codec, None, Some(packed)));
    PackedSeen(codec, offset, packed, z, fuel);
    HandledIsTaken(data, 0, d, z, fuel);
    HandledIsTaken(Numbered(batch, offsets), 0, d, z, fuel - 1);
    NumberedHandled(batch, offsets, d, z, fuel - 1);
  }

  lemma {:induction false} LaterZeros(ops: seq<Op>, d: Delivery)
    requires d.fetchOffset > 0 && forall i :: 0 <= i < |ops| ==> ops[i].offset == 0
    ensures Taken(ops, d) == d
  {
    if ops != [] { LaterZeros(ops[1..], d); }
  }

  /**
   Before it is numbered a batch is not for the handler: every offset is 0, so it takes the first
   message at most, and all of them exactly when there is no second one and 0 is not early.
   */
  lemma SentHandled(batch: seq<Produce.Rkm>, codec: int, compress: seq<byte> -> Option<seq<byte>>, d: Delivery,
                    z: Decompressor, fuel: nat)
    requires AllSendable(batch) && Lengths(batch) && batch != [] && codec in {0, 1, 2} && fuel > |batch|
    requires forall s :: compress(s).Some? ==> |compress(s).value| < INT32_MAX
    requires var whole := Produce.SetOctets(batch);
      codec != 0 && compress(whole).Some? ==> z(codec, compress(whole).value) == Some(whole)
    ensures var r := Handled(Produce.Sent(batch, codec, compress).0, 0, d, z, fuel);
      && r.ops == d.ops + (if d.fetchOffset <= 0 then [Fetch(0, batch[0].key, batch[0].payload)] else [])
      && (|r.ops| - |d.ops| == |batch| <==> d.fetchOffset <= 0 && |batch| == 1)
  {
    var ops := Seen(Produce.Sent(batch, codec, compress).0, 0, z, fuel);
    hide Produce.SetOctets, Produce.Sent, Seen, Handled, AllSendable, Lengths;
    SentRead(batch, codec, compress, z, fuel);
    HandledIsTaken(Produce.Sent(batch, codec, compress).0, 0, d, z, fuel);
    if d.fetchOffset <= 0 {
      LaterZeros(ops[1..], Enqueue(ops[0], d));
    } else {
      LaterZeros(ops, d);
    }
  }
}
