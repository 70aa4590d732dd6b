/**
 What rd_kafka_buf_write_Message writes, rd_kafka_messageset_handle reads: whole sets,
 sets cut off anywhere, and sets packed into compressed messages to any depth.
 */
module MessageRoundTrip {
  import opened Bytes
  import opened Message
  import opened MessageSet
  import Crc32

  // ----- One message

  lemma Chunks(a: seq<byte>, b: seq<byte>, c: seq<byte>, d: seq<byte>, e: seq<byte>, f: seq<byte>, g: seq<byte>)
    requires |a| == 8 && |b| == 4 && |c| == 4 && |d| == 1 && |e| == 1
    ensures var o := a + b + c + (d + e + f + g);
      && o[..8] == a && o[8..12] == b && o[17..18] == e
      && o[18..18 + |f|] == f && o[18 + |f|..] == g
  {
  }

  lemma OctetsParts(m: Message)
    ensures var o := Octets(m);
      && o[..8] == EncodeInt(m.offset, 8)
      && o[8..12] == EncodeInt(m.Size(), 4)
      && o[17..18] == EncodeInt(m.attributes, 1)
      && o[18..18 + KBytesSize(m.key)] == KBytesOctets(m.key)
      && o[18 + KBytesSize(m.key)..] == KBytesOctets(m.value)
  {
    hide EncodeInt, KBytesOctets, KBytesSize, Crc32.Crc, Crc32.CrcOctets;
    Chunks(EncodeInt(m.offset, 8), EncodeInt(m.Size(), 4), Crc32.CrcOctets(Crc32.Crc(Body(m))),
           EncodeInt(m.magic, 1), EncodeInt(m.attributes, 1), KBytesOctets(m.key), KBytesOctets(m.value));
  }

  /** `data` holds `part` at `of`. */
  predicate At(data: seq<byte>, of: nat, part: seq<byte>) {
    of + |part| <= |data| && data[of..of + |part|] == part
  }

  lemma AtPart(data: seq<byte>, of: nat, part: seq<byte>, lo: nat, hi: nat)
    requires At(data, of, part) && lo <= hi <= |part|
    ensures At(data, of + lo, part[lo..hi]) && data[of + lo..of + hi] == part[lo..hi]
  {
    var whole := data[of..of + |part|];
    assert forall i :: lo <= i < hi ==> whole[i] == data[of + i];
    assert |part[lo..hi]| == hi - lo;
  }

  lemma ReadIntAt(data: seq<byte>, of: nat, n: int, w: nat)
    requires At(data, of, EncodeInt(n, w)) && w > 0 && FitsInt(n, w)
    ensures ReadInt(data, of, w) == Got(n, of + w)
    ensures DecodeInt(data[of..of + w]) == n
  {
    hide EncodeInt, DecodeInt, FitsInt;
    IntRoundTrip(n, w);
  }

  lemma LengthFits(b: KBytes)
    requires KBytesFit(b)
    ensures FitsInt(if b.Some? then |b.value| else -1, 4)
    ensures KBytesOctets(b)[..4] == EncodeInt(if b.Some? then |b.value| else -1, 4)
    ensures b.Some? ==> KBytesOctets(b)[4..] == b.value
  {
    Widths();
    hide EncodeInt;
  }

  lemma ReadBytesAt(data: seq<byte>, of: nat, b: KBytes)
    requires At(data, of, KBytesOctets(b)) && KBytesFit(b)
    ensures ReadBytes(data, of) == Got(b, of + KBytesSize(b))
  {
    hide EncodeInt, DecodeInt, FitsInt, ReadInt, KBytesOctets;
    LengthFits(b);
    AtPart(data, of, KBytesOctets(b), 0, 4);
    ReadIntAt(data, of, if b.Some? then |b.value| else -1, 4);
    if b.Some? {
      AtPart(data, of, KBytesOctets(b), 4, KBytesSize(b));
    }
  }

  lemma ReadHeaderAt(data: seq<byte>, of: nat, m: Message)
    requires At(data, of, Octets(m)[..18]) && m.Fits()
    ensures ReadHeader(data, of) == Got(Header(m.offset, m.Size(), m.attributes), of + 18)
  {
    hide EncodeInt, DecodeInt, FitsInt, ReadInt, Octets;
    var head := Octets(m)[..18];
    OctetsParts(m);
    AtPart(data, of, head, 0, 8);
    AtPart(data, of, head, 8, 12);
    AtPart(data, of, head, 17, 18);
    assert head[0..8] == Octets(m)[..8] && head[8..12] == Octets(m)[8..12] && head[17..18] == Octets(m)[17..18];
    ReadIntAt(data, of, m.offset, 8);
    ReadIntAt(data, of + 8, m.Size(), 4);
    ReadIntAt(data, of + 17, m.attributes, 1);
  }

  /** A whole message is read back field by field. */
  lemma ReadWhole(data: seq<byte>, of: nat, m: Message)
    requires At(data, of, Octets(m)) && m.Fits()
    ensures ReadEntry(data, of) == Got(Entry(Header(m.offset, m.Size(), m.attributes), m.key, m.value), of + |Octets(m)|)
  {
    hide Octets, KBytesOctets, ReadHeader, ReadBytes;
    OctetsParts(m);
    AtPart(data, of, Octets(m), 0, 18);
    assert Octets(m)[0..18] == Octets(m)[..18];
    ReadHeaderAt(data, of, m);
    AtPart(data, of, Octets(m), 18, 18 + KBytesSize(m.key));
    ReadBytesAt(data, of + 18, m.key);
    AtPart(data, of, Octets(m), 18 + KBytesSize(m.key), |Octets(m)|);
    ReadBytesAt(data, of + 18 + KBytesSize(m.key), m.value);
  }

  /** A message that is cut off, at any octet, is not read at all. */
  lemma ReadCut(data: seq<byte>, of: nat, m: Message)
    requires of < |data| && data[of..] < Octets(m) && m.Fits()
    ensures ReadEntry(data, of) == Short
  {
    hide Octets, ReadBytes;
    if of + 18 <= |data| {
      var n := |data| - of;
      assert data[of..] == Octets(m)[..n];
      assert data[of..of + 18] == data[of..][..18];
      assert Octets(m)[..n][..18] == Octets(m)[..18];
      hide ReadHeader;
      ReadHeaderAt(data, of, m);
    }
  }

  // ----- A set, cut off anywhere

  /** A compressed message stands for the set packed into it. */
  datatype Item = Plain(m: Message) | Packed(offset: int, magic: int, attributes: int, key: KBytes, items: seq<Item>)

  type Compressor = (int, seq<byte>) -> seq<byte>

  function ItemMessage(t: Item, c: Compressor): Message
    decreases t, 1
  {
    match t
    case Plain(m) => m
    case Packed(offset, magic, attributes, key, items) =>
      Message(offset, magic, attributes, key, Some(c(attributes % 4, SetOctets(items, c))))
  }

  function SetOctets(ts: seq<Item>, c: Compressor): seq<byte>
    decreases ts, 2
  {
    if ts == [] then [] else Octets(ItemMessage(ts[0], c)) + SetOctets(ts[1..], c)
  }

  /** Every message fits the wire; attributes name a codec exactly when the item is packed. */
  predicate WellFormed(ts: seq<Item>, c: Compressor)
    decreases ts
  {
    forall t <- ts ::
      && ItemMessage(t, c).Fits()
      && match t
         case Plain(m) => m.attributes % 4 == 0
         case Packed(_, _, attributes, _, items) => attributes % 4 in {1, 2} && WellFormed(items, c)
  }

  /** The messages of a set with all packing peeled off. */
  function Flatten(ts: seq<Item>): seq<Message>
    decreases ts
  {
    if ts == [] then []
    else (match ts[0]
          case Plain(m) => [m]
          case Packed(_, _, _, _, items) => Flatten(items)) + Flatten(ts[1..])
  }

  /** What the application should get: messages not before the fetch offset, which then moves on. */
  function Delivered(ms: seq<Message>, d: Delivery): Delivery {
    if ms == [] then d
    else Delivered(ms[1..], Enqueue(Fetch(ms[0].offset, ms[0].key, ms[0].value), d))
  }

  /** Fuel that lets the handler look at every message of the set. */
  function Cost(ts: seq<Item>): nat
    decreases ts
  {
    if ts == [] then 0
    else 1 + (if ts[0].Packed? then Cost(ts[0].items) else 0) + Cost(ts[1..])
  }

  ghost predicate Inverse(z: Decompressor, c: Compressor) {
    forall codec, octets :: z(codec, c(codec, octets)) == Some(octets)
  }

  lemma {:induction false} DeliveredConcat(a: seq<Message>, b: seq<Message>, d: Delivery)
    ensures Delivered(a + b, d) == Delivered(b, Delivered(a, d))
  {
    hide Enqueue;
    if a == [] {
      assert a + b == b;
    } else {
      assert (a + b)[1..] == a[1..] + b;
      DeliveredConcat(a[1..], b, Enqueue(Fetch(a[0].offset, a[0].key, a[0].value), d));
    }
  }

  /** How many items lie wholly inside the first `n` octets. */
  function WholeItems(ts: seq<Item>, c: Compressor, n: nat): (k: nat)
    ensures k <= |ts|
  {
    if ts == [] then 0
    else
      var size := |Octets(ItemMessage(ts[0], c))|;
      if n < size then 0 else 1 + WholeItems(ts[1..], c, n - size)
  }

  lemma {:induction false} AllItemsWhole(ts: seq<Item>, c: Compressor)
    ensures WholeItems(ts, c, |SetOctets(ts, c)|) == |ts|
  {
    hide Octets, ItemMessage;
    if ts != [] { AllItemsWhole(ts[1..], c); }
  }

  function ItemMessages(t: Item): seq<Message> {
    match t
    case Plain(m) => [m]
    case Packed(_, _, _, _, items) => Flatten(items)
  }

  lemma FlattenFirst(ts: seq<Item>, k: nat)
    requires ts != [] && k < |ts|
    ensures Flatten(ts[..k + 1]) == ItemMessages(ts[0]) + Flatten(ts[1..][..k])
  {
    assert ts[..k + 1][1..] == ts[1..][..k];
  }

  lemma PrefixOfConcat(tail: seq<byte>, a: seq<byte>, b: seq<byte>, n: nat)
    requires n <= |a + b| && tail == (a + b)[..n]
    ensures n < |a| ==> tail < a
    ensures |a| <= n ==> tail[..|a|] == a && tail[|a|..] == b[..n - |a|]
  {
  }

  lemma TailAt(data: seq<byte>, of: nat, part: seq<byte>)
    requires of + |part| <= |data| && data[of..][..|part|] == part
    ensures At(data, of, part) && data[of + |part|..] == data[of..][|part|..]
  {
  }

  lemma DeliveredOne(m: Message, d: Delivery)
    ensures Delivered([m], d) == Enqueue(Fetch(m.offset, m.key, m.value), d)
  {
    assert [m][1..] == [];
  }

  lemma PackedParts(t: Item, c: Compressor)
    requires t.Packed? && WellFormed([t], c)
    ensures WellFormed(t.items, c) && t.attributes % 4 in {1, 2} && Cost([t]) == 1 + Cost(t.items)
    ensures ItemMessage(t, c).attributes == t.attributes
    ensures ItemMessage(t, c).value == Some(c(t.attributes % 4, SetOctets(t.items, c)))
  {
    assert t in [t];
    assert [t][1..] == [];
  }

  lemma WholeSlices(s: seq<byte>, ts: seq<Item>)
    ensures s[0..] == s[..|s|] && ts[..|ts|] == ts
  {
  }

  function EntryOf(m: Message): Entry {
    Entry(Header(m.offset, m.Size(), m.attributes), m.key, m.value)
  }

  lemma PackedEntry(m: Message, d: Delivery, z: Decompressor, fuel: nat, inner: seq<byte>)
    requires fuel > 0 && m.attributes % 4 in {1, 2} && m.value.Some?
    requires z(m.attributes % 4, m.value.value) == Some(inner)
    ensures HandleEntry(EntryOf(m), d, z, fuel) == Handled(inner, 0, d, z, fuel - 1)
  {
    hide Handled, Message.Size;
  }

  lemma InverseAt(z: Decompressor, c: Compressor, codec: int, octets: seq<byte>)
    requires Inverse(z, c)
    ensures z(codec, c(codec, octets)) == Some(octets)
  {
  }

  /** One whole item adds exactly its own messages. */
  lemma {:induction false} ItemHandled(t: Item, d: Delivery, z: Decompressor, c: Compressor, fuel: nat)
    requires WellFormed([t], c) && Inverse(z, c) && fuel >= Cost([t]) && fuel > 0
    ensures HandleEntry(EntryOf(ItemMessage(t, c)), d, z, fuel) == Delivered(ItemMessages(t), d)
    decreases t, 1
  {
    if t.Plain? {
      PlainHandled(t, d, z, c, fuel);
    } else {
      hide *;
      PackedParts(t, c);
      var inner := SetOctets(t.items, c);
      InverseAt(z, c, t.attributes % 4, inner);
      PackedEntry(ItemMessage(t, c), d, z, fuel, inner);
      WholeSlices(inner, t.items);
      SetHandled(inner, 0, t.items, |inner|, d, z, c, fuel - 1);
      AllItemsWhole(t.items, c);
      PackedMessages(t);
    }
  }

  lemma PackedMessages(t: Item)
    requires t.Packed?
    ensures ItemMessages(t) == Flatten(t.items)
  {
  }

  lemma PlainHandled(t: Item, d: Delivery, z: Decompressor, c: Compressor, fuel: nat)
    requires t.Plain? && WellFormed([t], c) && fuel > 0
    ensures HandleEntry(EntryOf(ItemMessage(t, c)), d, z, fuel) == Delivered(ItemMessages(t), d)
  {
    hide Enqueue, Message.Size;
    assert t in [t];
    DeliveredOne(t.m, d);
  }

  /**
   Main result: of a set cut off after `n` octets the handler delivers exactly the messages
   of the items wholly inside, keys and values intact, filtered by the fetch offset.
   */
  lemma {:induction false} SetHandled(data: seq<byte>, of: nat, ts: seq<Item>, n: nat, d: Delivery,
                                      z: Decompressor, c: Compressor, fuel: nat)
    requires WellFormed(ts, c) && Inverse(z, c) && fuel >= Cost(ts)
    requires of <= |data| && n <= |SetOctets(ts, c)| && data[of..] == SetOctets(ts, c)[..n]
    ensures Handled(data, of, d, z, fuel) == Delivered(Flatten(ts[..WholeItems(ts, c, n)]), d)
    decreases ts, 0
  {
    hide Octets, ReadEntry, HandleEntry, ItemMessage;
    if n == 0 {
      assert WholeItems(ts, c, 0) == 0;
    } else {
      var m, rest := ItemMessage(ts[0], c), SetOctets(ts[1..], c);
      var size := |Octets(m)|;
      WellFormedParts(ts, c);
      PrefixOfConcat(data[of..], Octets(m), rest, n);
      if n < size {
        ReadCut(data, of, m);
      } else {
        TailAt(data, of, Octets(m));
        ReadWhole(data, of, m);
        var d' := HandleEntry(EntryOf(m), d, z, fuel);
        var k := WholeItems(ts[1..], c, n - size);
        ItemHandled(ts[0], d, z, c, fuel);
        SetHandled(data, of + size, ts[1..], n - size, d', z, c, fuel - 1);
        FlattenFirst(ts, k);
        DeliveredConcat(ItemMessages(ts[0]), Flatten(ts[1..][..k]), d);
      }
    }
  }

  lemma WellFormedParts(ts: seq<Item>, c: Compressor)
    requires ts != [] && WellFormed(ts, c)
    ensures WellFormed([ts[0]], c) && WellFormed(ts[1..], c) && ItemMessage(ts[0], c).Fits()
    ensures Cost([ts[0]]) + Cost(ts[1..]) == Cost(ts) && Cost([ts[0]]) >= 1
  {
    assert ts[0] in ts;
    assert [ts[0]][1..] == [];
    assert forall t <- ts[1..] :: t in ts;
  }

  // ----- With offsets in order the fetch offset is a plain filter

  predicate Ascending(ms: seq<Message>) {
    forall i, j :: 0 <= i < j < |ms| ==> ms[i].offset < ms[j].offset
  }

  function From(ms: seq<Message>, offset: int): seq<Op> {
    if ms == [] then []
    else (if ms[0].offset >= offset then [Fetch(ms[0].offset, ms[0].key, ms[0].value)] else []) + From(ms[1..], offset)
  }

  lemma {:induction false} FromLower(ms: seq<Message>, lo: int, hi: int)
    requires lo <= hi && forall i :: 0 <= i < |ms| ==> ms[i].offset >= hi
    ensures From(ms, lo) == From(ms, hi)
  {
    if ms != [] { FromLower(ms[1..], lo, hi); }
  }

  lemma FirstBelow(ms: seq<Message>)
    requires Ascending(ms)
    ensures |ms| > 1 ==> ms[0].offset < ms[1].offset
  {
  }

  lemma TopAlone(ms: seq<Message>)
    requires Ascending(ms) && ms != [] && ms[0].offset == INT64_MAX
    requires forall i :: 0 <= i < |ms| ==> ms[i].offset <= INT64_MAX
    ensures ms[1..] == []
  {
    FirstBelow(ms);
  }

  lemma {:induction false} DeliveredIsFilter(ms: seq<Message>, d: Delivery)
    requires Ascending(ms) && forall i :: 0 <= i < |ms| ==> ms[i].offset <= INT64_MAX
    ensures Delivered(ms, d).ops == d.ops + From(ms, d.fetchOffset)
  {
    hide After;
    if ms != [] {
      var m, rest := ms[0], ms[1..];
      var op := Fetch(m.offset, m.key, m.value);
      if m.offset == INT64_MAX {
        TopAlone(ms);
      } else {
        DeliveredIsFilter(rest, Enqueue(op, d));
        if m.offset >= d.fetchOffset {
          AfterIs(m.offset);
          FromLower(rest, d.fetchOffset, m.offset + 1);
          assert d.ops + [op] + From(rest, d.fetchOffset) == d.ops + ([op] + From(rest, d.fetchOffset));
        }
      }
    }
  }

  lemma AfterIs(offset: int)
    requires offset != INT64_MAX
    ensures After(offset) == offset + 1
  {
  }

  /**
   A message with the highest offset there is, and then any other: both are delivered, whatever
   the second one's offset, so the offsets do not grow.
   */
  lemma OffsetWraps(a: Message, b: Message, d: Delivery, z: Decompressor)
    requires a.Fits() && b.Fits() && a.attributes % 4 == 0 && b.attributes % 4 == 0
    requires a.offset == INT64_MAX && d.fetchOffset <= INT64_MAX
    ensures var r := Handled(Octets(a) + Octets(b), 0, d, z, 2);
      && r.ops == d.ops + [Fetch(a.offset, a.key, a.value), Fetch(b.offset, b.key, b.value)]
      && !Increasing(r.ops[|d.ops|..])
  {
    Widths();
    hide Octets, ReadEntry, Message.Fits;
    var data := Octets(a) + Octets(b);
    assert data[0..0 + |Octets(a)|] == Octets(a);
    assert data[|Octets(a)|..|Octets(a)| + |Octets(b)|] == Octets(b);
    ReadWhole(data, 0, a);
    ReadWhole(data, |Octets(a)|, b);
    InWidth(b);
    var first, second := Fetch(a.offset, a.key, a.value), Fetch(b.offset, b.key, b.value);
    assert (d.ops + [first, second])[|d.ops|..] == [first, second];
    assert [first, second][0].offset >= [first, second][1].offset;
  }

  lemma InWidth(m: Message)
    requires m.Fits()
    ensures -INT64_MAX - 1 <= m.offset <= INT64_MAX
  {
    Widths();
  }
}
