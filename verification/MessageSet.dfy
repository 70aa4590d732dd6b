/**
 rd_kafka_messageset_handle: the parser of a (possibly nested, possibly truncated)
 MessageSet of a Fetch response.
 */
module MessageSet {
  import opened Bytes
  import opened Message

  /** What is put on the application's queue. */
  datatype Op =
    | Fetch(offset: int, key: KBytes, value: KBytes)
    | ConsumerErr(offset: int, attributes: int)

  /** Codecs: 1 gzip, 2 snappy. `None` is a payload that does not decompress. */
  type Decompressor = (int, seq<byte>) -> Option<seq<byte>>

  /** The ops enqueued so far and rktp_offsets.fetch_offset. */
  datatype Delivery = Delivery(ops: seq<Op>, fetchOffset: int)

  datatype Read<T> = Short | Got(value: T, next: int)

  /** rd_kafka_buf_read of an integer: check_len, then decode. */
  function ReadInt(data: seq<byte>, of: nat, w: nat): Read<int>
    requires of <= |data|
  {
    if of + w > |data| then Short else Got(DecodeInt(data[of..of + w]), of + w)
  }

  /**
   rd_kafka_buf_read_bytes. A length below -1 passes check_len and moves the read offset
   backwards; `next` may then be negative, where the source's offset wraps around.
   */
  function ReadBytes(data: seq<byte>, of: nat): (r: Read<KBytes>)
    requires of <= |data|
    ensures r.Got? ==> r.next <= |data|
  {
    match ReadInt(data, of, 4)
    case Short => Short
    case Got(len, next) =>
      if len == -1 then Got(None, next)
      else if len > |data| - next then Short
      else if len < 0 then Got(Some([]), next + len)
      else Got(Some(data[next..next + len]), next + len)
  }

  datatype Header = Header(offset: int, messageSize: int, attributes: int)

  function ReadHeader(data: seq<byte>, of: nat): (r: Read<Header>)
    requires of <= |data|
    ensures r.Got? ==> r.next == of + 18 <= |data|
  {
    if of + 18 > |data| then Short
    else Got(Header(DecodeInt(data[of..of + 8]), DecodeInt(data[of + 8..of + 12]), DecodeInt(data[of + 17..of + 18])), of + 18)
  }

  /** A difference of 32-bit integers that has fallen below their range comes back at its top. */
  function Wrapped(n: int): int {
    if n < -INT32_MAX - 1 then n + 0x1_0000_0000 else n
  }

  datatype Entry = Entry(header: Header, key: KBytes, value: KBytes)

  /** Everything up to the `switch` on the codec. `Short` is the jump to `err`. */
  function ReadEntry(data: seq<byte>, of: nat): (r: Read<Entry>)
    requires of <= |data|
    ensures r.Got? ==> r.next <= |data|
  {
    match ReadHeader(data, of)
    case Short => Short
    case Got(h, at) =>
      if Wrapped(h.messageSize - 6) > |data| - at then Short
      else match ReadBytes(data, at)
        case Short => Short
        case Got(key, at) =>
          if at < 0 then Short
          else match ReadBytes(data, at)
            case Short => Short
            case Got(value, at) => Got(Entry(h, key, value), at)
  }

  function ValueOctets(v: KBytes): seq<byte> {
    if v.Some? then v.value else []
  }

  const INT64_MAX: int := 0x7fff_ffff_ffff_ffff

  /** The next offset, in 64 bits. */
  function After(offset: int): int {
    if offset == INT64_MAX then -INT64_MAX - 1 else offset + 1
  }

  /** A message that is not a compressed set: drop it if it is early, else enqueue it. */
  function Enqueue(op: Op, d: Delivery): Delivery {
    if op.offset < d.fetchOffset then d else Delivery(d.ops + [op], After(op.offset))
  }

  /**
   What the handler does to the delivery from read offset `of` on. A set may nest and,
   with lengths below -1, the read offset may return to where it was: `fuel` bounds the
   messages looked at, so that every finite piece of a run is a value of this function.
   */
  function Handled(data: seq<byte>, of: int, d: Delivery, z: Decompressor, fuel: nat): Delivery
    decreases fuel
  {
    if of < 0 || of >= |data| || fuel == 0 then d
    else match ReadEntry(data, of)
      case Short => d
      case Got(e, next) => Handled(data, next, HandleEntry(e, d, z, fuel), z, fuel - 1)
  }

  function HandleEntry(e: Entry, d: Delivery, z: Decompressor, fuel: nat): Delivery
    requires fuel > 0
    decreases fuel, 0
  {
    var codec := e.header.attributes % 4;
    if codec == 0 then Enqueue(Fetch(e.header.offset, e.key, e.value), d)
    else if codec == 3 then Enqueue(ConsumerErr(e.header.offset, e.header.attributes), d)
    else match z(codec, ValueOctets(e.value))
      case None => d
      case Some(inner) => Handled(inner, 0, d, z, fuel - 1)
  }

  /** The handler itself. */
  method Handle(data: seq<byte>, d: Delivery, z: Decompressor, fuel: nat) returns (r: Delivery)
    ensures r == Handled(data, 0, d, z, fuel)
    decreases fuel
  {
    hide ReadEntry;
    r := d;
    var of: int := 0;
    var left: nat := fuel;
    while 0 <= of < |data| && left > 0
      invariant of <= |data| && left <= fuel
      invariant Handled(data, of, r, z, left) == Handled(data, 0, d, z, fuel)
      decreases left
    {
      var entry := ReadEntry(data, of);
      if entry.Short? { break; }
      var e := entry.value;
      var codec := e.header.attributes % 4;
      ghost var was := r;
      if codec == 0 {
        if e.header.offset >= r.fetchOffset {
          r := Delivery(r.ops + [Fetch(e.header.offset, e.key, e.value)], After(e.header.offset));
        }
      } else if codec == 3 {
        if e.header.offset >= r.fetchOffset {
          r := Delivery(r.ops + [ConsumerErr(e.header.offset, e.header.attributes)], After(e.header.offset));
        }
      } else {
        var inner := z(codec, ValueOctets(e.value));
        if inner.Some? {
          r := Handle(inner.value, r, z, left - 1);
        }
      }
      assert r == HandleEntry(e, was, z, left);
      of := entry.next;
      left := left - 1;
    }
  }

  /**
   One message: a plain one is delivered unless it is early, a codec nobody knows becomes an error for the
   application, and a payload that does not decompress is passed over.
   */
  lemma EntryFate(e: Entry, d: Delivery, z: Decompressor, fuel: nat)
    requires fuel > 0
    ensures var r, offset := HandleEntry(e, d, z, fuel), e.header.offset;
      var moved := if offset == 0x7fff_ffff_ffff_ffff then -0x8000_0000_0000_0000 else offset + 1;
      && (e.header.attributes % 4 in {0, 3} && offset < d.fetchOffset ==> r == d)
      && (e.header.attributes % 4 == 0 && offset >= d.fetchOffset ==>
            r.ops == d.ops + [Fetch(offset, e.key, e.value)] && r.fetchOffset == moved)
      && (e.header.attributes % 4 == 3 && offset >= d.fetchOffset ==>
            r.ops == d.ops + [ConsumerErr(offset, e.header.attributes)] && r.fetchOffset == moved)
      && (e.header.attributes % 4 in {1, 2} && z(e.header.attributes % 4, ValueOctets(e.value)).None? ==> r == d)
  {
    hide Handled;
  }

  /** A length below -1 reads as the empty string and takes the read offset back. */
  lemma LengthBelow(data: seq<byte>, of: nat)
    requires of + 4 <= |data| && DecodeInt(data[of..of + 4]) < -1
    ensures ReadBytes(data, of) == Got(Some([]), of + 4 + DecodeInt(data[of..of + 4]))
  {
    hide DecodeInt;
  }

  /** A size so low that 6 cannot be taken off in 32 bits is refused: the difference comes out near the top. */
  lemma LowestSizes(data: seq<byte>, of: nat)
    requires of + 18 <= |data| <= INT32_MAX
    requires -0x8000_0000 <= DecodeInt(data[of + 8..of + 12]) <= -0x7fff_fffb
    ensures ReadEntry(data, of) == Short
  {
    hide DecodeInt, ReadBytes;
  }

  // ----- The handler in two steps: what a reader meets, and what of it is not early

  /** The messages met, whatever their offsets. */
  function Seen(data: seq<byte>, of: int, z: Decompressor, fuel: nat): seq<Op>
    decreases fuel
  {
    if of < 0 || of >= |data| || fuel == 0 then []
    else match ReadEntry(data, of)
      case Short => []
      case Got(e, next) => SeenIn(e, z, fuel) + Seen(data, next, z, fuel - 1)
  }

  function SeenIn(e: Entry, z: Decompressor, fuel: nat): seq<Op>
    requires fuel > 0
    decreases fuel, 0
  {
    var codec := e.header.attributes % 4;
    if codec == 0 then [Fetch(e.header.offset, e.key, e.value)]
    else if codec == 3 then [ConsumerErr(e.header.offset, e.header.attributes)]
    else match z(codec, ValueOctets(e.value))
      case None => []
      case Some(inner) => Seen(inner, 0, z, fuel - 1)
  }

  /** One after the other, each unless it is before the fetch offset its predecessors have left. */
  function Taken(ops: seq<Op>, d: Delivery): Delivery {
    if ops == [] then d else Taken(ops[1..], Enqueue(ops[0], d))
  }

  lemma {:induction false} TakenConcat(a: seq<Op>, b: seq<Op>, d: Delivery)
    ensures Taken(a + b, d) == Taken(b, Taken(a, d))
  {
    hide Enqueue;
    if a == [] {
      assert a + b == b;
    } else {
      assert (a + b)[1..] == a[1..] + b;
      TakenConcat(a[1..], b, Enqueue(a[0], d));
    }
  }

  /** For any octets the handler takes what a reader meets, in order. */
  lemma {:induction false} HandledIsTaken(data: seq<byte>, of: int, d: Delivery, z: Decompressor, fuel: nat)
    ensures Handled(data, of, d, z, fuel) == Taken(Seen(data, of, z, fuel), d)
    decreases fuel, 1
  {
    if 0 <= of < |data| && fuel > 0 && ReadEntry(data, of).Got? {
      var Got(e, next) := ReadEntry(data, of);
      hide ReadEntry, Enqueue, HandleEntry, SeenIn, Taken;
      EntryIsTaken(e, d, z, fuel);
      HandledIsTaken(data, next, HandleEntry(e, d, z, fuel), z, fuel - 1);
      TakenConcat(SeenIn(e, z, fuel), Seen(data, next, z, fuel - 1), d);
    }
  }

  lemma {:induction false} EntryIsTaken(e: Entry, d: Delivery, z: Decompressor, fuel: nat)
    requires fuel > 0
    ensures HandleEntry(e, d, z, fuel) == Taken(SeenIn(e, z, fuel), d)
    decreases fuel, 0
  {
    var codec := e.header.attributes % 4;
    hide Enqueue, Handled, Seen;
    if codec == 0 {
      TakenOne(Fetch(e.header.offset, e.key, e.value), d);
    } else if codec == 3 {
      TakenOne(ConsumerErr(e.header.offset, e.header.attributes), d);
    } else {
      var inner := z(codec, ValueOctets(e.value));
      if inner.Some? { HandledIsTaken(inner.value, 0, d, z, fuel - 1); }
    }
  }

  lemma TakenOne(op: Op, d: Delivery)
    ensures Taken([op], d) == Enqueue(op, d)
  {
    assert [op][1..] == [];
  }

  /** Ops with growing offsets, none early, are all taken. */
  lemma {:induction false} AllTaken(ops: seq<Op>, d: Delivery)
    requires Increasing(ops) && (ops != [] ==> ops[0].offset >= d.fetchOffset)
    requires forall i :: 0 <= i < |ops| ==> ops[i].offset <= INT64_MAX
    ensures Taken(ops, d).ops == d.ops + ops
  {
    if ops != [] {
      assert Increasing(ops[1..]);
      assert |ops| > 1 ==> ops[0].offset < ops[1].offset;
      AllTaken(ops[1..], Enqueue(ops[0], d));
      assert d.ops + [ops[0]] + ops[1..] == d.ops + ops;
    }
  }

  // ----- Monotone delivery, for any octets, any nesting and any decompressor

  predicate Increasing(ops: seq<Op>) {
    forall i, j :: 0 <= i < j < |ops| ==> ops[i].offset < ops[j].offset
  }

  /** Only the last of the ops may have the highest offset there is. */
  predicate TopIsLast(ops: seq<Op>) {
    forall i :: 0 <= i < |ops| - 1 ==> ops[i].offset != INT64_MAX
  }

  /** The fetch offset once `ops` have been enqueued. */
  function Reached(fetchOffset: int, ops: seq<Op>): int {
    if ops == [] then fetchOffset else After(ops[|ops| - 1].offset)
  }

  /** `d'` extends `d` by ops, each not before the fetch offset its predecessor has left. */
  predicate Extends(d: Delivery, d': Delivery) {
    && d.ops <= d'.ops
    && var added := d'.ops[|d.ops|..];
    && d'.fetchOffset == Reached(d.fetchOffset, added)
    && forall i :: 0 <= i < |added| ==> Reached(d.fetchOffset, added[..i]) <= added[i].offset <= INT64_MAX
  }

  lemma ReachedConcat(from: int, x: seq<Op>, y: seq<Op>)
    ensures Reached(from, x + y) == Reached(Reached(from, x), y)
  {
    assert y == [] ==> x + y == x;
  }

  lemma ExtendsTransitive(a: Delivery, b: Delivery, c: Delivery)
    requires Extends(a, b) && Extends(b, c)
    ensures Extends(a, c)
  {
    hide Reached;
    var x, y := b.ops[|a.ops|..], c.ops[|b.ops|..];
    var added := c.ops[|a.ops|..];
    assert added == x + y;
    ReachedConcat(a.fetchOffset, x, y);
    forall i | 0 <= i < |added|
      ensures Reached(a.fetchOffset, added[..i]) <= added[i].offset <= INT64_MAX
    {
      if i < |x| {
        assert added[..i] == x[..i] && added[i] == x[i];
      } else {
        var k := i - |x|;
        assert added[..i] == x + y[..k] && added[i] == y[k];
        ReachedConcat(a.fetchOffset, x, y[..k]);
      }
    }
  }

  lemma EnqueueExtends(op: Op, d: Delivery)
    requires op.offset <= INT64_MAX
    ensures Extends(d, Enqueue(op, d))
  {
  }

  lemma {:induction false} InRange(s: seq<byte>)
    ensures FromBigEndian(s) < Pow256(|s|)
  {
    if s != [] {
      InRange(s[..|s| - 1]);
    }
  }

  lemma OffsetInRange(s: seq<byte>)
    requires |s| == 8
    ensures DecodeInt(s) <= INT64_MAX
  {
    InRange(s);
    Widths();
  }

  lemma EntryInRange(data: seq<byte>, of: nat)
    requires of <= |data|
    ensures ReadEntry(data, of).Got? ==> ReadEntry(data, of).value.header.offset <= INT64_MAX
  {
    hide DecodeInt, ReadBytes;
    if of + 18 <= |data| {
      OffsetInRange(data[of..of + 8]);
    }
  }

  lemma NextReached(from: int, ops: seq<Op>, i: nat)
    requires i < |ops| - 1
    ensures Reached(from, ops[..i + 1]) == After(ops[i].offset)
  {
  }

  /** The offsets enqueued grow, up to the point where the fetch offset wraps around, if it does. */
  lemma InOrderExactly(from: int, ops: seq<Op>)
    requires forall i :: 0 <= i < |ops| ==> Reached(from, ops[..i]) <= ops[i].offset <= INT64_MAX
    ensures Increasing(ops) <==> TopIsLast(ops)
    ensures Increasing(ops) ==> forall i :: 0 <= i < |ops| ==> ops[i].offset >= from
  {
    hide Reached;
    forall i | 0 <= i < |ops| - 1
      ensures After(ops[i].offset) <= ops[i + 1].offset
    {
      NextReached(from, ops, i);
    }
    if TopIsLast(ops) {
      Climbing(ops, |ops|);
    }
    if ops != [] && Increasing(ops) {
      NothingReached(from, ops);
      assert Reached(from, ops[..0]) <= ops[0].offset;
      assert forall i :: 0 < i < |ops| ==> ops[0].offset < ops[i].offset;
      forall i | 0 <= i < |ops| - 1
        ensures ops[i].offset != INT64_MAX
      {
        var next := i + 1;
        assert ops[i].offset < ops[next].offset && Reached(from, ops[..next]) <= ops[next].offset <= INT64_MAX;
      }
    }
  }

  lemma NothingReached(from: int, ops: seq<Op>)
    ensures Reached(from, ops[..0]) == from
  {
  }

  lemma {:induction false} Climbing(ops: seq<Op>, n: nat)
    requires n <= |ops| && forall i :: 0 <= i < |ops| - 1 ==> ops[i].offset < ops[i + 1].offset
    ensures Increasing(ops[..n])
  {
    if n > 0 {
      Climbing(ops, n - 1);
      forall i, j | 0 <= i < j < n
        ensures ops[i].offset < ops[j].offset
      {
        if j < n - 1 {
          assert ops[..n - 1][i].offset < ops[..n - 1][j].offset;
        } else if i < j - 1 {
          assert ops[..n - 1][i].offset < ops[..n - 1][j - 1].offset;
        }
      }
    }
    assert ops[..|ops|] == ops;
  }

  /**
   For any octets, any nesting and any decompressor: each op is not before the fetch offset at
   that moment; so the offsets grow exactly when only the last of them is the highest there is,
   because the fetch offset wraps around behind that one.
   */
  lemma {:induction false} MonotoneDelivery(data: seq<byte>, of: int, d: Delivery, z: Decompressor, fuel: nat)
    ensures var r := Handled(data, of, d, z, fuel);
      && Extends(d, r)
      && (Increasing(r.ops[|d.ops|..]) <==> TopIsLast(r.ops[|d.ops|..]))
      && (Increasing(r.ops[|d.ops|..]) ==> forall i :: |d.ops| <= i < |r.ops| ==> r.ops[i].offset >= d.fetchOffset)
  {
    hide *;
    HandledExtends(data, of, d, z, fuel);
    var r := Handled(data, of, d, z, fuel);
    ExtendsBy(d, r);
    InOrderExactly(d.fetchOffset, r.ops[|d.ops|..]);
    assert forall i :: |d.ops| <= i < |r.ops| ==> r.ops[i] == r.ops[|d.ops|..][i - |d.ops|];
  }

  lemma ExtendsBy(d: Delivery, d': Delivery)
    requires Extends(d, d')
    ensures |d.ops| <= |d'.ops|
    ensures var ops := d'.ops[|d.ops|..];
      forall i :: 0 <= i < |ops| ==> Reached(d.fetchOffset, ops[..i]) <= ops[i].offset <= INT64_MAX
  {
  }

  lemma {:induction false} HandledExtends(data: seq<byte>, of: int, d: Delivery, z: Decompressor, fuel: nat)
    ensures Extends(d, Handled(data, of, d, z, fuel))
    decreases fuel, 1
  {
    if 0 <= of < |data| && fuel > 0 && ReadEntry(data, of).Got? {
      var Got(e, next) := ReadEntry(data, of);
      hide Extends, Increasing, ReadEntry, Enqueue;
      EntryInRange(data, of);
      EntryExtends(e, d, z, fuel);
      var d' := HandleEntry(e, d, z, fuel);
      HandledExtends(data, next, d', z, fuel - 1);
      ExtendsTransitive(d, d', Handled(data, next, d', z, fuel - 1));
    }
  }

  lemma {:induction false} EntryExtends(e: Entry, d: Delivery, z: Decompressor, fuel: nat)
    requires fuel > 0 && e.header.offset <= INT64_MAX
    ensures Extends(d, HandleEntry(e, d, z, fuel))
    decreases fuel, 0
  {
    var codec := e.header.attributes % 4;
    if codec == 0 {
      EnqueueExtends(Fetch(e.header.offset, e.key, e.value), d);
    } else if codec == 3 {
      EnqueueExtends(ConsumerErr(e.header.offset, e.header.attributes), d);
    } else {
      var inner := z(codec, ValueOctets(e.value));
      if inner.Some? { HandledExtends(inner.value, 0, d, z, fuel - 1); }
    }
  }
}
