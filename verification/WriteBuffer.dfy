/**
 The write side of rd_kafka_buf_t: one block of memory, and a stack of I/O vectors that
 point either into that block or at memory owned by somebody else.

 A vector into the block is an offset and a length, so rewriting the block changes
 what the vector stands for, and moving the block (realloc) repoints it.
 */
module WriteBuffer {
  import opened Bytes
  import opened Message
  import Crc32

  /** The most vectors one sendmsg takes (rd.h:147). */
  const IOV_MAX: nat := 1024

  datatype IoVec = Own(of: nat, len: nat) | Ext(data: seq<byte>) {
    predicate InBounds(limit: nat) { Own? ==> of + len <= limit }

    function Size(): nat { if Own? then len else |data| }

    function Piece(mem: seq<byte>): (s: seq<byte>)
      requires InBounds(|mem|)
      ensures |s| == Size()
    {
      if Own? then mem[of..of + len] else data
    }
  }

  /** No vector reaches past `limit` of the block. */
  predicate AllBelow(iov: seq<IoVec>, limit: nat) {
    forall i :: 0 <= i < |iov| ==> iov[i].InBounds(limit)
  }

  /** rd_kafka_msghdr_size. */
  function TotalSize(iov: seq<IoVec>): nat {
    if iov == [] then 0 else TotalSize(iov[..|iov| - 1]) + iov[|iov| - 1].Size()
  }

  /** What sendmsg collects. */
  function Gather(mem: seq<byte>, iov: seq<IoVec>): (s: seq<byte>)
    requires AllBelow(iov, |mem|)
    ensures |s| == TotalSize(iov)
  {
    if iov == [] then [] else Gather(mem, iov[..|iov| - 1]) + iov[|iov| - 1].Piece(mem)
  }

  lemma GatherPush(mem: seq<byte>, iov: seq<IoVec>, v: IoVec)
    requires AllBelow(iov, |mem|) && v.InBounds(|mem|)
    ensures AllBelow(iov + [v], |mem|)
    ensures Gather(mem, iov + [v]) == Gather(mem, iov) + v.Piece(mem)
  {
    assert (iov + [v])[..|iov|] == iov;
  }

  /** Memory above every vector is invisible. */
  lemma {:induction false} GatherFrame(m0: seq<byte>, m1: seq<byte>, iov: seq<IoVec>, limit: nat)
    requires limit <= |m0| && limit <= |m1| && AllBelow(iov, limit)
    requires m0[..limit] == m1[..limit]
    ensures Gather(m0, iov) == Gather(m1, iov)
  {
    if iov != [] {
      GatherFrame(m0, m1, iov[..|iov| - 1], limit);
      var v := iov[|iov| - 1];
      if v.Own? {
        assert v.Piece(m0) == m0[..limit][v.of..v.of + v.len];
        assert v.Piece(m1) == m1[..limit][v.of..v.of + v.len];
      }
    }
  }

  function Patched(mem: seq<byte>, at: nat, data: seq<byte>): (r: seq<byte>)
    requires at + |data| <= |mem|
    ensures |r| == |mem|
  {
    mem[..at] + data + mem[at + |data|..]
  }

  lemma PatchedTwice(mem: seq<byte>, at: nat, x: seq<byte>, y: seq<byte>)
    requires at + |x| + |y| <= |mem|
    ensures Patched(Patched(mem, at, x), at + |x|, y) == Patched(mem, at, x + y)
  {
  }

  lemma BelowConcat(a: seq<IoVec>, b: seq<IoVec>, limit: nat)
    requires AllBelow(a, limit) && AllBelow(b, limit)
    ensures AllBelow(a + b, limit)
  {
  }

  lemma ConcatAssociates(x: seq<byte>, y: seq<byte>, z: seq<byte>)
    ensures (x + y) + z == x + (y + z)
  {
  }

  lemma {:induction false} GatherConcat(mem: seq<byte>, a: seq<IoVec>, b: seq<IoVec>)
    requires AllBelow(a, |mem|) && AllBelow(b, |mem|)
    ensures AllBelow(a + b, |mem|)
    ensures Gather(mem, a + b) == Gather(mem, a) + Gather(mem, b)
    ensures TotalSize(a + b) == TotalSize(a) + TotalSize(b)
  {
    BelowConcat(a, b, |mem|);
    if b == [] {
      assert a + b == a;
    } else {
      var init, last := b[..|b| - 1], b[|b| - 1];
      assert (a + b)[..|a + b| - 1] == a + init;
      assert AllBelow(init, |mem|);
      hide AllBelow;
      GatherConcat(mem, a, init);
      ConcatAssociates(Gather(mem, a), Gather(mem, init), last.Piece(mem));
    }
  }

  /** No vector reaches below `limit` of the block. */
  predicate AllAbove(iov: seq<IoVec>, limit: nat) {
    forall i :: 0 <= i < |iov| && iov[i].Own? ==> limit <= iov[i].of
  }

  lemma PieceAbove(m: seq<byte>, v: IoVec, limit: nat)
    requires v.InBounds(|m|) && (v.Own? ==> limit <= v.of) && limit <= |m|
    ensures v.Piece(m) == if v.Own? then m[limit..][v.of - limit..v.of - limit + v.len] else v.data
  {
  }

  lemma {:induction false} GatherFrameAbove(m0: seq<byte>, m1: seq<byte>, iov: seq<IoVec>, limit: nat)
    requires |m0| == |m1| && limit <= |m0| && AllAbove(iov, limit) && AllBelow(iov, |m0|)
    requires m0[limit..] == m1[limit..]
    ensures Gather(m0, iov) == Gather(m1, iov)
  {
    if iov != [] {
      GatherFrameAbove(m0, m1, iov[..|iov| - 1], limit);
      var v := iov[|iov| - 1];
      PieceAbove(m0, v, limit);
      PieceAbove(m1, v, limit);
    }
  }

  lemma PiecePatched(mem: seq<byte>, v: IoVec, at: nat, data: seq<byte>)
    requires v.Own? && v.of <= at && at + |data| <= v.of + v.len <= |mem|
    ensures v.Piece(Patched(mem, at, data)) == Patched(v.Piece(mem), at - v.of, data)
  {
  }

  lemma PatchedOutside(mem: seq<byte>, at: nat, data: seq<byte>, low: nat, high: nat)
    requires low <= at && at + |data| <= high <= |mem|
    ensures Patched(mem, at, data)[..low] == mem[..low]
    ensures Patched(mem, at, data)[high..] == mem[high..]
  {
  }

  lemma PatchedAround(a: seq<byte>, mid: seq<byte>, c: seq<byte>, at: nat, data: seq<byte>, whole: seq<byte>)
    requires at + |data| <= |mid| && whole == a + mid + c
    ensures a + Patched(mid, at, data) + c == Patched(whole, |a| + at, data)
  {
  }

  /** The whole is what stands before a vector, the vector, and what stands after it. */
  lemma GatherAround(mem: seq<byte>, pre: seq<IoVec>, v: IoVec, post: seq<IoVec>)
    requires AllBelow(pre, |mem|) && v.InBounds(|mem|) && AllBelow(post, |mem|)
    ensures AllBelow(pre + [v] + post, |mem|)
    ensures Gather(mem, pre + [v] + post) == Gather(mem, pre) + v.Piece(mem) + Gather(mem, post)
    ensures TotalSize(pre + [v] + post) == TotalSize(pre) + v.Size() + TotalSize(post)
  {
    GatherPush(mem, pre, v);
    GatherConcat(mem, pre + [v], post);
  }

  lemma GatherUnpatched(mem: seq<byte>, pre: seq<IoVec>, v: IoVec, post: seq<IoVec>, at: nat, data: seq<byte>)
    requires v.Own? && v.of <= at && at + |data| <= v.of + v.len <= |mem|
    requires AllBelow(pre, v.of) && AllAbove(post, v.of + v.len) && AllBelow(post, |mem|)
    ensures Gather(Patched(mem, at, data), pre) == Gather(mem, pre)
    ensures Gather(Patched(mem, at, data), post) == Gather(mem, post)
  {
    PatchedOutside(mem, at, data, v.of, v.of + v.len);
    hide Patched;
    GatherFrame(Patched(mem, at, data), mem, pre, v.of);
    GatherFrameAbove(Patched(mem, at, data), mem, post, v.of + v.len);
  }

  lemma BelowLess(iov: seq<IoVec>, v: IoVec, limit: nat)
    requires v.Own? && v.of + v.len <= limit && AllBelow(iov, v.of)
    ensures AllBelow(iov, limit) && v.InBounds(limit) && v.Size() == v.len
  {
  }

  lemma GatherPatchedParts(mem: seq<byte>, pre: seq<IoVec>, v: IoVec, post: seq<IoVec>, at: nat, data: seq<byte>)
    requires v.Own? && v.of <= at && at + |data| <= v.of + v.len <= |mem|
    requires AllBelow(pre, v.of) && AllAbove(post, v.of + v.len) && AllBelow(post, |mem|)
    requires AllBelow(pre + [v] + post, |mem|)
    ensures Gather(Patched(mem, at, data), pre + [v] + post)
         == Gather(mem, pre) + Patched(v.Piece(mem), at - v.of, data) + Gather(mem, post)
  {
    hide *;
    BelowLess(pre, v, |mem|);
    GatherUnpatched(mem, pre, v, post, at, data);
    PiecePatched(mem, v, at, data);
    GatherAround(Patched(mem, at, data), pre, v, post);
  }

  /** Rewriting octets inside one pushed vector rewrites the same octets of the whole. */
  lemma GatherPatched(mem: seq<byte>, pre: seq<IoVec>, v: IoVec, post: seq<IoVec>, at: nat, data: seq<byte>, whole: seq<byte>)
    requires v.Own? && v.of <= at && at + |data| <= v.of + v.len <= |mem|
    requires AllBelow(pre, v.of) && AllAbove(post, v.of + v.len) && AllBelow(post, |mem|)
    requires AllBelow(pre + [v] + post, |mem|) && whole == Gather(mem, pre + [v] + post)
    ensures TotalSize(pre) + at - v.of + |data| <= |whole|
    ensures Gather(Patched(mem, at, data), pre + [v] + post) == Patched(whole, TotalSize(pre) + at - v.of, data)
  {
    hide *;
    BelowLess(pre, v, |mem|);
    GatherAround(mem, pre, v, post);
    GatherPatchedParts(mem, pre, v, post, at, data);
    PatchedAround(Gather(mem, pre), v.Piece(mem), Gather(mem, post), at - v.of, data, whole);
  }

  /** Vectors a message takes: header, key, value length, and the value unless it is NULL. */
  function VectorsOf(m: Message): nat {
    if m.value.Some? then 4 else 3
  }

  /** The MessageSize written for a value whose length is given as `len`. */
  function DeclaredSize(m: Message, len: int): int {
    4 + 1 + 1 + KBytesSize(m.key) + 4 + len
  }

  /** What follows the fixed header on the vector stack. */
  function Tail(m: Message, at: nat): seq<IoVec> {
    [Ext(KBytesOctets(m.key))] + [Own(at, 4)] + if m.value.Some? then [Ext(m.value.value)] else []
  }

  lemma TailAbove(m: Message, at: nat)
    ensures AllAbove(Tail(m, at), at) && |Tail(m, at)| == VectorsOf(m) - 1
  {
    hide KBytesOctets;
  }

  function ValueLen(m: Message): int {
    if m.value.Some? then |m.value.value| else -1
  }

  /** A message whose checksum is still to be filled in, behind octets `p` that were pending. */
  function Unsummed(p: seq<byte>, m: Message, size: int): seq<byte> {
    p + (EncodeInt(m.offset, 8) + EncodeInt(size, 4)) + EncodeInt(0, 4) + Body(m)
  }

  lemma BodyInPieces(m: Message)
    ensures Body(m) == EncodeInt(m.magic, 1) + EncodeInt(m.attributes, 1) + KBytesOctets(m.key)
                       + EncodeInt(ValueLen(m), 4) + if m.value.Some? then m.value.value else []
  {
    hide EncodeInt;
  }

  /** Each octet of the body enters the checksum once, whether it was copied or pushed. */
  lemma ChecksumInPieces(m: Message)
    ensures
      var c := Crc32.Updated(Crc32.Updated(Crc32.Init(), EncodeInt(m.magic, 1)), EncodeInt(m.attributes, 1));
      var c := Crc32.Updated(Crc32.Updated(c, KBytesOctets(m.key)), EncodeInt(ValueLen(m), 4));
      Crc32.Updated(Crc32.Init(), Body(m)) == if m.value.Some? then Crc32.Updated(c, m.value.value) else c
  {
    var i, a, b, k, l := Crc32.Init(), EncodeInt(m.magic, 1), EncodeInt(m.attributes, 1), KBytesOctets(m.key), EncodeInt(ValueLen(m), 4);
    BodyInPieces(m);
    hide *;
    Crc32.UpdateConcat(i, a, b);
    Crc32.UpdateConcat(i, a + b, k);
    Crc32.UpdateConcat(i, a + b + k, l);
    if m.value.Some? {
      Crc32.UpdateConcat(i, a + b + k + l, m.value.value);
    } else {
      assert a + b + k + l + [] == a + b + k + l;
    }
  }

  lemma UnsummedInPieces(v: seq<byte>, p: seq<byte>, m: Message, size: int)
    ensures
      var w := v + (p + (EncodeInt(m.offset, 8) + EncodeInt(size, 4)) + EncodeInt(0, 4) + EncodeInt(m.magic, 1) + EncodeInt(m.attributes, 1));
      var w := w + KBytesOctets(m.key) + EncodeInt(ValueLen(m), 4);
      v + Unsummed(p, m, size) == if m.value.Some? then w + m.value.value else w
  {
    BodyInPieces(m);
    hide EncodeInt, KBytesOctets, Body;
  }

  lemma SummedInPlace(v: seq<byte>, p: seq<byte>, m: Message, size: int)
    ensures |v| + |p| + 12 + 4 <= |v + Unsummed(p, m, size)|
    ensures Patched(v + Unsummed(p, m, size), |v| + |p| + 12,
                    Crc32.CrcOctets(Crc32.Finalize(Crc32.Updated(Crc32.Init(), Body(m))))) == v + (p + Framed(m, size))
  {
    hide EncodeInt, Body, Crc32.Init, Crc32.Updated, Crc32.Finalize, Crc32.CrcOctets;
  }

  lemma CrcInPlace(w: seq<byte>, v: seq<byte>, p: seq<byte>, m: Message, size: int)
    requires w == v + (p + Framed(m, size))
    ensures |v| + |p| + 16 <= |w| && Checked(w[|v| + |p| + 12..|v| + |p| + 16], w[|v| + |p| + 16..])
  {
    hide *;
    var n, f := |v| + |p|, Framed(m, size);
    FramedChecked(m, size);
    assert w[n..] == f;
    assert w[n + 12..n + 16] == f[12..16];
    assert w[n + 16..] == f[16..];
  }

  lemma WrittenBehind(before: seq<byte>, now: seq<byte>, low: nat, at: nat, data: seq<byte>)
    requires low <= at <= |before| && at + |data| <= |now|
    requires now[..at] == before[..at] && now[at..at + |data|] == data
    ensures now[..low] == before[..low] && now[low..at + |data|] == before[low..at] + data
  {
    assert now[..low] == now[..at][..low] && before[..low] == before[..at][..low];
    assert now[low..at] == now[..at][low..] && before[low..at] == before[..at][low..];
  }

  lemma PatchedWithin(s: seq<byte>, at: nat, data: seq<byte>, low: nat, high: nat)
    requires low <= at && at + |data| <= high <= |s|
    ensures |Patched(s, at, data)| == |s| && Patched(s, at, data)[..low] == s[..low]
    ensures Patched(s, at, data)[low..high] == Patched(s[low..high], at - low, data)
  {
  }

  lemma PostBelow(pre: seq<IoVec>, v: IoVec, post: seq<IoVec>, limit: nat)
    requires AllBelow(pre + [v] + post, limit)
    ensures v.InBounds(limit) && AllBelow(post, limit)
  {
    var all := pre + [v] + post;
    assert v == all[|pre|];
    assert forall i :: 0 <= i < |post| ==> post[i] == all[|pre| + 1 + i];
  }

  lemma BelowPush(iov: seq<IoVec>, v: IoVec, low: nat, high: nat)
    ensures low <= high && AllBelow(iov, low) && v.InBounds(high) ==> AllBelow(iov + [v], high)
  {
  }

  type KString = Option<seq<byte>>

  function KStringOctets(s: KString): seq<byte> {
    if s.None? then EncodeInt(-1, 2) else EncodeInt(|s.value|, 2) + s.value
  }

  /** Size:4 ApiKey:2 ApiVersion:2 CorrId:4 ClientId:String */
  function RequestHeader(size: int, apiKey: int, apiVersion: int, corrId: int, clientId: KString): seq<byte> {
    EncodeInt(size, 4) + EncodeInt(apiKey, 2) + EncodeInt(apiVersion, 2) + EncodeInt(corrId, 4) + KStringOctets(clientId)
  }

  lemma HeaderSize(size: int, apiKey: int, apiVersion: int, corrId: int, clientId: KString)
    ensures |RequestHeader(size, apiKey, apiVersion, corrId, clientId)| == 12 + |KStringOctets(clientId)|
  {
  }

  /** NULL is length -1. */
  lemma KStringLayout(s: KString)
    requires s.Some? ==> |s.value| < 0x8000
    ensures |KStringOctets(s)| == 2 + if s.None? then 0 else |s.value|
    ensures DecodeInt(KStringOctets(s)[..2]) == if s.None? then -1 else |s.value|
    ensures KStringOctets(s)[2..] == if s.None? then [] else s.value
  {
    Widths();
    var n := if s.None? then -1 else |s.value|;
    IntRoundTrip(n, 2);
    hide EncodeInt, DecodeInt;
    assert KStringOctets(s)[..2] == EncodeInt(n, 2);
  }

  lemma HeaderParts(size: int, apiKey: int, apiVersion: int, corrId: int, clientId: KString)
    ensures var h := RequestHeader(size, apiKey, apiVersion, corrId, clientId);
      && |h| == 12 + |KStringOctets(clientId)| && h[..4] == EncodeInt(size, 4) && h[4..6] == EncodeInt(apiKey, 2)
      && h[6..8] == EncodeInt(apiVersion, 2) && h[8..12] == EncodeInt(corrId, 4) && h[12..] == KStringOctets(clientId)
  {
    hide EncodeInt, KStringOctets;
  }

  /** Where each field of a request header lies. */
  lemma HeaderLayout(size: int, apiKey: int, apiVersion: int, corrId: int, clientId: KString)
    requires FitsInt(size, 4) && FitsInt(apiKey, 2) && FitsInt(apiVersion, 2) && FitsInt(corrId, 4)
    requires clientId.Some? ==> |clientId.value| < 0x8000
    ensures var h := RequestHeader(size, apiKey, apiVersion, corrId, clientId);
      && |h| == 14 + (if clientId.None? then 0 else |clientId.value|)
      && DecodeInt(h[..4]) == size && DecodeInt(h[4..6]) == apiKey && DecodeInt(h[6..8]) == apiVersion
      && DecodeInt(h[8..12]) == corrId && DecodeInt(h[12..14]) == (if clientId.None? then -1 else |clientId.value|)
      && h[14..] == if clientId.None? then [] else clientId.value
  {
    var h := RequestHeader(size, apiKey, apiVersion, corrId, clientId);
    HeaderParts(size, apiKey, apiVersion, corrId, clientId);
    KStringLayout(clientId);
    IntRoundTrip(size, 4);
    IntRoundTrip(apiKey, 2);
    IntRoundTrip(apiVersion, 2);
    IntRoundTrip(corrId, 4);
    hide EncodeInt, DecodeInt, FitsInt, KStringOctets, RequestHeader;
    assert h[12..14] == h[12..][..2] && h[14..] == h[12..][2..];
  }

  lemma SizeFilledIn(v: seq<byte>, size: int, apiKey: int, apiVersion: int, clientId: KString)
    requires 12 + |KStringOctets(clientId)| <= |v|
    ensures |RequestHeader(0, apiKey, apiVersion, 0, clientId)| == 12 + |KStringOctets(clientId)|
    ensures Patched(Patched(v, 0, RequestHeader(0, apiKey, apiVersion, 0, clientId)), 0, EncodeInt(size, 4))
         == RequestHeader(size, apiKey, apiVersion, 0, clientId) + v[12 + |KStringOctets(clientId)|..]
  {
    hide EncodeInt, KStringOctets;
  }

  lemma CorrIdFilledIn(size: int, apiKey: int, apiVersion: int, was: int, id: int, clientId: KString, body: seq<byte>)
    ensures |RequestHeader(size, apiKey, apiVersion, was, clientId) + body| >= 12
    ensures Patched(RequestHeader(size, apiKey, apiVersion, was, clientId) + body, 8, EncodeInt(id, 4))
         == RequestHeader(size, apiKey, apiVersion, id, clientId) + body
  {
    hide EncodeInt, KStringOctets;
  }

  /** The loop of rd_kafka_msghdr_size. */
  method MsghdrSize(iov: seq<IoVec>) returns (tot: nat)
    ensures tot == TotalSize(iov)
  {
    tot := 0;
    for i := 0 to |iov|
      invariant tot == TotalSize(iov[..i])
    {
      assert iov[..i + 1][..i] == iov[..i];
      tot := tot + iov[i].Size();
    }
    assert iov[..|iov|] == iov;
  }

  class Buffer {
    var buf: array<byte>      // rkbuf_buf, rkbuf_size
    var iov: seq<IoVec>       // rkbuf_iov, rkbuf_msg.msg_iovlen
    const iovCnt: nat
    var wof: nat
    var wofInit: nat
    const growable: bool      // RD_KAFKA_OP_F_FREE
    var crcOn: bool           // RD_KAFKA_OP_F_CRC
    var crc: bv32
    var len: nat              // rkbuf_len
    var corrId: int

    ghost predicate Valid()
      reads this, buf
    {
      wof <= buf.Length && wofInit <= buf.Length && |iov| <= iovCnt && AllBelow(iov, buf.Length)
    }

    /** Nothing has been sought back: the vectors lie below the octets not yet pushed. */
    ghost predicate Building()
      reads this, buf
      ensures Building() ==> Valid()
    {
      Valid() && wofInit <= wof && AllBelow(iov, wofInit)
    }

    ghost function View(): seq<byte>
      requires Valid()
      reads this, buf
    {
      Gather(buf[..], iov)
    }

    /** Octets written and not yet pushed. */
    ghost function Pending(): seq<byte>
      requires Building()
      reads this, buf
    {
      buf[wofInit..wof]
    }

    lemma Sizes()
      requires Building()
      ensures |View()| == TotalSize(iov) && |Pending()| == wof - wofInit
    {
    }

    /** rd_kafka_buf_new0; `headerSize` is 0 when no handle is given. */
    constructor (headerSize: nat, vectors: nat, size: nat, growable: bool)
      requires (if headerSize > 0 then vectors + 1 else vectors) <= IOV_MAX
      ensures Building() && fresh(buf) && !crcOn
      ensures this.growable == growable && buf.Length == headerSize + size
      ensures wof == wofInit == headerSize && Pending() == []
      ensures iovCnt == (if headerSize > 0 then vectors + 1 else vectors)
      ensures iov == if headerSize > 0 then [Own(0, headerSize)] else []
    {
      this.buf := new byte[headerSize + size];
      this.iovCnt := if headerSize > 0 then vectors + 1 else vectors;
      this.iov := if headerSize > 0 then [Own(0, headerSize)] else [];
      this.wof, this.wofInit := headerSize, headerSize;
      this.growable := growable;
      this.crcOn, this.crc, this.len, this.corrId := false, 0, 0, 0;
    }

    /** rd_kafka_buf_grow. */
    method Grow(needed: nat)
      requires Valid() && growable
      modifies this`buf
      ensures Valid() && fresh(buf) && needed <= buf.Length
      ensures old(buf.Length) <= buf.Length && buf[..old(buf.Length)] == old(buf[..])
    {
      var alen := if buf.Length < 256 then 256 else buf.Length;
      while needed > alen
        invariant alen >= buf.Length && alen >= 256
        decreases needed - alen
      {
        alen := alen * 2;
      }
      var bigger := new byte[alen];
      forall i | 0 <= i < buf.Length {
        bigger[i] := buf[i];
      }
      buf := bigger;
    }

    /** memcpy into the block. */
    method CopyIn(at: nat, data: seq<byte>)
      requires at + |data| <= buf.Length
      modifies buf
      ensures buf[..] == Patched(old(buf[..]), at, data)
      ensures buf[..at] == old(buf[..at]) && buf[at..at + |data|] == data
    {
      forall i | 0 <= i < |data| {
        buf[at + i] := data[i];
      }
    }

    /** Room for `n` more octets; only the first vector of a growable buffer is repointed. */
    ghost predicate Room(n: nat)
      reads this, buf
    {
      wof + n <= buf.Length || (growable && forall i :: 1 <= i < |iov| ==> iov[i].Ext?)
    }

    /** The first half of rd_kafka_buf_write: make sure `n` octets fit. */
    method Reserve(n: nat)
      requires Valid() && Room(n)
      modifies this`buf
      ensures Valid() && wof + n <= buf.Length && old(buf.Length) <= buf.Length
      ensures if wof + n <= old(buf.Length) then buf == old(buf) else fresh(buf)
      ensures AllBelow(iov, old(buf.Length)) ==> AllBelow(iov, buf.Length)
      ensures buf[..wof] == old(buf[..wof])
    {
      if wof + n > buf.Length {
        Grow(wof + n);
        assert buf[..wof] == buf[..old(buf.Length)][..wof];
      }
    }

    /** rd_kafka_buf_write. */
    method Write(data: seq<byte>) returns (at: nat)
      requires Valid() && Room(|data|)
      modifies this`buf, this`wof, this`crc, buf
      ensures Valid() && (buf == old(buf) || fresh(buf))
      ensures at == old(wof) && wof == at + |data|
      ensures old(buf.Length) <= buf.Length
      ensures wof <= old(buf.Length) ==> buf == old(buf) && buf[..] == Patched(old(buf[..]), at, data)
      ensures buf[..at] == old(buf[..wof]) && buf[at..wof] == data
      ensures crc == if crcOn then Crc32.Updated(old(crc), data) else old(crc)
    {
      hide Crc32.Updated, Patched, AllBelow;
      at := wof;
      Reserve(|data|);
      CopyIn(at, data);
      wof := wof + |data|;
      Cover(data);
    }

    /** The running checksum goes over the octets, if there is one. */
    method Cover(data: seq<byte>)
      modifies this`crc
      ensures crc == if crcOn then Crc32.Updated(old(crc), data) else old(crc)
    {
      hide *;
      if crcOn {
        crc := Crc32.Update(crc, data);
      }
    }

    /** rd_kafka_buf_write as the builders of a request use it. */
    method Append(data: seq<byte>) returns (at: nat)
      requires Building() && Room(|data|)
      modifies this`buf, this`wof, this`crc, buf
      ensures Building() && (buf == old(buf) || fresh(buf))
      ensures at == old(wof) && wof == at + |data|
      ensures old(buf.Length) <= buf.Length
      ensures wof <= old(buf.Length) ==> buf == old(buf)
      ensures View() == old(View()) && Pending() == old(Pending()) + data
      ensures crc == if crcOn then Crc32.Updated(old(crc), data) else old(crc)
    {
      hide Crc32.Updated, Gather, AllBelow, Patched;
      at := Write(data);
      WrittenBehind(old(buf[..]), buf[..], wofInit, at, data);
      GatherFrame(old(buf[..]), buf[..], iov, wofInit);
    }

    /** rd_kafka_buf_update: must not be called while a checksum is being computed. */
    method Update(at: nat, data: seq<byte>)
      requires Valid() && at + |data| <= buf.Length && at < buf.Length && !crcOn
      modifies buf
      ensures Valid() && buf[..] == Patched(old(buf[..]), at, data)
    {
      CopyIn(at, data);
    }

    /** rd_kafka_buf_update of octets not yet pushed. */
    method UpdatePending(at: nat, data: seq<byte>)
      requires Building() && wofInit <= at && at + |data| <= wof && data != [] && !crcOn
      modifies buf
      ensures Building() && View() == old(View())
      ensures |old(Pending())| == wof - wofInit && Pending() == Patched(old(Pending()), at - wofInit, data)
    {
      hide Gather, AllBelow, Patched;
      ghost var mem := buf[..];
      PatchedWithin(mem, at, data, wofInit, wof);
      Update(at, data);
      GatherFrame(mem, buf[..], iov, wofInit);
    }

    /** rd_kafka_buf_push0 (and iov_next inside it). */
    method Push0(v: IoVec, octets: seq<byte>, allowCrc: bool)
      requires Valid() && v.InBounds(buf.Length) && v.Piece(buf[..]) == octets
      requires |iov| + 1 <= iovCnt
      modifies this`iov, this`wofInit, this`crc
      ensures Valid() && iov == old(iov) + [v] && wofInit == wof
      ensures View() == old(View()) + octets
      ensures old(Building()) && v.InBounds(wof) ==> Building() && Pending() == []
      ensures crc == if allowCrc && crcOn then Crc32.Updated(old(crc), octets) else old(crc)
    {
      hide Crc32.Updated, AllBelow, Gather, IoVec.InBounds, IoVec.Piece;
      GatherPush(buf[..], iov, v);
      BelowPush(iov, v, wofInit, wof);
      wofInit := wof;
      iov := iov + [v];
      if allowCrc {
        Cover(octets);
      }
    }

    /** rd_kafka_buf_push: no copy is made, and octets written but not yet pushed are skipped. */
    method Push(octets: seq<byte>)
      requires Building() && |iov| + 1 <= iovCnt
      modifies this`iov, this`wofInit, this`crc
      ensures Building() && Pending() == [] && iov == old(iov) + [Ext(octets)] && wofInit == wof
      ensures View() == old(View()) + octets
      ensures View() == old(View() + Pending()) + octets <==> old(Pending()) == []
      ensures crc == if crcOn then Crc32.Updated(old(crc), octets) else old(crc)
    {
      Push0(Ext(octets), octets, true);
    }

    /** rd_kafka_buf_autopush. */
    method Autopush()
      requires Building() && wof > wofInit && |iov| + 1 <= iovCnt
      modifies this`iov, this`wofInit, this`crc
      ensures Building() && Pending() == [] && iov == old(iov) + [Own(old(wofInit), wof - old(wofInit))]
      ensures wofInit == wof && crc == old(crc)
      ensures View() == old(View()) + old(Pending())
    {
      Push0(Own(wofInit, wof - wofInit), buf[wofInit..wof], false);
    }

    /** rd_kafka_buf_rewind to a checkpoint at which nothing was pending. */
    method Rewind(vectors: nat, newOf: nat, newOfInit: nat)
      requires Valid() && vectors <= |iov| && newOfInit <= newOf <= buf.Length
      requires AllBelow(iov[..vectors], newOfInit)
      modifies this`iov, this`wof, this`wofInit
      ensures Building() && iov == old(iov[..vectors]) && wof == newOf && wofInit == newOfInit
    {
      iov, wof, wofInit := iov[..vectors], newOf, newOfInit;
    }

    method CrcInit()
      requires !crcOn
      modifies this`crcOn, this`crc
      ensures crcOn && crc == Crc32.Init()
      ensures old(Building()) ==> Building() && View() == old(View()) && Pending() == old(Pending())
    {
      crcOn, crc := true, Crc32.Init();
    }

    method CrcFinalize() returns (r: bv32)
      modifies this`crcOn
      ensures !crcOn && r == Crc32.Finalize(crc)
      ensures old(Building()) ==> Building() && View() == old(View()) && Pending() == old(Pending())
    {
      crcOn := false;
      r := Crc32.Finalize(crc);
    }

    lemma PushedParts(pre: seq<IoVec>, v: IoVec, post: seq<IoVec>, data: seq<byte>, at: nat)
      requires Building() && iov == pre + [v] + post && v.Own? && v.of <= at && at + |data| <= v.of + v.len
      requires AllBelow(pre, v.of) && AllAbove(post, v.of + v.len)
      ensures v.of + v.len <= wofInit && AllBelow(iov, buf.Length)
      ensures TotalSize(pre) + at - v.of + |data| <= |View()|
      ensures Gather(Patched(buf[..], at, data), iov) == Patched(View(), TotalSize(pre) + at - v.of, data)
    {
      PostBelow(pre, v, post, wofInit);
      hide Gather, Patched, TotalSize, AllAbove;
      GatherPatched(buf[..], pre, v, post, at, data, View());
    }

    /** rd_kafka_buf_update of octets that were already pushed as part of vector `v`. */
    method UpdatePushed(at: nat, data: seq<byte>, ghost pre: seq<IoVec>, ghost v: IoVec, ghost post: seq<IoVec>)
      requires Building() && Pending() == [] && !crcOn && data != []
      requires iov == pre + [v] + post && v.Own? && v.of <= at && at + |data| <= v.of + v.len
      requires AllBelow(pre, v.of) && AllAbove(post, v.of + v.len)
      modifies buf
      ensures Building() && Pending() == []
      ensures TotalSize(pre) + at - v.of + |data| <= |old(View())|
      ensures View() == Patched(old(View()), TotalSize(pre) + at - v.of, data)
    {
      hide Gather, Patched, TotalSize, AllBelow, AllAbove;
      PushedParts(pre, v, post, data, at);
      CopyIn(at, data);
    }

    /** Offset, MessageSize and a Crc of zero: what no checksum covers. */
    method WriteUncovered(offset: int, size: int) returns (beginOf: nat)
      requires Building() && wof + 16 <= buf.Length && !crcOn
      modifies this`buf, this`wof, this`crc, this`crcOn, buf
      ensures Building() && buf == old(buf) && wof == old(wof) + 16
      ensures beginOf == old(wof)
      ensures View() == old(View())
      ensures Pending() == old(Pending()) + (EncodeInt(offset, 8) + EncodeInt(size, 4)) + EncodeInt(0, 4)
      ensures crcOn && crc == Crc32.Init()
    {
      hide View, Pending, Gather, AllBelow, EncodeInt, KBytesOctets, Crc32.Init, Crc32.Updated;
      beginOf := Append(EncodeInt(offset, 8));
      var _ := Append(EncodeInt(size, 4));
      var _ := Append(EncodeInt(0, 4));
      CrcInit();
    }

    /** MagicByte and Attributes, with all that is pending pushed behind them. */
    method WriteAttributes(magic: int, attributes: int)
      requires Building() && wof + 2 <= buf.Length && |iov| + 1 <= iovCnt && crcOn
      modifies this`buf, this`wof, this`crc, this`iov, this`wofInit, buf
      ensures Building() && buf == old(buf) && wof == wofInit == old(wof) + 2 && Pending() == []
      ensures iov == old(iov) + [Own(old(wofInit), wof - old(wofInit))]
      ensures View() == old(View()) + (old(Pending()) + EncodeInt(magic, 1) + EncodeInt(attributes, 1))
      ensures crc == Crc32.Updated(Crc32.Updated(old(crc), EncodeInt(magic, 1)), EncodeInt(attributes, 1))
    {
      hide View, Pending, Gather, AllBelow, EncodeInt, KBytesOctets, Crc32.Init, Crc32.Updated;
      var _ := Append(EncodeInt(magic, 1));
      var _ := Append(EncodeInt(attributes, 1));
      Autopush();
    }

    /** The key, and the length of the value. */
    method WriteKey(key: KBytes, valueLen: int)
      requires Building() && Pending() == [] && wof + 4 <= buf.Length && |iov| + 2 <= iovCnt && crcOn
      modifies this`buf, this`wof, this`crc, this`iov, this`wofInit, buf
      ensures Building() && buf == old(buf) && wof == wofInit == old(wof) + 4 && Pending() == []
      ensures iov == old(iov) + [Ext(KBytesOctets(key))] + [Own(old(wof), 4)]
      ensures View() == old(View()) + KBytesOctets(key) + EncodeInt(valueLen, 4)
      ensures crc == Crc32.Updated(Crc32.Updated(old(crc), KBytesOctets(key)), EncodeInt(valueLen, 4))
    {
      hide View, Pending, Gather, AllBelow, EncodeInt, KBytesOctets, Crc32.Init, Crc32.Updated;
      Push(KBytesOctets(key));
      var _ := Append(EncodeInt(valueLen, 4));
      Autopush();
    }

    /** All of rd_kafka_buf_write_Message but the last step: the Crc field still reads zero. */
    method WriteUnsummed(m: Message, len: int) returns (beginOf: nat)
      requires Building() && !crcOn && wof + COPIED <= buf.Length
      requires |iov| + VectorsOf(m) <= iovCnt
      requires m.value.Some? ==> len == |m.value.value|
      modifies this`buf, this`wof, this`crc, this`crcOn, this`iov, this`wofInit, buf
      ensures Building() && Pending() == [] && crcOn
      ensures buf == old(buf) && wof == wofInit == old(wof) + COPIED
      ensures beginOf == old(wof)
      ensures iov == old(iov) + [Own(old(wofInit), beginOf + 18 - old(wofInit))] + Tail(m, beginOf + 18)
      ensures View() == old(View()) + Unsummed(old(Pending()), m, DeclaredSize(m, len))
      ensures crc == Crc32.Updated(Crc32.Init(), Body(m))
    {
      hide View, Pending, Gather, AllBelow, EncodeInt, KBytesOctets, Crc32.Init, Crc32.Updated, Body, Unsummed;
      ghost var v0, p0 := View(), Pending();
      beginOf := WriteUncovered(m.offset, DeclaredSize(m, len));
      WriteAttributes(m.magic, m.attributes);
      var valueLen := if m.value.Some? then len else -1;
      WriteKey(m.key, valueLen);
      if m.value.Some? {
        Push(m.value.value);
      }
      ChecksumInPieces(m);
      UnsummedInPieces(v0, p0, m, DeclaredSize(m, len));
    }

    /** Finish the checksum and write it into octets already pushed as part of `v`. */
    method FinishCrc(at: nat, ghost pre: seq<IoVec>, ghost v: IoVec, ghost post: seq<IoVec>)
      requires Building() && Pending() == [] && crcOn
      requires iov == pre + [v] + post && v.Own? && v.of <= at && at + 4 <= v.of + v.len
      requires AllBelow(pre, v.of) && AllAbove(post, v.of + v.len)
      modifies this`crcOn, buf
      ensures Building() && Pending() == [] && !crcOn
      ensures TotalSize(pre) + at - v.of + 4 <= |old(View())|
      ensures View() == Patched(old(View()), TotalSize(pre) + at - v.of, Crc32.CrcOctets(Crc32.Finalize(crc)))
    {
      hide View, Pending, Gather, AllBelow, AllAbove, Crc32.CrcOctets, Crc32.Finalize, TotalSize, Patched;
      var sum := CrcFinalize();
      UpdatePushed(at, Crc32.CrcOctets(sum), pre, v, post);
    }

    /** rd_kafka_buf_write_Message. */
    method WriteMessage(m: Message, len: int) returns (beginOf: nat, outlen: int)
      requires Building() && !crcOn && wof + COPIED <= buf.Length
      requires |iov| + VectorsOf(m) <= iovCnt
      requires m.value.Some? ==> len == |m.value.value|
      modifies this`buf, this`wof, this`crc, this`crcOn, this`iov, this`wofInit, buf
      ensures Building() && Pending() == [] && !crcOn
      ensures buf == old(buf) && wof == wofInit == old(wof) + COPIED && beginOf == old(wof)
      ensures iov == old(iov) + [Own(old(wofInit), beginOf + 18 - old(wofInit))] + Tail(m, beginOf + 18)
      ensures View() == old(View()) + (old(Pending()) + Framed(m, DeclaredSize(m, len)))
      ensures outlen == 12 + DeclaredSize(m, len)
      ensures var n := |old(View())| + |old(Pending())|;
        n + 16 <= |View()| && Checked(View()[n + 12..n + 16], View()[n + 16..])
    {
      hide View, Pending, Gather, AllBelow, AllAbove, Tail, EncodeInt, KBytesOctets;
      hide Crc32.Init, Crc32.Updated, Crc32.Finalize, Crc32.CrcOctets, Body, Framed, Unsummed, TotalSize, Patched;
      hide Checked;
      ghost var pre, of0, v0, p0 := iov, wofInit, View(), Pending();
      Sizes();
      TailAbove(m, wof + 18);
      beginOf := WriteUnsummed(m, len);
      FinishCrc(beginOf + 12, pre, Own(of0, beginOf + 18 - of0), Tail(m, beginOf + 18));
      SummedInPlace(v0, p0, m, DeclaredSize(m, len));
      CrcInPlace(View(), v0, p0, m, DeclaredSize(m, len));
      outlen := 12 + DeclaredSize(m, len);
    }

    /** The first vector is the space for the request header, and nothing else points into it. */
    ghost predicate HeaderFirst(size: nat)
      reads this, buf
    {
      Valid() && iov != [] && iov[0] == Own(0, size) && AllAbove(iov[1..], size)
    }

    lemma HeaderPatched(size: nat, at: nat, data: seq<byte>)
      requires HeaderFirst(size) && at + |data| <= size
      ensures size <= |View()| && size <= buf.Length
      ensures Gather(Patched(buf[..], at, data), iov) == Patched(View(), at, data)
    {
      hide Gather, Patched, AllAbove;
      assert iov == [] + [iov[0]] + iov[1..];
      PostBelow([], iov[0], iov[1..], buf.Length);
      GatherPatched(buf[..], [], iov[0], iov[1..], at, data, View());
      GatherAround(buf[..], [], iov[0], iov[1..]);
    }

    /** rd_kafka_buf_update inside the header. */
    method UpdateHeader(at: nat, data: seq<byte>, ghost size: nat)
      requires HeaderFirst(size) && at + |data| <= size && !crcOn && data != []
      modifies buf
      ensures HeaderFirst(size) && size <= |old(View())|
      ensures View() == Patched(old(View()), at, data)
    {
      hide Gather, Patched, AllBelow, AllAbove;
      HeaderPatched(size, at, data);
      CopyIn(at, data);
    }

    /** The fields of the header, Size and CorrId still zero. */
    method WriteHeader(apiKey: int, apiVersion: int, clientId: KString)
      requires Valid() && wof == 0 && 12 + |KStringOctets(clientId)| <= buf.Length && !crcOn
      modifies this`buf, this`wof, this`crc, buf
      ensures Valid() && buf == old(buf) && wof == 12 + |KStringOctets(clientId)|
      ensures buf[..] == Patched(old(buf[..]), 0, RequestHeader(0, apiKey, apiVersion, 0, clientId))
    {
      hide EncodeInt, KStringOctets, Patched, AllBelow, Crc32.Updated;
      ghost var mem := buf[..];
      var _ := Write(EncodeInt(0, 4));
      var _ := Write(EncodeInt(apiKey, 2));
      PatchedTwice(mem, 0, EncodeInt(0, 4), EncodeInt(apiKey, 2));
      var _ := Write(EncodeInt(apiVersion, 2));
      PatchedTwice(mem, 0, EncodeInt(0, 4) + EncodeInt(apiKey, 2), EncodeInt(apiVersion, 2));
      WriteHeaderRest(mem, EncodeInt(0, 4) + EncodeInt(apiKey, 2) + EncodeInt(apiVersion, 2), clientId);
    }

    method WriteHeaderRest(ghost mem: seq<byte>, ghost first: seq<byte>, clientId: KString)
      requires Valid() && wof == |first| && |first| + 4 + |KStringOctets(clientId)| <= buf.Length == |mem| && !crcOn
      requires buf[..] == Patched(mem, 0, first)
      modifies this`buf, this`wof, this`crc, buf
      ensures Valid() && buf == old(buf) && wof == |first| + 4 + |KStringOctets(clientId)|
      ensures buf[..] == Patched(mem, 0, first + EncodeInt(0, 4) + KStringOctets(clientId))
    {
      hide EncodeInt, KStringOctets, Patched, AllBelow, Crc32.Updated;
      var _ := Write(EncodeInt(0, 4));
      PatchedTwice(mem, 0, first, EncodeInt(0, 4));
      var _ := Write(KStringOctets(clientId));
      PatchedTwice(mem, 0, first + EncodeInt(0, 4), KStringOctets(clientId));
    }

    /** rd_kafka_buf_finalize: every octet written has been pushed. */
    method FinalizeRequest(apiKey: int, apiVersion: int, clientId: KString)
      requires Building() && Pending() == [] && !crcOn
      requires HeaderFirst(12 + |KStringOctets(clientId)|)
      modifies this`buf, this`wof, this`crc, this`len, buf
      ensures HeaderFirst(12 + |KStringOctets(clientId)|) && iov == old(iov) && buf == old(buf)
      ensures 12 + |KStringOctets(clientId)| <= |old(View())| && len == |View()| == |old(View())|
      ensures View() == RequestHeader(len - 4, apiKey, apiVersion, 0, clientId)
                        + old(View())[12 + |KStringOctets(clientId)|..]
    {
      hide EncodeInt, KStringOctets, RequestHeader, Patched, AllBelow, AllAbove, Gather, Crc32.Updated, TotalSize;
      ghost var v0 := View();
      ghost var blank := RequestHeader(0, apiKey, apiVersion, 0, clientId);
      HeaderSize(0, apiKey, apiVersion, 0, clientId);
      HeaderPatched(|blank|, 0, blank);
      wof := 0;
      WriteHeader(apiKey, apiVersion, clientId);
      assert View() == Patched(v0, 0, blank);
      len := MsghdrSize(iov);
      UpdateHeader(0, EncodeInt(len - 4, 4), |blank|);
      SizeFilledIn(v0, len - 4, apiKey, apiVersion, clientId);
    }

    /** The start of rd_kafka_broker_buf_enq0: each enqueueing takes a CorrId of its own. */
    method SetCorrId(id: int, ghost clientId: KString)
      requires HeaderFirst(12 + |KStringOctets(clientId)|) && !crcOn
      modifies this`corrId, buf
      ensures HeaderFirst(12 + |KStringOctets(clientId)|) && corrId == id && |View()| == |old(View())|
      ensures forall size, apiKey, apiVersion, was, body ::
        old(View()) == RequestHeader(size, apiKey, apiVersion, was, clientId) + body
        ==> View() == RequestHeader(size, apiKey, apiVersion, id, clientId) + body
    {
      hide EncodeInt, KStringOctets, RequestHeader, Patched, AllBelow, AllAbove, Gather;
      ghost var v0 := View();
      corrId := id;
      UpdateHeader(8, EncodeInt(id, 4), 12 + |KStringOctets(clientId)|);
      forall size, apiKey, apiVersion, was, body
        | v0 == RequestHeader(size, apiKey, apiVersion, was, clientId) + body
        ensures View() == RequestHeader(size, apiKey, apiVersion, id, clientId) + body
      {
        CorrIdFilledIn(size, apiKey, apiVersion, was, id, clientId, body);
      }
    }
  }
}
