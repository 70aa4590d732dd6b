/**
 rd_kafka_recv: reassembly of response frames from whatever pieces the transport delivers.

 A frame is Size:4 CorrId:4 and Size - 4 octets of payload. Eight octets are read into
 a first buffer; the payload goes to a second one of exactly its size.
 */
module Receive {
  import opened Bytes
  import opened WriteBuffer
  import MsgHdr

  /** RD_KAFKAP_RESHDR_SIZE */
  const HEADER: nat := 8

  datatype Frame = Frame(corrId: int, payload: seq<byte>)

  /**
   Open: waiting for octets. Stuck: a frame without payload has been read and the source
   waits for it to grow. Failed: rd_kafka_broker_fail. Aborted: called while stuck, the
   assertion of rdkafka_broker.c:1022 fails.
   */
  datatype Ending = Open | Stuck | Failed | Aborted

  datatype Outcome = Outcome(frames: seq<Frame>, ending: Ending)

  /** A negative Size is a huge size_t. */
  predicate BadSize(size: int, maxSize: int) {
    size < 4 || size > maxSize
  }

  /** The reference: cut the stream into frames. */
  function Decode(stream: seq<byte>, maxSize: int): (o: Outcome)
    ensures o.ending != Aborted
  {
    if |stream| < HEADER then Outcome([], Open)
    else
      var size := DecodeInt(stream[..4]);
      if BadSize(size, maxSize) then Outcome([], Failed)
      else if size == 4 then Outcome([], Stuck)
      else if |stream| < 4 + size then Outcome([], Open)
      else
        var rest := Decode(stream[4 + size..], maxSize);
        Outcome([Frame(DecodeInt(stream[4..8]), stream[8..4 + size])] + rest.frames, rest.ending)
  }

  /** What follows the last whole frame. */
  function Unfinished(stream: seq<byte>, maxSize: int): seq<byte> {
    if |stream| < HEADER then stream
    else
      var size := DecodeInt(stream[..4]);
      if BadSize(size, maxSize) || size == 4 || |stream| < 4 + size then stream
      else Unfinished(stream[4 + size..], maxSize)
  }

  lemma SlicesOfConcat(s: seq<byte>, more: seq<byte>, n: nat)
    requires HEADER <= n <= |s|
    ensures (s + more)[..4] == s[..4] && (s + more)[4..8] == s[4..8]
    ensures (s + more)[8..n] == s[8..n] && (s + more)[n..] == s[n..] + more
  {
  }

  /** The stream starts with a frame that is whole. */
  predicate StartsWhole(stream: seq<byte>, maxSize: int) {
    |stream| >= HEADER
    && var size := DecodeInt(stream[..4]); !BadSize(size, maxSize) && size != 4 && |stream| >= 4 + size
  }

  lemma WholeStep(stream: seq<byte>, more: seq<byte>, maxSize: int)
    requires StartsWhole(stream, maxSize)
    ensures var n := 4 + DecodeInt(stream[..4]);
      && HEADER < n <= |stream| && (stream + more)[n..] == stream[n..] + more
      && var f := Frame(DecodeInt(stream[4..8]), stream[8..n]);
      && Decode(stream, maxSize) == Prepend(f, Decode(stream[n..], maxSize))
      && Decode(stream + more, maxSize) == Prepend(f, Decode(stream[n..] + more, maxSize))
      && Unfinished(stream, maxSize) == Unfinished(stream[n..], maxSize)
      && Unfinished(stream + more, maxSize) == Unfinished(stream[n..] + more, maxSize)
  {
    hide DecodeInt;
    SlicesOfConcat(stream, more, 4 + DecodeInt(stream[..4]));
  }

  function Prepend(f: Frame, o: Outcome): Outcome {
    Outcome([f] + o.frames, o.ending)
  }

  lemma PartialStep(stream: seq<byte>, maxSize: int)
    requires !StartsWhole(stream, maxSize)
    ensures Decode(stream, maxSize).frames == [] && Unfinished(stream, maxSize) == stream
  {
    hide DecodeInt;
  }

  /** Octets that arrive later only continue the unfinished frame. */
  lemma {:induction false} DecodeMore(stream: seq<byte>, more: seq<byte>, maxSize: int)
    ensures var a, b := Decode(stream, maxSize), Decode(Unfinished(stream, maxSize) + more, maxSize);
      Decode(stream + more, maxSize) == Outcome(a.frames + b.frames, b.ending)
    ensures Unfinished(stream + more, maxSize) == Unfinished(Unfinished(stream, maxSize) + more, maxSize)
    decreases |stream|
  {
    hide DecodeInt, Decode, Unfinished, StartsWhole;
    if StartsWhole(stream, maxSize) {
      WholeStep(stream, more, maxSize);
      DecodeMore(stream[4 + DecodeInt(stream[..4])..], more, maxSize);
    } else {
      PartialStep(stream, maxSize);
    }
  }

  /** Pieces in the order they arrive. */
  function Joined(chunks: seq<seq<byte>>): seq<byte> {
    if chunks == [] then [] else Joined(chunks[..|chunks| - 1]) + chunks[|chunks| - 1]
  }

  /** Frames handed up, and the octets kept, when the pieces are taken one at a time. */
  function Fed(chunks: seq<seq<byte>>, maxSize: int): (seq<Frame>, seq<byte>) {
    if chunks == [] then ([], [])
    else
      var (frames, partial) := Fed(chunks[..|chunks| - 1], maxSize);
      var now := partial + chunks[|chunks| - 1];
      (frames + Decode(now, maxSize).frames, Unfinished(now, maxSize))
  }

  /** Main result: how the stream is chopped makes no difference. */
  lemma {:induction false} ChoppingIsIrrelevant(chunks: seq<seq<byte>>, maxSize: int)
    ensures Fed(chunks, maxSize) == (Decode(Joined(chunks), maxSize).frames, Unfinished(Joined(chunks), maxSize))
  {
    hide Decode, Unfinished;
    if chunks == [] {
      NothingToDecode(maxSize);
    } else {
      var init := chunks[..|chunks| - 1];
      ChoppingIsIrrelevant(init, maxSize);
      DecodeMore(Joined(init), chunks[|chunks| - 1], maxSize);
    }
  }

  lemma NothingToDecode(maxSize: int)
    ensures Decode([], maxSize) == Outcome([], Open) && Unfinished([], maxSize) == []
  {
  }

  // ----- What the peer sends

  function FrameOctets(f: Frame): seq<byte> {
    EncodeInt(4 + |f.payload|, 4) + EncodeInt(f.corrId, 4) + f.payload
  }

  /** Size, CorrId and payload; Size does not count itself. */
  lemma FrameLayout(f: Frame)
    requires Sendable(f)
    ensures |FrameOctets(f)| == 8 + |f.payload| && FrameOctets(f)[8..] == f.payload
    ensures DecodeInt(FrameOctets(f)[..4]) == 4 + |f.payload| && DecodeInt(FrameOctets(f)[4..8]) == f.corrId
  {
    IntRoundTrip(4 + |f.payload|, 4);
    IntRoundTrip(f.corrId, 4);
    hide EncodeInt, DecodeInt;
    assert FrameOctets(f)[..4] == EncodeInt(4 + |f.payload|, 4) && FrameOctets(f)[4..8] == EncodeInt(f.corrId, 4);
  }

  function StreamOf(fs: seq<Frame>): seq<byte> {
    if fs == [] then [] else FrameOctets(fs[0]) + StreamOf(fs[1..])
  }

  predicate Sendable(f: Frame) {
    FitsInt(4 + |f.payload|, 4) && FitsInt(f.corrId, 4)
  }

  /** What rd_kafka_recv accepts: a payload, and not too much of it. */
  predicate Accepted(f: Frame, maxSize: int) {
    f.payload != [] && 4 + |f.payload| <= maxSize
  }

  /** The frames before the first one that is not accepted. */
  function AcceptedRun(fs: seq<Frame>, maxSize: int): (r: seq<Frame>)
    ensures r == fs <==> forall f <- fs :: Accepted(f, maxSize)
  {
    if fs == [] || !Accepted(fs[0], maxSize) then
      assert fs != [] ==> fs[0] in fs;
      []
    else
      var rest := AcceptedRun(fs[1..], maxSize);
      assert fs == [fs[0]] + fs[1..];
      assert ([fs[0]] + rest)[1..] == rest;
      [fs[0]] + rest
  }

  lemma FrameParts(f: Frame, tail: seq<byte>)
    requires Sendable(f)
    ensures var s := FrameOctets(f) + tail; var n := 8 + |f.payload|;
      |s| >= n && DecodeInt(s[..4]) == 4 + |f.payload| && DecodeInt(s[4..8]) == f.corrId
      && s[8..n] == f.payload && s[n..] == tail
  {
    hide EncodeInt, DecodeInt, FitsInt;
    IntRoundTrip(4 + |f.payload|, 4);
    IntRoundTrip(f.corrId, 4);
    var a, b := EncodeInt(4 + |f.payload|, 4), EncodeInt(f.corrId, 4);
    var s := a + b + f.payload + tail;
    assert s[..4] == a && s[4..8] == b;
  }

  /**
   The frames handed up are those before the first that is empty or too large; so all of
   them are handed up exactly when every frame has a payload and an allowed Size.
   */
  lemma {:induction false} DecodeStream(fs: seq<Frame>, maxSize: int)
    requires forall f <- fs :: Sendable(f)
    ensures Decode(StreamOf(fs), maxSize).frames == AcceptedRun(fs, maxSize)
    ensures Decode(StreamOf(fs), maxSize).frames == fs <==> forall f <- fs :: Accepted(f, maxSize)
  {
    hide DecodeInt, FrameOctets, EncodeInt, FitsInt;
    if fs != [] {
      var f := fs[0];
      assert f in fs;
      FrameParts(f, StreamOf(fs[1..]));
      DecodeStream(fs[1..], maxSize);
    }
  }

  /** An empty frame between two others: only the first is ever handed up. */
  lemma EmptyFrameStops(a: Frame, b: Frame, corrId: int, maxSize: int)
    requires Sendable(a) && Sendable(b) && FitsInt(corrId, 4) && Accepted(a, maxSize)
    ensures var fs := [a, Frame(corrId, []), b];
      Decode(StreamOf(fs), maxSize).frames == [a] && Decode(StreamOf(fs), maxSize).ending == Stuck
  {
    var empty := Frame(corrId, []);
    var fs := [a, empty, b];
    Widths();
    assert fs[1..] == [empty, b] && fs[1..][1..] == [b];
    hide DecodeInt, FrameOctets, EncodeInt, FitsInt;
    FrameParts(a, StreamOf(fs[1..]));
    FrameParts(empty, StreamOf([b]));
  }

  class Receiver {
    const maxSize: int          // receive.message.max.bytes
    var started: bool           // rkb_recv_buf != NULL
    var block: array<byte>      // what rkbuf_iov[0] points into
    var iov: seq<IoVec>
    var wof: nat
    var len: nat                // rkbuf_len; 0 while the header is incomplete
    var corrId: int
    var delivered: seq<Frame>   // handed to rd_kafka_req_response, in order
    var ending: Ending
    ghost var header: seq<byte> // the header, once the payload buffer has replaced it

    ghost predicate Valid()
      reads this, block
    {
      && wof <= block.Length
      && (started && len == 0 ==>
          && iov == [Own(0, HEADER)] && block.Length == HEADER
          && (if ending == Stuck || ending == Aborted then wof == HEADER else wof < HEADER && ending == Open))
      && (started && len > 0 ==>
          && iov == [Own(0, len)] && block.Length == len && wof < len && ending == Open
          && |header| == HEADER && DecodeInt(header[..4]) == len + 4 && len + 4 <= maxSize
          && DecodeInt(header[4..8]) == corrId)
      && (!started ==> ending == Open || ending == Failed)
    }

    /** The octets of the frame being read. */
    ghost function Partial(): seq<byte>
      requires Valid()
      reads this, block
    {
      if !started then [] else if len == 0 then block[..wof] else header + block[..wof]
    }

    /** How many octets the transport may deliver. */
    function Room(): nat
      reads this
    {
      if !started then HEADER
      else
        var limit := if len == 0 then HEADER else len;
        if wof <= limit then limit - wof else 0
    }

    constructor (maxSize: int)
      ensures Valid() && this.maxSize == maxSize
      ensures delivered == [] && ending == Open && Partial() == [] && fresh(block)
    {
      this.maxSize := maxSize;
      started, block, iov, wof, len := false, new byte[HEADER], [], 0, 0;
      corrId, delivered, ending, header := 0, [], Open, [];
    }

    /** Place what the transport moved behind what is there. */
    method Fill(chunk: seq<byte>)
      requires wof + |chunk| <= block.Length
      modifies block, this`wof
      ensures wof == old(wof) + |chunk| && block[..wof] == old(block[..wof]) + chunk
    {
      forall i | 0 <= i < |chunk| {
        block[wof + i] := chunk[i];
      }
      wof := wof + |chunk|;
    }

    /** The part of rd_kafka_recv that runs while the packet length is not known. */
    method TakeHeader(chunk: seq<byte>)
      requires Valid() && started && len == 0 && ending == Open && wof + |chunk| <= HEADER
      modifies this`wof, this`len, this`corrId, this`ending, this`started, this`block, this`iov, this`header, block
      ensures Valid() && delivered == old(delivered) && (block == old(block) || fresh(block))
      ensures var o := Decode(old(Partial()) + chunk, maxSize);
        o.frames == [] && ending == o.ending
      ensures ending != Failed ==> Partial() == Unfinished(old(Partial()) + chunk, maxSize) == old(Partial()) + chunk
    {
      hide DecodeInt;
      Fill(chunk);
      ghost var all := block[..wof];
      if wof < HEADER { return; }
      assert all == block[..];
      assert all[..4] == block[..4] && all[4..8] == block[4..8];
      var size := DecodeInt(block[..4]);
      corrId := DecodeInt(block[4..8]);
      if BadSize(size, maxSize) {
        started, ending := false, Failed;
        return;
      }
      len := size - 4;
      if len > 0 {
        header := block[..];
        block := new byte[len];
        wof := 0;
        iov := [Own(0, len)];
        assert header + block[..0] == all;
      } else {
        ending := Stuck;
      }
    }

    /** The part that runs once it is known. */
    method TakePayload(chunk: seq<byte>)
      requires Valid() && started && len > 0 && wof + |chunk| <= len
      modifies this`wof, this`started, this`delivered, block
      ensures Valid() && ending == old(ending)
      ensures var o := Decode(old(Partial()) + chunk, maxSize);
        delivered == old(delivered) + o.frames && ending == o.ending
      ensures Partial() == Unfinished(old(Partial()) + chunk, maxSize)
    {
      hide DecodeInt;
      ghost var all := Partial() + chunk;
      Fill(chunk);
      assert all == header + block[..wof];
      assert all[..4] == header[..4] && all[4..8] == header[4..8] && all[8..] == block[..wof];
      if wof == len {
        assert all[8..4 + (len + 4)] == block[..] && all[4 + (len + 4)..] == [];
        delivered := delivered + [Frame(corrId, block[..])];
        started := false;
      }
    }

    /** rd_kafka_recv; `chunk` is what the transport moved, empty for EAGAIN. */
    method Recv(chunk: seq<byte>)
      requires Valid() && (ending == Open || ending == Stuck) && |chunk| <= Room()
      modifies this, block
      ensures Valid() && (block == old(block) || fresh(block))
      ensures old(ending) == Stuck ==> ending == Aborted && delivered == old(delivered)
      ensures old(ending) == Open ==>
        var o := Decode(old(Partial()) + chunk, maxSize);
        && delivered == old(delivered) + o.frames && ending == o.ending
        && (ending != Failed ==> Partial() == Unfinished(old(Partial()) + chunk, maxSize))
    {
      hide DecodeInt, Decode, Unfinished, Gather, TotalSize, IoVec.Piece;
      ghost var before := Partial();
      if !started {
        block := new byte[HEADER];
        iov, wof, len, started := [Own(0, HEADER)], 0, 0, true;
      }
      SingleVector(iov[0]);
      var msg := MsgHdr.Rebuild(iov, wof, |iov|, block[..]);
      var room := MsghdrSize(msg);
      if room == 0 {
        ending := Aborted;
      } else if len == 0 {
        TakeHeader(chunk);
      } else {
        TakePayload(chunk);
      }
    }

    /** The transport reports an error: rd_kafka_broker_fail drops what was read of the frame. */
    method RecvError()
      requires Valid() && (ending == Open || ending == Stuck)
      modifies this`started, this`ending
      ensures Valid() && ending == (if old(ending) == Stuck then Aborted else Failed) && delivered == old(delivered)
    {
      if ending == Stuck {
        ending := Aborted;
        return;
      }
      started, ending := false, Failed;
    }

    /** What is known after the first `pos` octets, `was` having been handed up before. */
    ghost predicate After(stream: seq<byte>, pos: nat, was: seq<Frame>, broken: bool)
      requires Valid()
      reads this, block
    {
      && pos <= |stream|
      && var o := Decode(stream[..pos], maxSize);
      && delivered == was + o.frames
      && (if o.ending == Stuck then ending == Stuck || ending == Aborted
          else ending == o.ending || (broken && ending == Failed))
      && (ending == Open || ending == Stuck ==> Partial() == Unfinished(stream[..pos], maxSize))
    }

    lemma AfterMore(stream: seq<byte>, pos: nat, n: nat, was: seq<Frame>, broken: bool)
      requires Valid() && After(stream, pos, was, broken) && pos + n <= |stream| && ending == Open
      ensures var chunk := stream[pos..pos + n];
        var a, b := Decode(stream[..pos], maxSize), Decode(Partial() + chunk, maxSize);
        && Decode(stream[..pos + n], maxSize) == Outcome(a.frames + b.frames, b.ending)
        && Unfinished(stream[..pos + n], maxSize) == Unfinished(Partial() + chunk, maxSize)
        && delivered == was + a.frames && delivered + b.frames == was + (a.frames + b.frames)
    {
      hide Decode, Unfinished, Valid, Partial;
      var chunk := stream[pos..pos + n];
      assert stream[..pos] + chunk == stream[..pos + n];
      DecodeMore(stream[..pos], chunk, maxSize);
    }

    /**
     The loop around rd_kafka_recv, for any stream and any way of chopping it: the i-th call
     gets at most `moves[i]` octets, or an error. What has been handed up is what the octets
     read so far decode to, and the whole stream is decoded unless the transport stops short.
     */
    method RecvAll(stream: seq<byte>, moves: seq<Option<nat>>) returns (pos: nat)
      requires Valid() && !started && ending == Open
      modifies this, block
      ensures Valid() && After(stream, pos, old(delivered), None in moves)
      ensures pos == |stream| || Decode(stream[..pos], maxSize).ending != Open ==>
        delivered == old(delivered) + Decode(stream, maxSize).frames
    {
      hide Decode, Unfinished, DecodeInt, Valid, Partial, Room, After;
      pos := 0;
      ghost var was := delivered;
      Nothing(stream, None in moves);
      var i := 0;
      while i < |moves| && (ending == Open || ending == Stuck)
        invariant 0 <= i <= |moves| && pos <= |stream| && Valid() && After(stream, pos, was, None in moves)
        invariant block == old(block) || fresh(block)
      {
        pos := Step(stream, pos, moves[i], was, None in moves);
        i := i + 1;
      }
      if pos == |stream| || Decode(stream[..pos], maxSize).ending != Open {
        Whole(stream, pos, was, None in moves);
      }
    }

    lemma Nothing(stream: seq<byte>, broken: bool)
      requires Valid() && !started && ending == Open
      ensures After(stream, 0, delivered, broken)
    {
      hide Decode, Unfinished, Valid;
      NothingToDecode(maxSize);
      assert stream[..0] == [];
      assert delivered + [] == delivered;
    }

    lemma Whole(stream: seq<byte>, pos: nat, was: seq<Frame>, broken: bool)
      requires Valid() && After(stream, pos, was, broken)
      requires pos == |stream| || Decode(stream[..pos], maxSize).ending != Open
      ensures delivered == was + Decode(stream, maxSize).frames
    {
      hide Decode, Unfinished, Valid, Partial;
      assert stream == stream[..pos] + stream[pos..];
      if pos == |stream| {
        assert stream[..pos] == stream;
      } else {
        EndedStays(stream[..pos], stream[pos..], maxSize);
      }
    }

    /** One call: the transport moves no more than there is room for, and no more than there is. */
    method Step(stream: seq<byte>, pos: nat, move: Option<nat>, ghost was: seq<Frame>, ghost broken: bool)
      returns (next: nat)
      requires Valid() && pos <= |stream| && After(stream, pos, was, broken) && (ending == Open || ending == Stuck)
      requires move == None ==> broken
      modifies this, block
      ensures Valid() && pos <= next <= |stream| && After(stream, next, was, broken)
      ensures block == old(block) || fresh(block)
    {
      hide Decode, Unfinished, DecodeInt, Valid, Partial, Room;
      next := pos;
      if move == None {
        RecvError();
        return;
      }
      var n := if move.value < Room() then move.value else Room();
      if pos + n > |stream| {
        n := |stream| - pos;
      }
      var stuck := ending == Stuck;
      if ending == Open {
        AfterMore(stream, pos, n, was, broken);
      }
      Recv(stream[pos..pos + n]);
      if !stuck {
        next := pos + n;
      }
    }
  }

  /** Once the receiver no longer waits for octets, those that follow change nothing. */
  lemma {:induction false} EndedStays(stream: seq<byte>, more: seq<byte>, maxSize: int)
    requires Decode(stream, maxSize).ending != Open
    ensures Decode(stream + more, maxSize) == Decode(stream, maxSize)
    decreases |stream|
  {
    hide DecodeInt, Unfinished;
    SlicesOfConcat(stream, more, HEADER);
    if StartsWhole(stream, maxSize) {
      WholeStep(stream, more, maxSize);
      EndedStays(stream[4 + DecodeInt(stream[..4])..], more, maxSize);
    }
  }

  lemma SingleVector(v: IoVec)
    ensures TotalSize([v]) == v.Size()
  {
    assert [v][..0] == [];
  }
}
