/** rd_kafka_msghdr_rebuild: the vectors of a message that skip its first octets. */
module MsgHdr {
  import opened Bytes
  import opened WriteBuffer

  function Min(a: nat, b: nat): nat { if a < b then a else b }

  /** What is left of a vector after its first `n` octets. */
  function Advance(v: IoVec, n: nat): (r: IoVec)
    requires n <= v.Size()
    ensures r.Size() == v.Size() - n
  {
    if v.Own? then Own(v.of + n, v.len - n) else Ext(v.data[n..])
  }

  lemma AdvancePiece(mem: seq<byte>, v: IoVec, n: nat)
    requires n <= v.Size() && v.InBounds(|mem|)
    ensures Advance(v, n).InBounds(|mem|) && Advance(v, n).Piece(mem) == v.Piece(mem)[n..]
  {
  }

  /** The suffix of `whole + piece` after `of` octets, piece by piece. */
  lemma SuffixConcat(whole: seq<byte>, piece: seq<byte>, of: nat)
    ensures (whole + piece)[Min(of, |whole + piece|)..]
         == whole[Min(of, |whole|)..] + piece[Min(if of < |whole| then 0 else of - |whole|, |piece|)..]
  {
  }

  /** Exactly the octets from `of` on are described, and by no more vectors than before. */
  method Rebuild(src: seq<IoVec>, of: nat, dstLen: nat, ghost mem: seq<byte>) returns (dst: seq<IoVec>)
    requires |src| <= dstLen && AllBelow(src, |mem|)
    ensures |dst| <= |src| && AllBelow(dst, |mem|)
    ensures Gather(mem, dst) == Gather(mem, src)[Min(of, TotalSize(src))..]
    ensures TotalSize(dst) == TotalSize(src) - Min(of, TotalSize(src))
    ensures forall i :: 0 <= i < |dst| ==> dst[i].Size() > 0
  {
    hide Gather, Advance, IoVec.Piece, IoVec.InBounds;
    dst := [];
    var len := 0;
    GatherNothing(mem);
    for i := 0 to |src|
      invariant |dst| <= i && AllBelow(src[..i], |mem|) && AllBelow(dst, |mem|)
      invariant len == TotalSize(src[..i])
      invariant Gather(mem, dst) == Gather(mem, src[..i])[Min(of, len)..]
      invariant forall j :: 0 <= j < |dst| ==> dst[j].Size() > 0
    {
      var v := src[i];
      ghost var before := Gather(mem, src[..i]);
      assert src[..i + 1] == src[..i] + [v];
      GatherPush(mem, src[..i], v);
      SuffixConcat(before, v.Piece(mem), of);
      SizePush(src[..i], v);
      var vof := if of < len then 0 else of - len;
      if vof < v.Size() {
        AdvancePiece(mem, v, vof);
        GatherPush(mem, dst, Advance(v, vof));
        dst := dst + [Advance(v, vof)];
      }
      len := len + v.Size();
    }
    assert src[..|src|] == src;
  }

  lemma GatherNothing(mem: seq<byte>)
    ensures Gather(mem, []) == [] && TotalSize([]) == 0
  {
  }

  lemma SizePush(iov: seq<IoVec>, v: IoVec)
    ensures TotalSize(iov + [v]) == TotalSize(iov) + v.Size()
  {
    assert (iov + [v])[..|iov|] == iov;
  }
}
