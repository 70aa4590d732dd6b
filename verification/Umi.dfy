/**
 The update messages between agent and controller side, and the result of a download: strings
 behind each other, each closed by a zero octet.
 */
module Umi {
  import opened Bytes

  type Field = f: seq<byte> | NulFree(f) witness []

  predicate NulFree(s: seq<byte>) {
    forall i :: 0 <= i < |s| ==> s[i] != 0
  }

  function Pack(fs: seq<Field>): seq<byte> {
    if fs == [] then [] else fs[0] + [0] + Pack(fs[1..])
  }

  lemma PackOne(f: Field)
    ensures Pack([f]) == f + [0]
  {
    assert [f][1..] == [];
  }

  lemma {:induction false} PackConcat(a: seq<Field>, b: seq<Field>)
    ensures Pack(a + b) == Pack(a) + Pack(b)
  {
    if a == [] {
      assert [] + b == b;
    } else {
      assert (a + b)[1..] == a[1..] + b;
      PackConcat(a[1..], b);
    }
  }

  lemma NotLonger(f: Field, g: Field, x: seq<byte>, y: seq<byte>)
    requires f + [0] + x == g + [0] + y
    ensures |g| <= |f|
  {
    assert (f + [0] + x)[|f|] == 0;
    assert forall i :: 0 <= i < |g| ==> (g + [0] + y)[i] == g[i];
  }

  /** Two strings closed by their first zero are one. */
  lemma SameField(f: Field, g: Field, x: seq<byte>, y: seq<byte>)
    requires f + [0] + x == g + [0] + y
    ensures f == g && x == y
  {
    NotLonger(f, g, x, y);
    NotLonger(g, f, y, x);
    var s, t := f + [0] + x, g + [0] + y;
    assert s[..|f|] == f && t[..|g|] == g;
    assert s[|f| + 1..] == x && t[|g| + 1..] == y;
  }

  /** Reading is unambiguous. */
  lemma {:induction false} SamePack(fs: seq<Field>, gs: seq<Field>, x: seq<byte>, y: seq<byte>)
    requires |fs| == |gs| && Pack(fs) + x == Pack(gs) + y
    ensures fs == gs && x == y
  {
    if fs != [] {
      assert Pack(fs) + x == fs[0] + [0] + (Pack(fs[1..]) + x);
      assert Pack(gs) + y == gs[0] + [0] + (Pack(gs[1..]) + y);
      SameField(fs[0], gs[0], Pack(fs[1..]) + x, Pack(gs[1..]) + y);
      SamePack(fs[1..], gs[1..], x, y);
      assert fs == [fs[0]] + fs[1..] && gs == [gs[0]] + gs[1..];
    } else {
      assert [] + x == x && [] + y == y;
    }
  }

  /** A string and its length; a zero octet is known to follow in the message. */
  method NextField(msg: seq<byte>, of: nat) returns (f: Field, next: nat)
    requires exists z :: of <= z < |msg| && msg[z] == 0
    ensures of < next <= |msg| && msg[of..next] == f + [0]
    ensures forall z :: of <= z < |msg| && msg[z] == 0 ==> next <= z + 1
  {
    ghost var zero :| of <= zero < |msg| && msg[zero] == 0;
    var len := 0;
    while msg[of + len] != 0
      invariant of + len <= zero && forall i :: of <= i < of + len ==> msg[i] != 0
      decreases zero - len
    {
      len := len + 1;
    }
    f := msg[of..of + len];
    next := of + len + 1;
    assert msg[of..next] == f + [0];
  }

  lemma {:induction false} PackEnds(gs: seq<Field>)
    requires gs != []
    ensures Pack(gs) != [] && Pack(gs)[|Pack(gs)| - 1] == 0
  {
    if |gs| > 1 {
      PackEnds(gs[1..]);
    }
  }

  /** `msg` holds six fields and one octet. */
  ghost predicate Packed(msg: seq<byte>, gs: seq<Field>, x: byte) {
    |gs| == 6 && msg == Pack(gs) + [x]
  }

  lemma PackedEnds(msg: seq<byte>, gs: seq<Field>, x: byte)
    requires Packed(msg, gs, x)
    ensures |msg| >= 2 && msg[|msg| - 2] == 0
  {
    PackEnds(gs);
  }

  /** After fewer than six fields there is more to read. */
  lemma MoreToRead(msg: seq<byte>, gs: seq<Field>, x: byte, fs: seq<Field>, of: nat)
    requires Packed(msg, gs, x) && |fs| <= 6 && of <= |msg| && msg[..of] == Pack(fs)
    ensures fs == gs[..|fs|] && (|fs| < 6 ==> of + 1 < |msg|) && (|fs| == 6 ==> of + 1 == |msg| && msg[of] == x)
  {
    var k := |fs|;
    assert gs == gs[..k] + gs[k..];
    PackConcat(gs[..k], gs[k..]);
    assert msg == msg[..of] + msg[of..] == Pack(gs[..k]) + (Pack(gs[k..]) + [x]);
    SamePack(fs, gs[..k], msg[of..], Pack(gs[k..]) + [x]);
    if k < 6 {
      PackEnds(gs[k..]);
    } else {
      assert gs[k..] == [];
    }
  }

  /** The next field of an update message, unless the message is used up. */
  method TakeField(msg: seq<byte>, of: nat, fs: seq<Field>) returns (ok: bool, more: seq<Field>, next: nat)
    requires |msg| >= 2 && msg[|msg| - 2] == 0 && of <= |msg| - 1 && msg[..of] == Pack(fs) && |fs| < 6
    ensures ok <==> of + 1 < |msg|
    ensures ok ==> of < next <= |msg| - 1 && |more| == |fs| + 1 && msg[..next] == Pack(more)
    ensures !ok ==> forall gs, x :: !Packed(msg, gs, x)
  {
    hide Pack, NulFree, Packed;
    more, next := fs, of;
    ok := of + 1 < |msg|;
    if ok {
      var f;
      f, next := NextField(msg, of);
      more := fs + [f];
      PackOne(f);
      PackConcat(fs, [f]);
      assert msg[..next] == msg[..of] + msg[of..next];
    } else {
      forall gs, x | Packed(msg, gs, x)
        ensures false
      {
        MoreToRead(msg, gs, x, fs, of);
      }
    }
  }

  /**
   The reading of an update message in OnRecvUmi: project, module, version, hash, URL, password,
   and the flag that forces the update. No octet behind the message is read; a message that was
   packed is read back.
   */
  method ParseUmi(msg: seq<byte>) returns (ok: bool, fs: seq<Field>, force: byte)
    ensures ok ==> |fs| == 6 && |Pack(fs)| < |msg| && msg[..|Pack(fs)|] == Pack(fs) && force == msg[|Pack(fs)|]
    ensures forall gs, x :: Packed(msg, gs, x) ==> ok && fs == gs && force == x
  {
    hide Pack, NulFree, Packed;
    fs, force := [], 0;
    ok := |msg| >= 2 && msg[|msg| - 2] == 0;
    if !ok {
      forall gs, x | Packed(msg, gs, x)
        ensures false
      {
        PackedEnds(msg, gs, x);
      }
      return;
    }
    var of := 0;
    Nothing(msg);
    ok, fs, of := TakeField(msg, of, fs);
    if ok { ok, fs, of := TakeField(msg, of, fs); }
    if ok { ok, fs, of := TakeField(msg, of, fs); }
    if ok { ok, fs, of := TakeField(msg, of, fs); }
    if ok { ok, fs, of := TakeField(msg, of, fs); }
    if ok { ok, fs, of := TakeField(msg, of, fs); }
    if ok {
      force := msg[of];
      forall gs, x | Packed(msg, gs, x)
        ensures fs == gs && force == x
      {
        MoreToRead(msg, gs, x, fs, of);
        SixAre(gs, x, msg);
      }
    }
  }

  lemma Nothing(msg: seq<byte>)
    ensures msg[..0] == Pack([])
  {
  }

  lemma SixAre(gs: seq<Field>, x: byte, msg: seq<byte>)
    requires Packed(msg, gs, x)
    ensures gs[..6] == gs
  {
  }

  // ----- What the agent sends

  /** The two buffers an outgoing message is built in. */
  const BUFFER: nat := 1024

  /** The name of the channel with its zero octet, and the message code. */
  const ENVELOPE: nat := 15

  function Lengths(fs: seq<Field>): nat {
    if fs == [] then 0 else |fs[0]| + Lengths(fs[1..])
  }

  lemma {:induction false} PackSize(fs: seq<Field>)
    ensures |Pack(fs)| == Lengths(fs) + |fs|
  {
    if fs != [] {
      PackSize(fs[1..]);
    }
  }

  predicate Fits(fs: seq<Field>) {
    |Pack(fs)| <= BUFFER && ENVELOPE + |Pack(fs)| <= BUFFER
  }

  /** A question about a module fits exactly when its four strings have 1005 octets between them, or fewer. */
  lemma FitsExactly(prj: Field, mod: Field, version: Field, hash: Field)
    ensures Fits([prj, mod, version, hash]) <==> |prj| + |mod| + |version| + |hash| <= 1005
  {
    var fs := [prj, mod, version, hash];
    PackSize(fs);
    assert fs[1..] == [mod, version, hash] && fs[1..][1..] == [version, hash] && fs[1..][1..][1..] == [hash];
    assert [hash][1..] == [] && Lengths([hash]) == |hash|;
    assert Lengths([version, hash]) == |version| + |hash|;
    assert Lengths(fs) == |prj| + |mod| + |version| + |hash|;
  }

  /** A string and its zero octet, copied behind what is there. */
  method Put(buf: array<byte>, of: nat, f: Field, ghost before: seq<Field>) returns (next: nat)
    requires of + |f| + 1 <= buf.Length && buf[..of] == Pack(before)
    modifies buf
    ensures next == of + |f| + 1 && buf[..next] == Pack(before + [f])
  {
    hide Pack;
    forall i | 0 <= i < |f| {
      buf[of + i] := f[i];
    }
    buf[of + |f|] := 0;
    next := of + |f| + 1;
    PackOne(f);
    PackConcat(before, [f]);
    assert buf[..next] == old(buf[..of]) + (f + [0]);
  }

  /** SendUmi and Report2Aodc, for a question that fits. */
  method SendUmi(prj: Field, mod: Field, version: Field, hash: Field, channel: seq<byte>, code: seq<byte>)
    returns (sent: seq<byte>)
    requires |channel| + |code| == ENVELOPE && Fits([prj, mod, version, hash])
    ensures sent == channel + code + Pack([prj, mod, version, hash]) && |sent| <= BUFFER
  {
    hide Pack, Fits, NulFree;
    FitsExactly(prj, mod, version, hash);
    var data := new byte[BUFFER](_ => 0);
    Nothing(data[..]);
    assert data[..0] == data[..][..0];
    var len := Put(data, 0, prj, []);
    len := Put(data, len, mod, [] + [prj]);
    len := Put(data, len, version, [] + [prj] + [mod]);
    len := Put(data, len, hash, [] + [prj] + [mod] + [version]);
    assert [] + [prj] + [mod] + [version] + [hash] == [prj, mod, version, hash];
    sent := channel + code + data[..len];
  }
}
