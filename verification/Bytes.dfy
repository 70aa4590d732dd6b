/** Octets, and the big-endian integers the Kafka wire format is made of. */
module Bytes {

  type byte = x: int | 0 <= x < 256

  datatype Option<+T> = None | Some(value: T)

  const INT32_MAX: int := 0x7fff_ffff

  function Pow256(w: nat): (p: nat)
    ensures p >= 1
  {
    if w == 0 then 1 else 256 * Pow256(w - 1)
  }

  /** The `w` low-order octets of `n`, most significant first. */
  function BigEndian(n: nat, w: nat): (s: seq<byte>)
    ensures |s| == w
  {
    if w == 0 then [] else BigEndian(n / 256, w - 1) + [n % 256]
  }

  function FromBigEndian(s: seq<byte>): nat {
    if s == [] then 0 else FromBigEndian(s[..|s| - 1]) * 256 + s[|s| - 1]
  }

  /** Two's complement of width `w` octets: what htobeNN and memcpy leave in the buffer. */
  function EncodeInt(n: int, w: nat): (s: seq<byte>)
    ensures |s| == w
  {
    BigEndian(n % Pow256(w), w)
  }

  /** What memcpy and beNNtoh make of those octets, read as a signed integer. */
  function DecodeInt(s: seq<byte>): int {
    var u := FromBigEndian(s);
    if 2 * u >= Pow256(|s|) && s != [] then u - Pow256(|s|) else u
  }

  predicate FitsInt(n: int, w: nat) {
    -(Pow256(w) as int) <= 2 * n < Pow256(w)
  }

  lemma Widths()
    ensures Pow256(1) == 0x100 && Pow256(2) == 0x1_0000 && Pow256(4) == 0x1_0000_0000
    ensures Pow256(8) == 0x1_0000_0000_0000_0000
  {
    assert Pow256(3) == 0x100_0000;
    assert Pow256(5) == 0x100_0000_0000;
    assert Pow256(6) == 0x1_0000_0000_0000;
    assert Pow256(7) == 0x100_0000_0000_0000;
  }

  lemma {:induction false} BigEndianRoundTrip(n: nat, w: nat)
    requires n < Pow256(w)
    ensures FromBigEndian(BigEndian(n, w)) == n
  {
    if w > 0 {
      BigEndianRoundTrip(n / 256, w - 1);
      assert BigEndian(n, w)[..w - 1] == BigEndian(n / 256, w - 1);
    }
  }

  lemma ModFits(n: int, p: nat)
    requires p > 0 && -(p as int) <= n < p
    ensures n % p == if n >= 0 then n else n + p
  {
    if n >= 0 { SmallMod(n, p); } else { SmallMod(n + p, p); }
  }

  lemma SmallMod(n: nat, p: nat)
    requires n < p
    ensures n % p == n && (n - p) % p == n
  {
    var q, r := (n - p) / p, (n - p) % p;
    if q >= 0 { MulMonotone(0, q, p); }
    if q <= -2 { MulMonotone(q, -2, p); }
  }

  lemma MulMonotone(a: int, b: int, p: nat)
    requires a <= b
    ensures a * p <= b * p
  {
  }

  /** Reading back a written integer gives the integer. */
  lemma IntRoundTrip(n: int, w: nat)
    requires w > 0 && FitsInt(n, w)
    ensures DecodeInt(EncodeInt(n, w)) == n
  {
    var p := Pow256(w);
    ModFits(n, p);
    BigEndianRoundTrip(n % p, w);
  }

  // ----- The most significant octet comes first

  lemma {:induction false} FirstOctetHighest(first: byte, rest: seq<byte>)
    ensures FromBigEndian([first] + rest) == first * Pow256(|rest|) + FromBigEndian(rest)
  {
    var s := [first] + rest;
    if rest == [] {
      assert s[..0] == [];
    } else {
      FirstOctetHighest(first, rest[..|rest| - 1]);
      assert s[..|s| - 1] == [first] + rest[..|rest| - 1];
    }
  }

  lemma TwoOctets(s: seq<byte>)
    requires |s| == 2
    ensures FromBigEndian(s) == s[0] as int * 0x100 + s[1]
  {
    assert s == [s[0]] + [s[1]];
    FirstOctetHighest(s[0], [s[1]]);
    OneOctet(s[1]);
    Widths();
  }

  lemma OneOctet(b: byte)
    ensures FromBigEndian([b]) == b
  {
    assert [b][..0] == [];
  }

  lemma FourOctets(s: seq<byte>)
    requires |s| == 4
    ensures FromBigEndian(s) ==
      s[0] as int * 0x100_0000 + s[1] as int * 0x1_0000 + s[2] as int * 0x100 + s[3]
  {
    TwoOctets(s[..2]);
    assert s[..3][..2] == s[..2];
  }
}
