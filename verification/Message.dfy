/**
 The octets of one message of a Kafka MessageSet:

   Offset:8 MessageSize:4 Crc:4 MagicByte:1 Attributes:1 Key:Bytes Value:Bytes

 where Bytes is a four-octet length (-1 for NULL) and that many octets.
 */
module Message {
  import opened Bytes
  import CrcBits
  import Crc32

  type KBytes = Option<seq<byte>>

  /** Offset + MessageSize + Crc + MagicByte + Attributes + Value length: what write_Message copies. */
  const COPIED: nat := 8 + 4 + 4 + 1 + 1 + 4

  datatype Message = Message(offset: int, magic: int, attributes: int, key: KBytes, value: KBytes) {
    /** Every field fits the wire. */
    predicate Fits() {
      && FitsInt(offset, 8) && FitsInt(magic, 1) && FitsInt(attributes, 1)
      && KBytesFit(key) && KBytesFit(value)
      && FitsInt(Size(), 4)
    }

    /** The MessageSize field. */
    function Size(): nat {
      4 + 1 + 1 + KBytesSize(key) + KBytesSize(value)
    }
  }

  predicate KBytesFit(b: KBytes) {
    b.Some? ==> |b.value| <= INT32_MAX
  }

  function KBytesSize(b: KBytes): nat {
    if b.None? then 4 else 4 + |b.value|
  }

  function KBytesOctets(b: KBytes): (s: seq<byte>)
    ensures |s| == KBytesSize(b)
  {
    if b.None? then EncodeInt(-1, 4) else EncodeInt(|b.value|, 4) + b.value
  }

  /** What the Crc field covers. */
  function Body(m: Message): (s: seq<byte>)
    ensures |s| == 2 + KBytesSize(m.key) + KBytesSize(m.value)
  {
    EncodeInt(m.magic, 1) + EncodeInt(m.attributes, 1) + KBytesOctets(m.key) + KBytesOctets(m.value)
  }

  /** A message whose header declares `size`. */
  function Framed(m: Message, size: int): (s: seq<byte>)
    ensures |s| == 12 + m.Size()
  {
    EncodeInt(m.offset, 8) + EncodeInt(size, 4) + Crc32.CrcOctets(Crc32.Crc(Body(m))) + Body(m)
  }

  function Octets(m: Message): (s: seq<byte>)
    ensures |s| == 12 + m.Size()
  {
    Framed(m, m.Size())
  }

  lemma FramedParts(m: Message, size: int)
    ensures var f := Framed(m, size);
      && |f| >= 18 && f[..8] == EncodeInt(m.offset, 8) && f[8..12] == EncodeInt(size, 4)
      && f[12..16] == Crc32.CrcOctets(Crc32.Crc(Body(m)))
      && f[16..] == Body(m)
  {
    hide EncodeInt, Crc32.Crc, Crc32.CrcOctets, Body;
  }

  /**
   `octets` are the checksum of `data`: the division of section 8 of RFC 1952, complemented and
   reflected.
   */
  ghost predicate Checked(octets: seq<byte>, data: seq<byte>) {
    FromBigEndian(octets) == CrcBits.Reversed(Crc32.Divide(0xffffffff, data) ^ 0xffffffff) as int
  }

  lemma CrcChecked(octets: seq<byte>, data: seq<byte>)
    requires octets == Crc32.CrcOctets(Crc32.Crc(data))
    ensures Checked(octets, data)
  {
    Crc32.CrcOnWire(octets, data);
    hide FromBigEndian, CrcBits.Reversed, Crc32.Divide, Crc32.CrcOctets, Crc32.Crc;
  }

  lemma FramedChecked(m: Message, size: int)
    ensures |Framed(m, size)| >= 18 && Checked(Framed(m, size)[12..16], Framed(m, size)[16..])
  {
    hide *;
    FramedParts(m, size);
    CrcChecked(Framed(m, size)[12..16], Framed(m, size)[16..]);
  }

  lemma CheckedAt(f: seq<byte>)
    requires |f| >= 16 && Checked(f[12..16], f[16..])
    ensures FromBigEndian(f[12..16]) == CrcBits.Reversed(Crc32.Divide(0xffffffff, f[16..]) ^ 0xffffffff) as int
  {
    hide FromBigEndian, CrcBits.Reversed, Crc32.Divide;
  }

  /** The four octets at offset 12 of a message are the checksum of all that follow them. */
  lemma CrcField(m: Message, size: int)
    ensures FromBigEndian(Framed(m, size)[12..16]) ==
      CrcBits.Reversed(Crc32.Divide(0xffffffff, Framed(m, size)[16..]) ^ 0xffffffff) as int
  {
    hide *;
    FramedChecked(m, size);
    CheckedAt(Framed(m, size));
  }

  lemma BodyParts(m: Message, size: int)
    ensures var f, k := Framed(m, size), KBytesSize(m.key);
      && f[16..17] == EncodeInt(m.magic, 1) && f[17..18] == EncodeInt(m.attributes, 1)
      && f[18..18 + k] == KBytesOctets(m.key) && f[18 + k..] == KBytesOctets(m.value)
  {
    hide EncodeInt, Crc32.Crc, Crc32.CrcOctets, KBytesOctets, KBytesSize;
  }

  /** NULL is length -1; the empty string is length 0. */
  lemma KBytesLayout(b: KBytes)
    requires KBytesFit(b)
    ensures |KBytesOctets(b)| >= 4
    ensures DecodeInt(KBytesOctets(b)[..4]) == if b.None? then -1 else |b.value|
    ensures KBytesOctets(b)[4..] == if b.None? then [] else b.value
  {
    Widths();
    var n := if b.None? then -1 else |b.value|;
    IntRoundTrip(n, 4);
    hide EncodeInt, DecodeInt;
    assert KBytesOctets(b)[..4] == EncodeInt(n, 4);
  }

  lemma HeadLayout(m: Message, size: int)
    requires m.Fits() && FitsInt(size, 4)
    ensures var f := Framed(m, size);
      && DecodeInt(f[..8]) == m.offset && DecodeInt(f[8..12]) == size
      && DecodeInt(f[16..17]) == m.magic && DecodeInt(f[17..18]) == m.attributes
  {
    FramedParts(m, size);
    BodyParts(m, size);
    IntRoundTrip(m.offset, 8);
    IntRoundTrip(size, 4);
    IntRoundTrip(m.magic, 1);
    IntRoundTrip(m.attributes, 1);
    hide EncodeInt, DecodeInt, FitsInt, KBytesOctets, Framed;
  }

  lemma TailLayout(f: seq<byte>, b: KBytes, of: nat, end: nat)
    requires KBytesFit(b) && of <= end <= |f| && f[of..end] == KBytesOctets(b)
    ensures of + 4 <= end == of + (if b.None? then 4 else 4 + |b.value|)
    ensures DecodeInt(f[of..of + 4]) == (if b.None? then -1 else |b.value|)
    ensures f[of + 4..end] == if b.None? then [] else b.value
  {
    KBytesLayout(b);
    hide EncodeInt, DecodeInt, KBytesOctets;
    assert f[of..of + 4] == f[of..end][..4] && f[of + 4..end] == f[of..end][4..];
  }

  lemma StringsLayout(m: Message, size: int)
    requires KBytesFit(m.key) && KBytesFit(m.value)
    ensures var f, k := Framed(m, size), 18 + if m.key.None? then 4 else 4 + |m.key.value|;
      && 22 <= k && k + 4 <= |f| && DecodeInt(f[18..22]) == (if m.key.None? then -1 else |m.key.value|)
      && f[22..k] == (if m.key.None? then [] else m.key.value)
      && DecodeInt(f[k..k + 4]) == (if m.value.None? then -1 else |m.value.value|)
      && f[k + 4..] == (if m.value.None? then [] else m.value.value)
  {
    hide EncodeInt, DecodeInt, FitsInt, KBytesOctets, Framed, KBytesFit;
    var f, k := Framed(m, size), 18 + KBytesSize(m.key);
    BodyParts(m, size);
    assert f[18 + KBytesSize(m.key)..] == f[k..|f|];
    TailLayout(f, m.key, 18, k);
    TailLayout(f, m.value, k, |f|);
  }

  /** Where each field of a message lies, whatever size its header declares. */
  lemma MessageLayout(m: Message, size: int)
    requires m.Fits() && FitsInt(size, 4)
    ensures var f, k := Framed(m, size), 18 + if m.key.None? then 4 else 4 + |m.key.value|;
      && DecodeInt(f[..8]) == m.offset && DecodeInt(f[8..12]) == size
      && DecodeInt(f[16..17]) == m.magic && DecodeInt(f[17..18]) == m.attributes
      && DecodeInt(f[18..22]) == (if m.key.None? then -1 else |m.key.value|)
      && f[22..k] == (if m.key.None? then [] else m.key.value)
      && DecodeInt(f[k..k + 4]) == (if m.value.None? then -1 else |m.value.value|)
      && f[k + 4..] == (if m.value.None? then [] else m.value.value)
  {
    hide DecodeInt, FitsInt, Framed, KBytesFit;
    HeadLayout(m, size);
    StringsLayout(m, size);
  }
}
