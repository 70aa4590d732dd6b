/**
 The bit-level part of the CRC: rd_crc32_reflect, and the division by the generator
 polynomial that the table of rdcrc32.c abbreviates.

 A shift count is a `bv32`: the source's loop counter is an `unsigned int`.
 */
module CrcBits {

  // ----- rd_crc32_reflect

  function Xor(a: bv32, b: bv32): bv32 { a ^ b }

  function Low(b: bv32): bv32 { b & 1 }

  function Half(b: bv32): bv32 { b >> 1 }

  function Push(r: bv32, bit: bv32): bv32 { (r << 1) | bit }

  function Drop(d: bv32, n: bv32): bv32
    requires n <= 32
  {
    d >> n
  }

  /** What the loop of rd_crc32_reflect has computed after looking at `n` bits. */
  function Reflected(d: bv32, n: bv32): bv32
    requires n <= 32
    decreases n
  {
    if n <= 1 then Low(d) else Push(Reflected(d, n - 1), Low(Drop(d, n - 1)))
  }

  method Reflect(d: bv32, dataLen: bv32) returns (ret: bv32)
    requires 1 <= dataLen <= 32
    ensures ret == Reflected(d, dataLen)
  {
    hide *;
    ReflectedFirst(d);
    var data := d;
    ret := Low(data);
    var i: bv32 := 1;
    while i < dataLen
      invariant 1 <= i <= dataLen
      invariant data == Drop(d, i - 1)
      invariant ret == Reflected(d, i)
      decreases dataLen - i
    {
      ReflectedNext(d, i);
      data := Half(data);
      ret := Push(ret, Low(data));
      i := i + 1;
    }
  }

  lemma ReflectedFirst(d: bv32)
    ensures Reflected(d, 1) == Low(d) && Drop(d, 0) == d
  {
  }

  lemma ReflectedNext(d: bv32, i: bv32)
    requires 1 <= i < 32
    ensures Half(Drop(d, i - 1)) == Drop(d, i)
    ensures Reflected(d, i + 1) == Push(Reflected(d, i), Low(Drop(d, i)))
  {
    DropHalf(d, i);
    hide Low, Drop, Push, Half;
  }

  lemma DropHalf(d: bv32, i: bv32)
    requires 1 <= i < 32
    ensures Half(Drop(d, i - 1)) == Drop(d, i)
  {
  }

  lemma PushBits(r: bv32, b: bv32, i: bv32)
    requires i < 32
    ensures i == 0 ==> Low(Drop(Push(r, Low(b)), i)) == Low(b)
    ensures i > 0 ==> Low(Drop(Push(r, Low(b)), i)) == Low(Drop(r, i - 1))
  {
  }

  lemma OneBit(d: bv32)
    ensures Low(Drop(Low(d), 0)) == Low(d) && Drop(d, 0) == d
  {
  }

  /** Bit `i` of the result is bit `n - 1 - i` of the argument. */
  lemma {:induction false} ReflectedBit(d: bv32, n: bv32, i: bv32)
    requires i < n <= 32
    ensures Low(Drop(Reflected(d, n), i)) == Low(Drop(d, n - 1 - i))
    decreases n
  {
    hide Low, Drop, Push, Half;
    if n == 1 {
      OneBit(d);
    } else {
      PushBits(Reflected(d, n - 1), Drop(d, n - 1), i);
      if i > 0 { ReflectedBit(d, n - 1, i - 1); }
    }
  }

  /** Reflecting twice gives back each of the low `n` bits. */
  lemma ReflectIsItsOwnInverse(d: bv32, n: bv32, i: bv32)
    requires i < n <= 32
    ensures Low(Drop(Reflected(Reflected(d, n), n), i)) == Low(Drop(d, i))
  {
    hide *;
    ReflectedBit(Reflected(d, n), n, i);
    ReflectedBit(d, n, n - 1 - i);
  }

  /** All 32 bits in the opposite order: neighbours, pairs, nibbles, octets and halves swapped. */
  function Reversed(x: bv32): bv32 {
    var a := ((x >> 1) & 0x55555555) | ((x & 0x55555555) << 1);
    var b := ((a >> 2) & 0x33333333) | ((a & 0x33333333) << 2);
    var c := ((b >> 4) & 0x0F0F0F0F) | ((b & 0x0F0F0F0F) << 4);
    var d := ((c >> 8) & 0x00FF00FF) | ((c & 0x00FF00FF) << 8);
    (d >> 16) | (d << 16)
  }

  /** So it is what reflecting 32 bits gives. */
  lemma ReversedBit(d: bv32, i: bv32)
    requires i < 32
    ensures Low(Drop(Reversed(d), i)) == Low(Drop(Reflected(d, 32), i))
  {
    ReversedBitRaw(d, i);
    hide *;
    ReflectedBit(d, 32, i);
  }

  lemma ReversedBitRaw(d: bv32, i: bv32)
    requires i < 32
    ensures Low(Drop(Reversed(d), i)) == Low(Drop(d, 31 - i))
  {
  }

  // ----- The reference: long division, most significant bit of the remainder first

  function DivideBit(remainder: bv32, bit: bv32): bv32 {
    if remainder >> 31 != bit then (remainder << 1) ^ 0x04c11db7 else remainder << 1
  }

  /** Divide by the first `n` bits of `b`; the bits enter least significant first. */
  function DivideBits(remainder: bv32, b: bv32, n: nat): bv32
    decreases n
  {
    if n == 0 then remainder else DivideBits(DivideBit(remainder, Low(b)), Half(b), n - 1)
  }

  // ----- The same division with the register reflected, shifting right

  function BitStep(r: bv32): bv32 { if Low(r) == 1 then Xor(Half(r), 0xEDB88320) else Half(r) }

  function Steps(r: bv32, n: nat): bv32
    decreases n
  {
    if n == 0 then r else Steps(BitStep(r), n - 1)
  }

  function FeedBits(r: bv32, b: bv32, n: nat): bv32
    decreases n
  {
    if n == 0 then r else FeedBits(BitStep(Xor(r, Low(b))), Half(b), n - 1)
  }

  function Shifted(b: bv32, n: nat): bv32
    decreases n
  {
    if n == 0 then b else Shifted(Half(b), n - 1)
  }

  function Up(v: bv32): bv32 { v << 1 }

  function Top(v: bv32): bv32 { v >> 31 }

  /** The taps of the shift-right form, and of the generator polynomial. */
  function TapRight(v: bv32): bv32 { v ^ 0xEDB88320 }

  function TapLeft(v: bv32): bv32 { v ^ 0x04c11db7 }

  lemma ReversedTop(x: bv32)
    ensures Top(Reversed(x)) == Low(x)
  {
  }

  lemma ShiftRaw(x: bv32)
    ensures Reversed(x >> 1) == Reversed(x) << 1
  {
  }

  lemma ReversedShift(x: bv32)
    ensures Reversed(Half(x)) == Up(Reversed(x))
  {
    hide Reversed;
    ShiftRaw(x);
  }

  lemma TappedRaw(x: bv32)
    ensures Reversed(x ^ 0xEDB88320) == Reversed(x) ^ 0x04c11db7
  {
  }

  /** The constant of the shift-right form is the reflection of the generator polynomial. */
  lemma ReversedTapped(x: bv32)
    ensures Reversed(TapRight(x)) == TapLeft(Reversed(x))
  {
    hide Reversed;
    TappedRaw(x);
  }

  lemma LowBit(b: bv32)
    ensures Low(b) == 0 || Low(b) == 1
  {
  }

  lemma StepCases(r: bv32, bit: bv32)
    requires bit == 0 || bit == 1
    ensures Low(r) == bit ==> BitStep(Xor(r, bit)) == Half(r)
    ensures Low(r) != bit ==> BitStep(Xor(r, bit)) == TapRight(Half(r))
  {
  }

  lemma DivideCases(v: bv32, bit: bv32)
    ensures Top(v) == bit ==> DivideBit(v, bit) == Up(v)
    ensures Top(v) != bit ==> DivideBit(v, bit) == TapLeft(Up(v))
  {
  }

  lemma BitStepIsDivideBit(r: bv32, bit: bv32)
    requires bit == 0 || bit == 1
    ensures Reversed(BitStep(Xor(r, bit))) == DivideBit(Reversed(r), bit)
  {
    hide *;
    StepCases(r, bit);
    DivideCases(Reversed(r), bit);
    ReversedTop(r);
    ReversedShift(r);
    ReversedTapped(Half(r));
  }

  lemma {:induction false} FeedIsDivision(r: bv32, b: bv32, n: nat)
    ensures Reversed(FeedBits(r, b, n)) == DivideBits(Reversed(r), b, n)
    decreases n
  {
    if n > 0 {
      hide Reversed, BitStep, DivideBit, Xor, Low, Half;
      LowBit(b);
      BitStepIsDivideBit(r, Low(b));
      FeedIsDivision(BitStep(Xor(r, Low(b))), Half(b), n - 1);
    }
  }

  lemma XorIs(a: bv32, b: bv32)
    ensures Xor(a, b) == a ^ b
  {
  }

  lemma LowIs(b: bv32)
    ensures Low(b) == b & 1 && Half(b) == b >> 1
  {
  }

  lemma SplitRaw(x: bv32, y: bv32)
    ensures (x ^ y) >> 1 == ((x ^ (y & 1)) >> 1) ^ (y >> 1)
    ensures (x ^ y) & 1 == (x ^ (y & 1)) & 1
  {
  }

  lemma XorAssociates(x: bv32, y: bv32, t: bv32)
    ensures Xor(Xor(x, y), t) == Xor(x, Xor(y, t))
    ensures Xor(y, t) == Xor(t, y)
  {
  }

  lemma XorExchange(x: bv32, y: bv32, t: bv32)
    ensures Xor(Xor(x, y), t) == Xor(Xor(x, t), y)
  {
    hide *;
    XorAssociates(x, y, t);
    XorAssociates(x, t, y);
  }

  lemma XorSplit(x: bv32, y: bv32)
    ensures Half(Xor(x, y)) == Xor(Half(Xor(x, Low(y))), Half(y))
    ensures Low(Xor(x, y)) == Low(Xor(x, Low(y)))
  {
    hide *;
    LowIs(y);
    LowIs(Xor(x, y));
    LowIs(Xor(x, Low(y)));
    XorIs(x, y);
    XorIs(x, Low(y));
    XorIs(Half(Xor(x, Low(y))), Half(y));
    SplitRaw(x, y);
  }

  /** Bits not yet looked at ride along unchanged. */
  lemma StageSplit(r: bv32, b: bv32)
    ensures BitStep(Xor(r, b)) == Xor(BitStep(Xor(r, Low(b))), Half(b))
  {
    hide Xor, Low, Half;
    XorSplit(r, b);
    XorExchange(Half(Xor(r, Low(b))), Half(b), 0xEDB88320);
  }

  lemma {:induction false} StepsSplit(r: bv32, b: bv32, n: nat)
    ensures Steps(Xor(r, b), n) == Xor(FeedBits(r, b, n), Shifted(b, n))
    decreases n
  {
    if n > 0 {
      hide BitStep, Xor, Low, Half;
      StageSplit(r, b);
      StepsSplit(BitStep(Xor(r, Low(b))), Half(b), n - 1);
    }
  }

  predicate AgreeOn(b: bv32, c: bv32, n: nat)
    decreases n
  {
    n == 0 || (Low(b) == Low(c) && AgreeOn(Half(b), Half(c), n - 1))
  }

  lemma {:induction false} FeedAgrees(r: bv32, b: bv32, c: bv32, n: nat)
    requires AgreeOn(b, c, n)
    ensures FeedBits(r, b, n) == FeedBits(r, c, n)
    decreases n
  {
    if n > 0 {
      hide BitStep, Xor, Low, Half;
      FeedAgrees(BitStep(Xor(r, Low(b))), Half(b), Half(c), n - 1);
    }
  }

  function And(b: bv32, mask: bv32): bv32 { b & mask }

  lemma MaskBit(b: bv32, mask: bv32)
    ensures Half(And(b, mask)) == And(Half(b), Half(mask))
    ensures Low(mask) == 1 ==> Low(b) == Low(And(b, mask))
  {
  }

  /** The mask lets the low `n` bits through. */
  predicate Passes(mask: bv32, n: nat)
    decreases n
  {
    n == 0 || (Low(mask) == 1 && Passes(Half(mask), n - 1))
  }

  lemma {:induction false} Masked(b: bv32, mask: bv32, n: nat)
    requires Passes(mask, n)
    ensures AgreeOn(b, And(b, mask), n) && Shifted(And(b, mask), n) == And(Shifted(b, n), Shifted(mask, n))
    decreases n
  {
    if n > 0 {
      hide And, Low, Half;
      MaskBit(b, mask);
      Masked(Half(b), Half(mask), n - 1);
    }
  }

  lemma EightHalves(x: bv32)
    ensures Shifted(x, 8) == Half(Half(Half(Half(Half(Half(Half(Half(x))))))))
  {
    hide Half;
  }

  lemma EightHalvesRaw(x: bv32)
    ensures Half(Half(Half(Half(Half(Half(Half(Half(x)))))))) == x >> 8
  {
  }

  lemma OctetMask()
    ensures Passes(0xff, 8) && Shifted(0xff, 8) == 0
  {
    assert Half(0xff) == 0x7f && Half(0x7f) == 0x3f && Half(0x3f) == 0x1f && Half(0x1f) == 0xf;
    assert Half(0xf) == 7 && Half(7) == 3 && Half(3) == 1 && Half(1) == 0;
    assert Passes(3, 2) && Passes(0xf, 4) && Passes(0x3f, 6);
    assert Shifted(3, 2) == 0 && Shifted(0xf, 4) == 0 && Shifted(0x3f, 6) == 0;
  }

  lemma AndIs(b: bv32, mask: bv32)
    ensures And(b, mask) == b & mask && And(b, 0) == 0
  {
  }

  lemma LowOctet(x: bv32)
    ensures AgreeOn(x, x & 0xff, 8)
    ensures Shifted(x, 8) == x >> 8 && Shifted(x & 0xff, 8) == 0
  {
    hide *;
    OctetMask();
    Masked(x, 0xff, 8);
    AndIs(x, 0xff);
    AndIs(Shifted(x, 8), 0);
    EightHalves(x);
    EightHalvesRaw(x);
  }

  lemma XorZero(x: bv32)
    ensures Xor(0, x) == x && Xor(x, 0) == x
  {
  }

  /** Eight steps act on the low octet; the other three are only shifted. */
  lemma EightSteps(x: bv32)
    ensures Steps(x, 8) == Xor(Steps(x & 0xff, 8), x >> 8)
  {
    hide *;
    var low := x & 0xff;
    XorZero(x);
    XorZero(low);
    LowOctet(x);
    StepsSplit(0, x, 8);
    StepsSplit(0, low, 8);
    FeedAgrees(0, x, low, 8);
    XorZero(FeedBits(0, x, 8));
  }

  /** Feeding an octet bit by bit is eight steps of the register with the octet added. */
  lemma OctetIsDivision(r: bv32, b: bv32)
    requires b < 256
    ensures Reversed(Steps(Xor(r, b), 8)) == DivideBits(Reversed(r), b, 8)
  {
    OctetOnly(b);
    hide *;
    LowOctet(b);
    StepsSplit(r, b, 8);
    XorZero(FeedBits(r, b, 8));
    FeedIsDivision(r, b, 8);
  }

  lemma OctetOnly(b: bv32)
    requires b < 256
    ensures b & 0xff == b && b >> 8 == 0
  {
  }
}
