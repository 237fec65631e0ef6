/** The CRC-32 checksum: a reflected shift register, and what it computes. */
module Crc32 {
  import opened Words

  /** One register step: multiply by x and reduce, in reflected bit order. */
  function Step(r: Word): Word {
    if Odd(r) then Xor(Half(r), 0xEDB8_8320) else Half(r)
  }

  /** The branch-free form: the low bit spread into a mask. */
  function MaskedStep(rv: Word): Word {
    (0xEDB8_8320 & (0 - (rv & 1))) ^ (rv >> 1)
  }

  lemma MaskedStepIsStep(rv: Word)
    ensures MaskedStep(rv) == Step(rv)
  {
    if rv & 1 == 0 {
      EvenMask(rv);
    } else {
      OddMask(rv);
    }
  }

  lemma EvenMask(rv: Word)
    requires rv & 1 == 0
    ensures (0xEDB8_8320 & (0 - (rv & 1))) ^ (rv >> 1) == Half(rv) && !Odd(rv)
  {
  }

  lemma OddMask(rv: Word)
    requires rv & 1 != 0
    ensures (0xEDB8_8320 & (0 - (rv & 1))) ^ (rv >> 1) == Xor(Half(rv), 0xEDB8_8320) && Odd(rv)
  {
  }

  function StepN(r: Word, n: nat): Word
    decreases n
  {
    if n == 0 then r else StepN(Step(r), n - 1)
  }

  // ---------------------------------------------------------------- messages as bits

  function BitWord(b: bool): Word { if b then 1 else 0 }

  /** The register after one message bit. */
  function Shift(r: Word, b: bool): Word {
    Step(Xor(r, BitWord(b)))
  }

  function ShiftAll(r: Word, bits: seq<bool>): Word
    decreases |bits|
  {
    if bits == [] then r else ShiftAll(Shift(r, bits[0]), bits[1..])
  }

  /** n low bits of w, least significant first. */
  function LowBits(w: Word, n: nat): (s: seq<bool>)
    ensures |s| == n
    decreases n
  {
    if n == 0 then [] else [Odd(w)] + LowBits(Half(w), n - 1)
  }

  /** A message as bits: each byte least significant bit first. */
  function BitsOf(data: seq<Byte>): (s: seq<bool>)
    ensures |s| == 8 * |data|
  {
    if data == [] then [] else LowBits(data[0] as Word, 8) + BitsOf(data[1..])
  }

  /** The checksum: all-ones preset, one shift per message bit, final complement. */
  function Register(data: seq<Byte>): Word {
    ShiftAll(0xFFFF_FFFF, BitsOf(data))
  }

  function Crc(data: seq<Byte>): Word {
    Xor(Register(data), 0xFFFF_FFFF)
  }

  // ---------------------------------------------------------------- linearity

  lemma StepLinear(a: Word, b: Word)
    ensures Step(Xor(a, b)) == Xor(Step(a), Step(b))
  {
    XorLaws(a, b);
    hide Xor, Half, Odd;
    var h, k, p := Half(a), Half(b), 0xEDB8_8320;
    if Odd(a) && Odd(b) {
      XorExchange(h, p, k, p);
      XorSelf(p);
      XorZero(Xor(h, k));
    } else if Odd(a) {
      XorAssoc(h, p, k);
      XorComm(p, k);
      XorAssoc(h, k, p);
    } else if Odd(b) {
      XorAssoc(h, k, p);
    }
  }

  lemma {:induction false} StepNLinear(a: Word, b: Word, n: nat)
    ensures StepN(Xor(a, b), n) == Xor(StepN(a, n), StepN(b, n))
    decreases n
  {
    hide Xor, Step;
    if n == 0 {
    } else {
      StepLinear(a, b);
      StepNLinear(Step(a), Step(b), n - 1);
    }
  }

  lemma {:induction false} StepNAdd(r: Word, m: nat, n: nat)
    ensures StepN(r, m + n) == StepN(StepN(r, m), n)
    decreases m
  {
    hide Step;
    if m == 0 {
    } else {
      StepNAdd(Step(r), m - 1, n);
    }
  }

  lemma {:induction false} ShiftAllSplit(r: Word, a: seq<bool>, b: seq<bool>)
    ensures ShiftAll(r, a + b) == ShiftAll(ShiftAll(r, a), b)
    decreases |a|
  {
    hide Shift;
    if a == [] {
      assert a + b == b;
    } else {
      assert (a + b)[1..] == a[1..] + b;
      ShiftAllSplit(Shift(r, a[0]), a[1..], b);
    }
  }

  function XorBits(a: seq<bool>, b: seq<bool>): (c: seq<bool>)
    requires |a| == |b|
    ensures |c| == |a|
  {
    if a == [] then [] else [a[0] != b[0]] + XorBits(a[1..], b[1..])
  }

  /** The register is linear in preset and message together. */
  lemma {:induction false} ShiftAllLinear(r: Word, s: Word, a: seq<bool>, b: seq<bool>)
    requires |a| == |b|
    ensures ShiftAll(Xor(r, s), XorBits(a, b)) == Xor(ShiftAll(r, a), ShiftAll(s, b))
    decreases |a|
  {
    hide Xor, Step;
    if a == [] {
    } else {
      var c := a[0] != b[0];
      assert XorBits(a, b)[0] == c && XorBits(a, b)[1..] == XorBits(a[1..], b[1..]);
      BitWordXor(a[0], b[0]);
      XorExchange(r, BitWord(a[0]), s, BitWord(b[0]));
      StepLinear(Xor(r, BitWord(a[0])), Xor(s, BitWord(b[0])));
      ShiftAllLinear(Shift(r, a[0]), Shift(s, b[0]), a[1..], b[1..]);
    }
  }

  lemma BitWordXor(a: bool, b: bool)
    ensures BitWord(a != b) == Xor(BitWord(a), BitWord(b))
  {
  }

  // ---------------------------------------------------------------- the byte loop

  /** Feeding the low n bits of w one by one is xoring them in at once and stepping n times;
      the bits above have only moved down. */
  lemma {:induction false} ShiftLowBits(r: Word, w: Word, n: nat)
    ensures Xor(ShiftAll(r, LowBits(w, n)), HalfN(w, n)) == StepN(Xor(r, w), n)
    decreases n
  {
    hide Xor, Step, Half, Odd, BitWord;
    if n == 0 {
    } else {
      ShiftLowBits(Shift(r, Odd(w)), Half(w), n - 1);
      OneLowBit(r, w);
      assert LowBits(w, n)[1..] == LowBits(Half(w), n - 1);
    }
  }

  lemma OneLowBit(r: Word, w: Word)
    ensures Xor(Shift(r, Odd(w)), Half(w)) == Step(Xor(r, w))
  {
    LowBitApart(w);
    var b, rest := BitWord(Odd(w)), And(w, 0xFFFF_FFFE);
    hide Xor, Step, Half, Odd, BitWord, And;
    XorAssoc(r, b, rest);
    StepLinear(Xor(r, b), rest);
  }

  lemma LowBitApart(w: Word)
    ensures w == Xor(BitWord(Odd(w)), And(w, 0xFFFF_FFFE))
    ensures Step(And(w, 0xFFFF_FFFE)) == Half(w)
  {
    if Odd(w) {
      OddApart(w);
    } else {
      EvenApart(w);
    }
    RestSteps(w);
    hide Xor, And, Step, Half;
  }

  lemma OddApart(w: Word)
    requires Odd(w)
    ensures w == Xor(1, And(w, 0xFFFF_FFFE))
  {
  }

  lemma EvenApart(w: Word)
    requires !Odd(w)
    ensures w == Xor(0, And(w, 0xFFFF_FFFE))
  {
  }

  lemma RestSteps(w: Word)
    ensures Step(And(w, 0xFFFF_FFFE)) == Half(w)
  {
    RestIsEven(w);
    hide And, Half, Odd;
  }

  lemma RestIsEven(w: Word)
    ensures !Odd(And(w, 0xFFFF_FFFE)) && Half(And(w, 0xFFFF_FFFE)) == Half(w)
  {
  }

  lemma ByteHasEightBits(b: Byte)
    ensures HalfN(b as Word, 8) == 0
  {
    assert HalfN(b as Word, 8) == HalfN(Half(Half(Half(Half(b as Word)))), 4);
  }

  /** One byte of the message: xor it into the register, then eight steps. */
  lemma ShiftByte(r: Word, b: Byte)
    ensures ShiftAll(r, LowBits(b as Word, 8)) == StepN(Xor(r, b as Word), 8)
  {
    ByteHasEightBits(b);
    ShiftLowBits(r, b as Word, 8);
    XorZero(ShiftAll(r, LowBits(b as Word, 8)));
    hide Xor, ShiftAll, LowBits, StepN, HalfN;
  }

  lemma {:induction false} BitsSplit(a: seq<Byte>, b: seq<Byte>)
    ensures BitsOf(a + b) == BitsOf(a) + BitsOf(b)
  {
    hide LowBits;
    if a == [] {
      assert a + b == b;
    } else {
      assert (a + b)[1..] == a[1..] + b;
      BitsSplit(a[1..], b);
    }
  }

  lemma OneByte(b: Byte)
    ensures BitsOf([b]) == LowBits(b as Word, 8)
  {
    hide LowBits;
    assert [b][1..] == [];
  }

  /** The register absorbs one more byte. */
  lemma RegisterNext(data: seq<Byte>, i: nat)
    requires i < |data|
    ensures Register(data[..i + 1]) == StepN(Xor(Register(data[..i]), data[i] as Word), 8)
  {
    hide ShiftAll, LowBits, StepN, Xor;
    assert data[..i + 1] == data[..i] + [data[i]];
    BitsSplit(data[..i], [data[i]]);
    OneByte(data[i]);
    ShiftAllSplit(0xFFFF_FFFF, BitsOf(data[..i]), BitsOf([data[i]]));
    ShiftByte(Register(data[..i]), data[i]);
  }

  method Checksum(data: seq<Byte>) returns (crc: Word)
    ensures crc == Crc(data)
  {
    hide Register, Step, Xor, MaskedStep;
    EmptyRegister();
    var rv: Word := 0xFFFF_FFFF;
    for i := 0 to |data|
      invariant rv == Register(data[..i])
    {
      RegisterNext(data, i);
      rv := Xor(rv, data[i] as Word);
      EightSteps(rv);
      rv := MaskedStep(rv);
      rv := MaskedStep(rv);
      rv := MaskedStep(rv);
      rv := MaskedStep(rv);
      rv := MaskedStep(rv);
      rv := MaskedStep(rv);
      rv := MaskedStep(rv);
      rv := MaskedStep(rv);
    }
    assert data[..|data|] == data;
    Complement(rv);
    return !rv;
  }

  lemma EmptyRegister()
    ensures forall data: seq<Byte> :: Register(data[..0]) == 0xFFFF_FFFF
  {
  }

  lemma Complement(w: Word)
    ensures !w == Xor(w, 0xFFFF_FFFF)
  {
  }

  lemma EightSteps(r: Word)
    ensures MaskedStep(MaskedStep(MaskedStep(MaskedStep(MaskedStep(MaskedStep(MaskedStep(MaskedStep(r))))))))
         == StepN(r, 8)
  {
    hide Step, MaskedStep;
    FourSteps(r);
    FourSteps(StepN(r, 4));
    StepNAdd(r, 4, 4);
  }

  lemma FourSteps(r: Word)
    ensures MaskedStep(MaskedStep(MaskedStep(MaskedStep(r)))) == StepN(r, 4)
  {
    hide Step, MaskedStep;
    MaskedStepIsStep(r);
    MaskedStepIsStep(Step(r));
    MaskedStepIsStep(Step(Step(r)));
    MaskedStepIsStep(Step(Step(Step(r))));
  }

  // ---------------------------------------------------------------- algebra of the checksum

  function XorBuffers(a: seq<Byte>, b: seq<Byte>): (c: seq<Byte>)
    requires |a| == |b|
    ensures |c| == |a|
  {
    if a == [] then [] else [XorByte(a[0], b[0])] + XorBuffers(a[1..], b[1..])
  }

  lemma {:induction false} LowBitsXor(a: Word, b: Word, n: nat)
    ensures LowBits(Xor(a, b), n) == XorBits(LowBits(a, n), LowBits(b, n))
    decreases n
  {
    hide Xor, Half, Odd;
    XorLaws(a, b);
    if n == 0 {
    } else {
      LowBitsXor(Half(a), Half(b), n - 1);
      assert LowBits(a, n)[1..] == LowBits(Half(a), n - 1);
      assert LowBits(b, n)[1..] == LowBits(Half(b), n - 1);
    }
  }

  lemma {:induction false} XorBitsSplit(a: seq<bool>, b: seq<bool>, c: seq<bool>, d: seq<bool>)
    requires |a| == |c| && |b| == |d|
    ensures XorBits(a + b, c + d) == XorBits(a, c) + XorBits(b, d)
  {
    if a == [] {
      assert a + b == b && c + d == d;
    } else {
      assert (a + b)[1..] == a[1..] + b && (c + d)[1..] == c[1..] + d;
      XorBitsSplit(a[1..], b, c[1..], d);
    }
  }

  lemma WidenXor(a: Byte, b: Byte)
    ensures XorByte(a, b) as Word == Xor(a as Word, b as Word)
  {
  }

  lemma {:induction false} BitsOfXor(a: seq<Byte>, b: seq<Byte>)
    requires |a| == |b|
    ensures BitsOf(XorBuffers(a, b)) == XorBits(BitsOf(a), BitsOf(b))
  {
    hide LowBits, XorBits, Xor, XorByte;
    if a == [] {
      XorNothing();
    } else {
      var c := XorBuffers(a, b);
      assert c[0] == XorByte(a[0], b[0]) && c[1..] == XorBuffers(a[1..], b[1..]);
      BitsOfXor(a[1..], b[1..]);
      WidenXor(a[0], b[0]);
      LowBitsXor(a[0] as Word, b[0] as Word, 8);
      XorBitsSplit(LowBits(a[0] as Word, 8), BitsOf(a[1..]), LowBits(b[0] as Word, 8), BitsOf(b[1..]));
    }
  }

  lemma XorNothing()
    ensures XorBits([], []) == []
  {
  }

  /** The checksum is affine: for equal lengths three checksums xor to the checksum of the
      xored messages. */
  lemma CrcAffine(a: seq<Byte>, b: seq<Byte>, c: seq<Byte>)
    requires |a| == |b| == |c|
    ensures Xor(Xor(Crc(a), Crc(b)), Crc(c)) == Crc(XorBuffers(XorBuffers(a, b), c))
  {
    hide Xor, ShiftAll, XorBits, BitsOf, XorBuffers;
    var ones: Word := 0xFFFF_FFFF;
    var ab := XorBuffers(a, b);
    BitsOfXor(a, b);
    BitsOfXor(ab, c);
    ShiftAllLinear(ones, ones, BitsOf(a), BitsOf(b));
    ShiftAllLinear(Xor(ones, ones), ones, BitsOf(ab), BitsOf(c));
    ThreeOnes(Register(a), Register(b), Register(c));
  }

  lemma ThreeOnes(a: Word, b: Word, c: Word)
    ensures var ones: Word := 0xFFFF_FFFF;
            Xor(Xor(Xor(a, ones), Xor(b, ones)), Xor(c, ones)) == Xor(Xor(Xor(a, b), c), ones)
    ensures var ones: Word := 0xFFFF_FFFF; Xor(Xor(ones, ones), ones) == ones
  {
    hide Xor;
    var ones: Word := 0xFFFF_FFFF;
    XorExchange(a, ones, b, ones);
    XorSelf(ones);
    XorZero(Xor(a, b));
    XorZero(ones);
    XorAssoc(Xor(a, b), c, ones);
  }

  // ---------------------------------------------------------------- steps lose nothing

  function Unstep(x: Word): Word {
    if x & 0x8000_0000 == 0 then x << 1 else ((x ^ 0xEDB8_8320) << 1) | 1
  }

  /** The generator's top bit marks an odd register, so a step can be undone. */
  lemma StepCanBeUndone(r: Word)
    ensures Unstep(Step(r)) == r
  {
  }

  lemma {:induction false} StepNInjective(r: Word, s: Word, n: nat)
    requires StepN(r, n) == StepN(s, n)
    ensures r == s
    decreases n
  {
    hide Step, Unstep;
    if n == 0 {
    } else {
      StepNInjective(Step(r), Step(s), n - 1);
      StepCanBeUndone(r);
      StepCanBeUndone(s);
    }
  }

  lemma ShiftInjective(r: Word, s: Word, b: bool)
    requires Shift(r, b) == Shift(s, b)
    ensures r == s
  {
    hide Xor, Step, Unstep, BitWord;
    StepCanBeUndone(Xor(r, BitWord(b)));
    StepCanBeUndone(Xor(s, BitWord(b)));
    XorCancels(r, BitWord(b));
    XorCancels(s, BitWord(b));
  }

  lemma {:induction false} ShiftAllInjective(r: Word, s: Word, bits: seq<bool>)
    requires ShiftAll(r, bits) == ShiftAll(s, bits)
    ensures r == s
    decreases |bits|
  {
    hide Shift;
    if bits == [] {
    } else {
      ShiftAllInjective(Shift(r, bits[0]), Shift(s, bits[0]), bits[1..]);
      ShiftInjective(r, s, bits[0]);
    }
  }

  // ---------------------------------------------------------------- bursts

  function PushLow(w: Word, b: bool): Word {
    if b then (w << 1) | 1 else w << 1
  }

  /** At most 32 bits packed into a word, first bit lowest. */
  function Pack(bits: seq<bool>): Word {
    if bits == [] then 0 else PushLow(Pack(bits[1..]), bits[0])
  }

  lemma {:induction false} LowBitsOfPack(bits: seq<bool>)
    requires |bits| <= 32
    ensures LowBits(Pack(bits), |bits|) == bits && HalfN(Pack(bits), |bits|) == 0
  {
    hide Half, Odd, PushLow;
    if bits == [] {
    } else {
      LowBitsOfPack(bits[1..]);
      TopIsClear(Pack(bits[1..]), |bits| - 1);
      PackLaws(Pack(bits[1..]), bits[0]);
      assert bits == [bits[0]] + bits[1..];
    }
  }

  lemma TopIsClear(w: Word, n: nat)
    requires n <= 31 && HalfN(w, n) == 0
    ensures w & 0x8000_0000 == 0
  {
    HalfNStaysZero(w, n, 31);
    HalfN23(w);
    HalfNAdd(w, 23, 8);
    EightMore(w);
  }

  lemma EightMore(w: Word)
    requires HalfN(Shr23(w), 8) == 0
    ensures w & 0x8000_0000 == 0
  {
    var v := Shr23(w);
    assert HalfN(v, 8) == HalfN(Half(Half(Half(Half(v)))), 4);
  }

  lemma PackLaws(w: Word, b: bool)
    requires w & 0x8000_0000 == 0
    ensures Odd(PushLow(w, b)) == b && Half(PushLow(w, b)) == w
  {
  }

  /** Up to 32 message bits enter the register as one word. */
  lemma ShiftAllIsPack(r: Word, bits: seq<bool>)
    requires |bits| <= 32
    ensures ShiftAll(r, bits) == StepN(Xor(r, Pack(bits)), |bits|)
  {
    hide Xor, ShiftAll, LowBits, StepN, HalfN, Pack;
    LowBitsOfPack(bits);
    ShiftLowBits(r, Pack(bits), |bits|);
    XorZero(ShiftAll(r, bits));
  }

  lemma {:induction false} PackInjective(a: seq<bool>, b: seq<bool>)
    requires |a| == |b| <= 32 && Pack(a) == Pack(b)
    ensures a == b
  {
    LowBitsOfPack(a);
    LowBitsOfPack(b);
  }

  /** A burst of at most 32 bits, at any bit position, always changes the register. */
  lemma BurstChangesRegister(r: Word, before: seq<bool>, x: seq<bool>, y: seq<bool>, after: seq<bool>)
    requires |x| == |y| <= 32 && x != y
    ensures ShiftAll(r, before + x + after) != ShiftAll(r, before + y + after)
  {
    hide Xor, ShiftAll, StepN, Pack;
    var s := ShiftAll(r, before);
    ShiftAllSplit(r, before, x);
    ShiftAllSplit(r, before, y);
    ShiftAllSplit(r, before + x, after);
    ShiftAllSplit(r, before + y, after);
    if ShiftAll(r, before + x + after) == ShiftAll(r, before + y + after) {
      ShiftAllInjective(ShiftAll(s, x), ShiftAll(s, y), after);
      ShiftAllIsPack(s, x);
      ShiftAllIsPack(s, y);
      StepNInjective(Xor(s, Pack(x)), Xor(s, Pack(y)), |x|);
      XorComm(s, Pack(x));
      XorComm(s, Pack(y));
      XorCancels(Pack(x), s);
      XorCancels(Pack(y), s);
      PackInjective(x, y);
    }
  }

  /** Two messages of equal length whose bits differ only inside one window of 32 consecutive
      bits have different checksums; the window need not start on a byte. */
  lemma BurstDetected(a: seq<Byte>, b: seq<Byte>, start: nat)
    requires |a| == |b| && a != b
    requires forall i :: 0 <= i < 8 * |a| && !(start <= i < start + 32) ==> BitsOf(a)[i] == BitsOf(b)[i]
    ensures Crc(a) != Crc(b)
  {
    BitsInjective(a, b);
    WindowBurst(0xFFFF_FFFF, BitsOf(a), BitsOf(b), start);
    XorCancels(Register(a), 0xFFFF_FFFF);
    XorCancels(Register(b), 0xFFFF_FFFF);
    hide BitsOf, ShiftAll, Xor;
  }

  lemma WindowBurst(r: Word, x: seq<bool>, y: seq<bool>, start: nat)
    requires |x| == |y| && x != y
    requires forall i :: 0 <= i < |x| && !(start <= i < start + 32) ==> x[i] == y[i]
    ensures ShiftAll(r, x) != ShiftAll(r, y)
  {
    hide ShiftAll;
    var n := |x|;
    var lo, hi := if start <= n then start else n, if start + 32 <= n then start + 32 else n;
    assert x == x[..lo] + x[lo..hi] + x[hi..];
    assert y == x[..lo] + y[lo..hi] + x[hi..];
    BurstChangesRegister(r, x[..lo], x[lo..hi], y[lo..hi], x[hi..]);
  }

  lemma {:induction false} BitsInjective(a: seq<Byte>, b: seq<Byte>)
    requires |a| == |b|
    ensures BitsOf(a) == BitsOf(b) ==> a == b
  {
    hide LowBits;
    if a == [] || BitsOf(a) != BitsOf(b) {
    } else {
      assert BitsOf(a)[..8] == LowBits(a[0] as Word, 8) && BitsOf(a)[8..] == BitsOf(a[1..]);
      assert BitsOf(b)[..8] == LowBits(b[0] as Word, 8) && BitsOf(b)[8..] == BitsOf(b[1..]);
      BitsInjective(a[1..], b[1..]);
      EightBitsDetermine(a[0], b[0]);
      assert a == [a[0]] + a[1..] && b == [b[0]] + b[1..];
    }
  }

  lemma EightBitsDetermine(a: Byte, b: Byte)
    requires LowBits(a as Word, 8) == LowBits(b as Word, 8)
    ensures a == b
  {
    ByteHasEightBits(a);
    ByteHasEightBits(b);
    BitsRebuild(a as Word, b as Word, 8);
    assert (a as Word) as Byte == a && (b as Word) as Byte == b;
  }

  lemma {:induction false} BitsRebuild(a: Word, b: Word, n: nat)
    requires LowBits(a, n) == LowBits(b, n) && HalfN(a, n) == HalfN(b, n)
    ensures a == b
    decreases n
  {
    hide Odd, Half;
    if n == 0 {
    } else {
      assert LowBits(a, n)[0] == Odd(a) && LowBits(a, n)[1..] == LowBits(Half(a), n - 1);
      assert LowBits(b, n)[0] == Odd(b) && LowBits(b, n)[1..] == LowBits(Half(b), n - 1);
      BitsRebuild(Half(a), Half(b), n - 1);
      HalfAndParity(a, b);
    }
  }

  // ---------------------------------------------------------------- the residue

  /** Four little-endian bytes enter the register as the word they encode. */
  lemma ShiftWord(r: Word, w: Word)
    ensures ShiftAll(r, BitsOf(ToBytes(w))) == StepN(Xor(r, w), 32)
  {
    WordBits(w);
    HalfN32(w);
    ShiftLowBits(r, w, 32);
    XorZero(ShiftAll(r, LowBits(w, 32)));
    hide Xor, ShiftAll, LowBits, StepN, HalfN, BitsOf, ToBytes;
  }

  lemma WordBits(w: Word)
    ensures BitsOf(ToBytes(w)) == LowBits(w, 32)
  {
    LaneBits(w);
    FourBytes(Lane0(w), Lane1(w), Lane2(w), Lane3(w));
    FourPieces(w);
    hide LowBits, HalfN, Lane0, Lane1, Lane2, Lane3, BitsOf;
    assert ToBytes(w) == [Lane0(w), Lane1(w), Lane2(w), Lane3(w)];
  }

  lemma FourPieces(w: Word)
    ensures LowBits(w, 32)
         == LowBits(w, 8) + LowBits(HalfN(w, 8), 8) + LowBits(HalfN(w, 16), 8) + LowBits(HalfN(w, 24), 8)
  {
    hide LowBits, HalfN;
    LowBitsSplit(w, 24, 8);
    LowBitsSplit(w, 16, 8);
    LowBitsSplit(w, 8, 8);
  }

  lemma FourBytes(b0: Byte, b1: Byte, b2: Byte, b3: Byte)
    ensures BitsOf([b0, b1, b2, b3])
         == LowBits(b0 as Word, 8) + LowBits(b1 as Word, 8) + LowBits(b2 as Word, 8) + LowBits(b3 as Word, 8)
  {
    hide LowBits, BitsOf;
    OneByte(b0);
    OneByte(b1);
    OneByte(b2);
    OneByte(b3);
    BitsSplit([b0], [b1]);
    BitsSplit([b0] + [b1], [b2]);
    BitsSplit([b0] + [b1] + [b2], [b3]);
    assert [b0, b1, b2, b3] == [b0] + [b1] + [b2] + [b3];
  }

  lemma {:induction false} LowBitsSplit(w: Word, m: nat, n: nat)
    ensures LowBits(w, m + n) == LowBits(w, m) + LowBits(HalfN(w, m), n)
    decreases m
  {
    hide Half, Odd;
    if m == 0 {
    } else {
      LowBitsSplit(Half(w), m - 1, n);
    }
  }

  lemma LaneBits(w: Word)
    ensures LowBits(Lane0(w) as Word, 8) == LowBits(w, 8)
    ensures LowBits(Lane1(w) as Word, 8) == LowBits(HalfN(w, 8), 8)
    ensures LowBits(Lane2(w) as Word, 8) == LowBits(HalfN(w, 16), 8)
    ensures LowBits(Lane3(w) as Word, 8) == LowBits(HalfN(w, 24), 8)
  {
    hide Lane0, Lane1, Lane2, Lane3, HalfN, LowBits, Shr8;
    Lane1Shifts(w);
    Lane2Shifts(w);
    Lane3Shifts(w);
    HalfNAdd(w, 8, 8);
    HalfNAdd(w, 16, 8);
    EightShifts(w);
    EightShifts(HalfN(w, 8));
    EightShifts(HalfN(w, 16));
    LaneIsLow(w);
    LaneIsLow(HalfN(w, 8));
    LaneIsLow(HalfN(w, 16));
    LaneIsLow(HalfN(w, 24));
  }

  lemma EightShifts(w: Word)
    ensures HalfN(w, 8) == Shr8(w)
  {
    assert HalfN(w, 8) == HalfN(Half(Half(Half(Half(w)))), 4);
  }

  lemma Lane1Shifts(w: Word)
    ensures Lane1(w) == Lane0(Shr8(w))
  {
  }

  lemma Lane2Shifts(w: Word)
    ensures Lane2(w) == Lane0(Shr8(Shr8(w)))
  {
  }

  lemma Lane3Shifts(w: Word)
    ensures Lane3(w) == Lane0(Shr8(Shr8(Shr8(w))))
  {
  }

  lemma LaneIsLow(w: Word)
    ensures LowBits(Lane0(w) as Word, 8) == LowBits(w, 8)
  {
    SmallCounts();
    LaneMask(w);
    hide And, Lane0, HalfN, LowBits;
    SameLowBits(Lane0(w) as Word, w, 0xFF, 8);
  }

  lemma LaneMask(w: Word)
    ensures And(Lane0(w) as Word, 0xFF) == And(w, 0xFF)
  {
  }

  /** Words that agree under a mask of n low ones have the same n low bits. */
  lemma {:induction false} SameLowBits(a: Word, b: Word, m: Word, n: nat)
    requires And(a, m) == And(b, m)
    requires n == 0 || (m & (m + 1) == 0 && HalfN(m, n - 1) != 0)
    ensures LowBits(a, n) == LowBits(b, n)
    decreases n
  {
    if n == 0 {
    } else {
      OnesLaws(m);
      if m == 0 {
        HalfNStaysZero(m, 0, n - 1);
      }
      AndLaws(a, m);
      AndLaws(b, m);
      hide And, Half, Odd;
      SameLowBits(Half(a), Half(b), Half(m), n - 1);
    }
  }

  /** A message followed by its own checksum, low byte first, always leaves one residue. */
  lemma Residue(data: seq<Byte>)
    ensures Crc(data + ToBytes(Crc(data))) == 0x2144_DF1C
  {
    hide Xor, ShiftAll, StepN, BitsOf, ToBytes;
    var r, ones := Register(data), 0xFFFF_FFFF;
    BitsSplit(data, ToBytes(Crc(data)));
    ShiftAllSplit(ones, BitsOf(data), BitsOf(ToBytes(Crc(data))));
    ShiftWord(r, Crc(data));
    XorAssoc(r, r, ones);
    XorSelf(r);
    XorZero(ones);
    FinalRegister();
  }

  lemma FinalRegister()
    ensures Xor(StepN(0xFFFF_FFFF, 32), 0xFFFF_FFFF) == 0x2144_DF1C
  {
    EightLiteralSteps();
    StepNAdd(0xFFFF_FFFF, 8, 24);
    StepNAdd(0x2DFD_1072, 8, 16);
    StepNAdd(0xBE26_ED00, 8, 8);
    hide StepN;
  }

  lemma EightLiteralSteps()
    ensures StepN(0xFFFF_FFFF, 8) == 0x2DFD_1072
    ensures StepN(0x2DFD_1072, 8) == 0xBE26_ED00
    ensures StepN(0xBE26_ED00, 8) == 0x00BE_26ED
    ensures StepN(0x00BE_26ED, 8) == 0xDEBB_20E3
  {
  }

  // ---------------------------------------------------------------- one value

  /** The check value of the CRC catalogue: the checksum of the nine digits "123456789". */
  lemma CheckValue()
    ensures Crc([0x31, 0x32, 0x33, 0x34, 0x35, 0x36, 0x37, 0x38, 0x39]) == 0xCBF4_3926
  {
    hide Xor, StepN, Register;
    var d: seq<Byte> := [0x31, 0x32, 0x33, 0x34, 0x35, 0x36, 0x37, 0x38, 0x39];
    EmptyRegister();
    RegisterNext(d, 0);
    RegisterNext(d, 1);
    RegisterNext(d, 2);
    RegisterNext(d, 3);
    RegisterNext(d, 4);
    RegisterNext(d, 5);
    RegisterNext(d, 6);
    RegisterNext(d, 7);
    RegisterNext(d, 8);
    assert d[..0] == [] && d[..9] == d;
    DigitBytes();
    FirstDigits();
    LastDigits();
    FinalComplement();
  }

  lemma DigitBytes()
    ensures Xor(0xFFFF_FFFF, (0x31 as Byte) as Word) == 0xFFFF_FFCE
    ensures Xor(0x7C23_1048, (0x32 as Byte) as Word) == 0x7C23_107A
    ensures Xor(0xB0AC_BB32, (0x33 as Byte) as Word) == 0xB0AC_BB01
    ensures Xor(0x77B7_9C2D, (0x34 as Byte) as Word) == 0x77B7_9C19
    ensures Xor(0x641C_1F5C, (0x35 as Byte) as Word) == 0x641C_1F69
    ensures Xor(0x340A_C5E3, (0x36 as Byte) as Word) == 0x340A_C5D5
    ensures Xor(0xF68D_2C9E, (0x37 as Byte) as Word) == 0xF68D_2CA9
    ensures Xor(0xAFFC_9660, (0x38 as Byte) as Word) == 0xAFFC_9658
    ensures Xor(0x651F_2550, (0x39 as Byte) as Word) == 0x651F_2569
  {
  }

  lemma FirstDigits()
    ensures StepN(0xFFFF_FFCE, 8) == 0x7C23_1048
    ensures StepN(0x7C23_107A, 8) == 0xB0AC_BB32
    ensures StepN(0xB0AC_BB01, 8) == 0x77B7_9C2D
    ensures StepN(0x77B7_9C19, 8) == 0x641C_1F5C
    ensures StepN(0x641C_1F69, 8) == 0x340A_C5E3
  {
  }

  lemma LastDigits()
    ensures StepN(0x340A_C5D5, 8) == 0xF68D_2C9E
    ensures StepN(0xF68D_2CA9, 8) == 0xAFFC_9660
    ensures StepN(0xAFFC_9658, 8) == 0x651F_2550
    ensures StepN(0x651F_2569, 8) == 0x340B_C6D9
  {
  }

  lemma FinalComplement()
    ensures Xor(0x340B_C6D9, 0xFFFF_FFFF) == 0xCBF4_3926
  {
  }
}
