/** 32-bit words seen as bit strings and as little-endian byte strings. */
module Words {

  type Byte = bv8
  type Word = bv32

  // Named word operations. The proofs by induction below hide their bit-vector
  // definitions and use only the algebraic laws stated next to them.

  function Xor(a: Word, b: Word): Word { a ^ b }

  function And(a: Word, b: Word): Word { a & b }

  function Plus(a: Word, b: Word): Word { a + b }

  function Minus(a: Word, b: Word): Word { a - b }

  function Half(w: Word): Word { w >> 1 }

  predicate Odd(w: Word) { w & 1 == 1 }

  lemma XorAssoc(a: Word, b: Word, c: Word)
    ensures Xor(Xor(a, b), c) == Xor(a, Xor(b, c))
  {
  }

  lemma XorComm(a: Word, b: Word)
    ensures Xor(a, b) == Xor(b, a)
  {
  }

  lemma XorCancels(a: Word, b: Word)
    ensures Xor(Xor(a, b), b) == a
  {
  }

  lemma XorSelf(a: Word)
    ensures Xor(a, a) == 0
  {
  }

  lemma XorZero(a: Word)
    ensures Xor(a, 0) == a && Xor(0, a) == a
  {
  }

  lemma XorExchange(a: Word, b: Word, c: Word, d: Word)
    ensures Xor(Xor(a, b), Xor(c, d)) == Xor(Xor(a, c), Xor(b, d))
  {
    hide Xor;
    XorAssoc(a, b, Xor(c, d));
    XorAssoc(b, c, d);
    XorComm(b, c);
    XorAssoc(c, b, d);
    XorAssoc(a, c, Xor(b, d));
  }

  lemma XorIs(a: Word, b: Word)
    ensures Xor(a, b) == a ^ b
  {
  }

  lemma AndIs(a: Word, b: Word)
    ensures And(a, b) == a & b
  {
  }

  lemma PlusIs(a: Word, b: Word)
    ensures Plus(a, b) == a + b
  {
  }

  lemma MinusIs(a: Word, b: Word)
    ensures Minus(a, b) == a - b
  {
  }

  lemma PlusAssoc(a: Word, b: Word, c: Word)
    ensures Plus(Plus(a, b), c) == Plus(a, Plus(b, c))
  {
    calc {
      Plus(Plus(a, b), c);
      Plus(a, b) + c;
      (a + b) + c;
      a + (b + c);
      a + Plus(b, c);
      Plus(a, Plus(b, c));
    }
  }

  lemma PlusComm(a: Word, b: Word)
    ensures Plus(a, b) == Plus(b, a)
  {
  }

  lemma XorLaws(a: Word, b: Word)
    ensures Odd(Xor(a, b)) == (Odd(a) != Odd(b))
    ensures Half(Xor(a, b)) == Xor(Half(a), Half(b))
  {
    hide Xor, Odd, Half;
    XorOdd(a, b);
    XorHalved(a, b);
  }

  lemma XorOdd(a: Word, b: Word)
    ensures Odd(Xor(a, b)) == (Odd(a) != Odd(b))
  {
  }

  lemma XorHalved(a: Word, b: Word)
    ensures Half(Xor(a, b)) == Xor(Half(a), Half(b))
  {
    XorHalf(a, b);
  }

  lemma XorHalf(a: Word, b: Word)
    ensures (a ^ b) >> 1 == (a >> 1) ^ (b >> 1)
  {
  }

  lemma AndLaws(a: Word, b: Word)
    ensures Odd(And(a, b)) == (Odd(a) && Odd(b))
    ensures Half(And(a, b)) == And(Half(a), Half(b))
  {
    AndHalf(a, b);
  }

  lemma AndHalf(a: Word, b: Word)
    ensures (a & b) >> 1 == (a >> 1) & (b >> 1)
  {
  }

  /** Bit i of w, counted from the least significant end; false past bit 31. */
  predicate Bit(w: Word, i: nat)
    decreases i
  {
    if i == 0 then Odd(w) else Bit(Half(w), i - 1)
  }

  function HalfN(w: Word, n: nat): Word
    decreases n
  {
    if n == 0 then w else HalfN(Half(w), n - 1)
  }

  lemma {:induction false} BitHalfN(w: Word, n: nat, i: nat)
    ensures Bit(HalfN(w, n), i) == Bit(w, n + i)
    decreases n
  {
    hide Half, Odd;
    if n == 0 {
    } else {
      BitHalfN(Half(w), n - 1, i);
    }
  }

  lemma {:induction false} BitXor(a: Word, b: Word, i: nat)
    ensures Bit(Xor(a, b), i) == (Bit(a, i) != Bit(b, i))
    decreases i
  {
    hide Half, Odd, Xor;
    XorLaws(a, b);
    if i == 0 {
    } else {
      BitXor(Half(a), Half(b), i - 1);
    }
  }

  lemma {:induction false} BitAnd(a: Word, b: Word, i: nat)
    ensures Bit(And(a, b), i) == (Bit(a, i) && Bit(b, i))
    decreases i
  {
    hide Half, Odd, And;
    AndLaws(a, b);
    if i == 0 {
    } else {
      BitAnd(Half(a), Half(b), i - 1);
    }
  }

  lemma {:induction false} BitZero(i: nat)
    ensures !Bit(0, i)
  {
    if i == 0 {
    } else {
      BitZero(i - 1);
    }
  }

  lemma BitHigh(w: Word, i: nat)
    requires i >= 32
    ensures !Bit(w, i)
  {
    HalfN32(w);
    BitHalfN(w, 32, i - 32);
    BitZero(i - 32);
  }

  lemma {:induction false} HalfNAdd(w: Word, m: nat, n: nat)
    ensures HalfN(w, m + n) == HalfN(HalfN(w, m), n)
    decreases m
  {
    hide Half;
    if m == 0 {
    } else {
      HalfNAdd(Half(w), m - 1, n);
    }
  }

  function Shr2(w: Word): Word { w >> 2 }
  function Shr5(w: Word): Word { w >> 5 }
  function Shr8(w: Word): Word { w >> 8 }
  function Shr9(w: Word): Word { w >> 9 }
  function Shr23(w: Word): Word { w >> 23 }
  function Shr30(w: Word): Word { w >> 30 }

  lemma HalfN2(w: Word)
    ensures HalfN(w, 2) == Shr2(w)
  {
    assert HalfN(w, 2) == HalfN(Half(w), 1);
  }

  lemma HalfN5(w: Word)
    ensures HalfN(w, 5) == Shr5(w)
  {
    assert HalfN(w, 5) == HalfN(Half(w), 4);
  }

  lemma HalfN9(w: Word)
    ensures HalfN(w, 9) == Shr9(w)
  {
    assert HalfN(w, 9) == HalfN(Half(Half(Half(Half(w)))), 5);
  }

  lemma HalfN23(w: Word)
    ensures HalfN(w, 23) == Shr23(w)
  {
    hide HalfN, Shr5, Shr9, Shr23;
    HalfN9(w);
    HalfN9(Shr9(w));
    HalfNAdd(w, 9, 9);
    HalfN5(Shr9(Shr9(w)));
    HalfNAdd(w, 18, 5);
    Shr23Parts(w);
  }

  lemma Shr23Parts(w: Word)
    ensures Shr5(Shr9(Shr9(w))) == Shr23(w)
  {
  }

  lemma HalfN30(w: Word)
    ensures HalfN(w, 30) == Shr30(w)
  {
    hide HalfN, Shr2, Shr5, Shr23, Shr30;
    HalfN23(w);
    HalfN5(Shr23(w));
    HalfN2(Shr5(Shr23(w)));
    HalfNAdd(w, 23, 5);
    HalfNAdd(w, 28, 2);
    Shr30Parts(w);
  }

  lemma Shr30Parts(w: Word)
    ensures Shr2(Shr5(Shr23(w))) == Shr30(w)
  {
  }

  lemma NothingLeft(w: Word)
    ensures Shr9(Shr23(w)) == 0
  {
  }

  lemma HalfN32(w: Word)
    ensures HalfN(w, 32) == 0
  {
    hide HalfN, Shr9, Shr23;
    HalfN23(w);
    HalfN9(Shr23(w));
    HalfNAdd(w, 23, 9);
    NothingLeft(w);
  }

  /** A word is determined by its bits. */
  lemma BitsDetermine(a: Word, b: Word)
    requires forall i: nat :: i < 32 ==> Bit(a, i) == Bit(b, i)
    ensures a == b
  {
    HalfN32(a);
    HalfN32(b);
    hide Bit, HalfN;
    SameLowBitsDetermine(a, b, 32);
  }

  lemma {:induction false} SameLowBitsDetermine(a: Word, b: Word, n: nat)
    requires forall i: nat :: i < n ==> Bit(a, i) == Bit(b, i)
    requires HalfN(a, n) == HalfN(b, n)
    ensures a == b
    decreases n
  {
    hide Odd, Half;
    if n == 0 {
    } else {
      assert Bit(a, 0) == Bit(b, 0);
      forall i: nat | i < n - 1
        ensures Bit(Half(a), i) == Bit(Half(b), i)
      {
        assert Bit(a, i + 1) == Bit(b, i + 1);
      }
      SameLowBitsDetermine(Half(a), Half(b), n - 1);
      HalfAndParity(a, b);
    }
  }

  lemma HalfAndParity(a: Word, b: Word)
    requires Half(a) == Half(b) && Odd(a) == Odd(b)
    ensures a == b
  {
  }

  lemma OnesLaws(m: Word)
    requires m & (m + 1) == 0
    ensures m != 0 ==> Odd(m)
    ensures Half(m) & (Half(m) + 1) == 0
  {
  }

  /** The bits of a block of low ones. */
  lemma {:induction false} OnesBit(m: Word, i: nat)
    requires m & (m + 1) == 0
    requires HalfN(m, i) != 0
    ensures Bit(m, i)
    decreases i
  {
    OnesLaws(m);
    hide Half, Odd;
    if i == 0 {
    } else {
      OnesBit(Half(m), i - 1);
    }
  }

  lemma {:induction false} HalfNStaysZero(m: Word, i: nat, j: nat)
    requires i <= j && HalfN(m, i) == 0
    ensures HalfN(m, j) == 0
    decreases j
  {
    if i == j {
    } else {
      HalfNStaysZero(m, i, j - 1);
      HalfNAdd(m, j - 1, 1);
      assert HalfN(0, 1) == 0;
    }
  }

  lemma LowOnes(i: nat)
    ensures i < 31 ==> Bit(0x7FFF_FFFF, i)
    ensures i < 23 ==> Bit(0x7F_FFFF, i)
    ensures i < 9 ==> Bit(0x1FF, i)
  {
    hide Bit;
    LowCounts();
    if i < 31 {
      OnesUpTo(0x7FFF_FFFF, i, 30);
    }
    if i < 23 {
      OnesUpTo(0x7F_FFFF, i, 22);
    }
    if i < 9 {
      OnesUpTo(0x1FF, i, 8);
    }
  }

  lemma LowCounts()
    ensures HalfN(0x7FFF_FFFF, 30) == 1 && HalfN(0x7F_FFFF, 22) == 1 && HalfN(0x1FF, 8) == 1
    ensures HalfN(0x8000_0000, 31) == 1
  {
    ConstantShifts();
    SmallCounts();
    hide HalfN;
    HalfN23(0x7FFF_FFFF);
    HalfNAdd(0x7FFF_FFFF, 23, 7);
    HalfN9(0x7F_FFFF);
    HalfNAdd(0x7F_FFFF, 9, 13);
    HalfN9(0x3FFF);
    HalfNAdd(0x3FFF, 9, 4);
    HalfN23(0x8000_0000);
    HalfNAdd(0x8000_0000, 23, 8);
  }

  lemma ConstantShifts()
    ensures Shr23(0x7FFF_FFFF) == 0xFF && Shr23(0x8000_0000) == 0x100
    ensures Shr9(0x7F_FFFF) == 0x3FFF && Shr9(0x3FFF) == 0x1F
  {
  }

  lemma SmallCounts()
    ensures HalfN(0xFF, 7) == 1 && HalfN(0x100, 8) == 1 && HalfN(0x1F, 4) == 1 && HalfN(0x1FF, 8) == 1
  {
  }

  lemma OnesUpTo(m: Word, i: nat, j: nat)
    requires i <= j && m & (m + 1) == 0 && HalfN(m, j) != 0
    ensures Bit(m, i)
  {
    if HalfN(m, i) == 0 {
      HalfNStaysZero(m, i, j);
    }
    OnesBit(m, i);
  }

  lemma BitShiftRight9(w: Word, i: nat)
    ensures Bit(w >> 9, i) == Bit(w, i + 9)
  {
    HalfN9(w);
    BitHalfN(w, 9, i);
  }

  lemma BitShiftLeft23(w: Word, i: nat)
    requires i < 32
    ensures Bit(w << 23, i) == (i >= 23 && Bit(w, i - 23))
  {
    var v := w << 23;
    LeftThenRight23(w);
    if i < 23 {
      LowOnes(i);
      BitAnd(v, 0x7F_FFFF, i);
      BitZero(i);
    } else {
      HalfN23(v);
      BitHalfN(v, 23, i - 23);
      LowOnes(i - 23);
      BitAnd(w, 0x1FF, i - 23);
    }
  }

  lemma LeftThenRight23(w: Word)
    ensures (w << 23) >> 23 == And(w, 0x1FF)
    ensures And(w << 23, 0x7F_FFFF) == 0
  {
  }

  lemma BitTop(i: nat)
    requires i < 32
    ensures Bit(0x8000_0000, i) == (i == 31)
  {
    if i < 31 {
      LowOnes(i);
      BitAnd(0x8000_0000, 0x7FFF_FFFF, i);
      BitZero(i);
    } else {
      LowCounts();
      BitHalfN(0x8000_0000, 31, 0);
    }
  }

  lemma TopOfLow31()
    ensures !Bit(0x7FFF_FFFF, 31)
  {
    BitTop(31);
    BitAnd(0x7FFF_FFFF, 0x8000_0000, 31);
    assert And(0x7FFF_FFFF, 0x8000_0000) == 0;
    BitZero(31);
  }

  lemma TopIsApart()
    ensures And(0x8000_0000, 0x7FFF_FFFF) == 0
  {
  }

  lemma OnesBits(i: nat)
    requires i < 32
    ensures Bit(0xFFFF_FFFF, i)
  {
    hide Bit, Xor;
    ComplementSplits();
    BitXor(0x8000_0000, 0x7FFF_FFFF, i);
    BitTop(i);
    LowOnes(i);
    TopOfLow31();
  }

  lemma ComplementSplits()
    ensures Xor(0x8000_0000, 0x7FFF_FFFF) == 0xFFFF_FFFF
  {
  }

  // ---------------------------------------------------------------- little-endian bytes

  function FromBytes(b0: Byte, b1: Byte, b2: Byte, b3: Byte): Word {
    (b0 as Word) | ((b1 as Word) << 8) | ((b2 as Word) << 16) | ((b3 as Word) << 24)
  }

  function Lane0(w: Word): Byte { (w & 0xFF) as Byte }
  function Lane1(w: Word): Byte { ((w >> 8) & 0xFF) as Byte }
  function Lane2(w: Word): Byte { ((w >> 16) & 0xFF) as Byte }
  function Lane3(w: Word): Byte { ((w >> 24) & 0xFF) as Byte }

  /** Byte j of w, least significant first. */
  function ByteOf(w: Word, j: nat): Byte
    requires j < 4
  {
    if j == 0 then Lane0(w) else if j == 1 then Lane1(w) else if j == 2 then Lane2(w) else Lane3(w)
  }

  function Load(s: seq<Byte>, i: nat): Word
    requires i + 4 <= |s|
  {
    FromBytes(s[i], s[i + 1], s[i + 2], s[i + 3])
  }

  function ToBytes(w: Word): (s: seq<Byte>)
    ensures |s| == 4
  {
    [ByteOf(w, 0), ByteOf(w, 1), ByteOf(w, 2), ByteOf(w, 3)]
  }

  lemma LoadOfBytes(w: Word)
    ensures FromBytes(ByteOf(w, 0), ByteOf(w, 1), ByteOf(w, 2), ByteOf(w, 3)) == w
  {
  }

  lemma BytesOfLoad(b0: Byte, b1: Byte, b2: Byte, b3: Byte)
    ensures ToBytes(FromBytes(b0, b1, b2, b3)) == [b0, b1, b2, b3]
  {
  }

  function XorByte(a: Byte, b: Byte): Byte { a ^ b }

  lemma XorByteCancels(a: Byte, k: Byte)
    ensures XorByte(XorByte(a, k), k) == a
  {
  }

  /** Xor on words is xor on each byte. */
  lemma XorBytes(b0: Byte, b1: Byte, b2: Byte, b3: Byte, k: Word)
    ensures ToBytes(Xor(FromBytes(b0, b1, b2, b3), k))
         == [XorByte(b0, ByteOf(k, 0)), XorByte(b1, ByteOf(k, 1)), XorByte(b2, ByteOf(k, 2)), XorByte(b3, ByteOf(k, 3))]
  {
    var w := FromBytes(b0, b1, b2, b3);
    hide Xor, XorByte, ByteOf, FromBytes;
    BytesOfLoad(b0, b1, b2, b3);
    ByteOfXor(w, k, 0);
    ByteOfXor(w, k, 1);
    ByteOfXor(w, k, 2);
    ByteOfXor(w, k, 3);
    assert ToBytes(w)[0] == b0 && ToBytes(w)[1] == b1 && ToBytes(w)[2] == b2 && ToBytes(w)[3] == b3;
  }

  lemma ByteOfXor(w: Word, k: Word, j: nat)
    requires j < 4
    ensures ByteOf(Xor(w, k), j) == XorByte(ByteOf(w, j), ByteOf(k, j))
  {
    hide Lane0, Lane1, Lane2, Lane3, Xor, XorByte;
    Lane0Xor(w, k);
    Lane1Xor(w, k);
    Lane2Xor(w, k);
    Lane3Xor(w, k);
  }

  lemma Lane0Xor(w: Word, k: Word)
    ensures Lane0(Xor(w, k)) == XorByte(Lane0(w), Lane0(k))
  {
  }

  lemma Lane1Xor(w: Word, k: Word)
    ensures Lane1(Xor(w, k)) == XorByte(Lane1(w), Lane1(k))
  {
  }

  lemma Lane2Xor(w: Word, k: Word)
    ensures Lane2(Xor(w, k)) == XorByte(Lane2(w), Lane2(k))
  {
  }

  lemma Lane3Xor(w: Word, k: Word)
    ensures Lane3(Xor(w, k)) == XorByte(Lane3(w), Lane3(k))
  {
  }

  method Load32(data: array<Byte>, i: nat) returns (w: Word)
    requires i + 4 <= data.Length
    ensures w == Load(data[..], i)
  {
    w := FromBytes(data[i], data[i + 1], data[i + 2], data[i + 3]);
  }

  method Store32(data: array<Byte>, i: nat, w: Word)
    requires i + 4 <= data.Length
    modifies data
    ensures data[..] == old(data[..i]) + ToBytes(w) + old(data[i + 4..])
  {
    data[i], data[i + 1], data[i + 2], data[i + 3] := ByteOf(w, 0), ByteOf(w, 1), ByteOf(w, 2), ByteOf(w, 3);
    assert data[..i] == old(data[..i]);
  }

  /** s with the word at i xored with k. */
  function XoredAt(s: seq<Byte>, i: nat, k: Word): (r: seq<Byte>)
    requires i + 4 <= |s|
    ensures |r| == |s|
  {
    s[..i] + ToBytes(Xor(Load(s, i), k)) + s[i + 4..]
  }

  method XorWord(data: array<Byte>, i: nat, k: Word)
    requires i + 4 <= data.Length
    modifies data
    ensures data[..] == XoredAt(old(data[..]), i, k)
  {
    var w := Load32(data, i);
    Store32(data, i, Xor(w, k));
  }

  // ---------------------------------------------------------------- arrays and indices

  function ZeroWords(n: nat): (w: seq<Word>)
    ensures |w| == n && forall i :: 0 <= i < n ==> w[i] == 0
  {
    seq(n, _ => 0)
  }

  /** A number below 256 is the value of the byte it converts to. */
  lemma ByteValue(k: nat)
    requires k < 256
    ensures ((k as Byte) as int) == k
  {
    var x := ByteWith(k);
    ByteBack(x);
  }

  lemma {:induction false} ByteWith(k: nat) returns (x: Byte)
    requires k < 256
    ensures x as int == k
  {
    if k == 0 {
      x := 0;
    } else {
      var y := ByteWith(k - 1);
      BelowTop(y);
      NextByte(y);
      x := y + 1;
    }
  }

  lemma BelowTop(x: Byte)
    requires x as int < 255
    ensures x != 0xFF
  {
  }

  lemma NextByte(x: Byte)
    requires x != 0xFF
    ensures ((x + 1) as int) == x as int + 1
  {
  }

  lemma ByteBack(x: Byte)
    ensures ((x as int) as Byte) == x
  {
  }

  /** Pieces of a byte stream put together. */
  function Joined(pieces: seq<seq<Byte>>): seq<Byte> {
    if pieces == [] then [] else pieces[0] + Joined(pieces[1..])
  }

  /** Quotient and remainder are determined by their equation. */
  lemma RemainderIs(a: int, len: int, q: int, r: int)
    requires 0 <= r < len && a == len * q + r
    ensures a % len == r
  {
    var d := q - a / len;
    assert a == len * (a / len) + a % len;
    assert len * d == a % len - r;
    Multiples(len, d);
  }

  lemma Multiples(len: int, d: int)
    requires len >= 0
    ensures d >= 1 ==> len * d >= len
    ensures d <= -1 ==> len * d <= -len
  {
  }
}
