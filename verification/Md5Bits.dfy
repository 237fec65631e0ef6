/** What the functions of MD5 compute, bit by bit. */
module Md5Bits {
  import opened Words
  import opened Md5Compression

  // ---------------------------------------------------------------- the auxiliary functions

  lemma OrIsXor(a: Word, b: Word)
    ensures a | b == Xor(Xor(a, b), And(a, b))
  {
    hide Xor, And;
    XorIs(a, b);
    AndIs(a, b);
    XorIs(a ^ b, a & b);
    RawOr(a, b);
  }

  lemma RawOr(a: Word, b: Word)
    ensures a | b == (a ^ b) ^ (a & b)
  {
  }

  lemma NotIsXor(a: Word)
    ensures !a == Xor(a, 0xFFFF_FFFF)
  {
  }

  lemma BitOr(a: Word, b: Word, i: nat)
    ensures Bit(a | b, i) == (Bit(a, i) || Bit(b, i))
  {
    hide Bit, Xor, And;
    OrIsXor(a, b);
    BitXor(Xor(a, b), And(a, b), i);
    BitXor(a, b, i);
    BitAnd(a, b, i);
  }

  lemma BitNot(a: Word, i: nat)
    requires i < 32
    ensures Bit(!a, i) == !Bit(a, i)
  {
    hide Bit, Xor;
    NotIsXor(a);
    BitXor(a, 0xFFFF_FFFF, i);
    OnesBits(i);
  }

  /** F selects y where x is set and z elsewhere. */
  lemma FBit(x: Word, y: Word, z: Word, i: nat)
    requires i < 32
    ensures Bit(F(x, y, z), i) == if Bit(x, i) then Bit(y, i) else Bit(z, i)
  {
    hide Bit, And, F;
    FIs(x, y, z);
    BitOr(And(x, y), And(!x, z), i);
    BitAnd(x, y, i);
    BitAnd(!x, z, i);
    BitNot(x, i);
  }

  lemma FIs(x: Word, y: Word, z: Word)
    ensures F(x, y, z) == And(x, y) | And(!x, z)
  {
  }

  /** G selects x where z is set and y elsewhere. */
  lemma GBit(x: Word, y: Word, z: Word, i: nat)
    requires i < 32
    ensures Bit(G(x, y, z), i) == if Bit(z, i) then Bit(x, i) else Bit(y, i)
  {
    hide Bit, And, G;
    GIs(x, y, z);
    BitOr(And(x, z), And(y, !z), i);
    BitAnd(x, z, i);
    BitAnd(y, !z, i);
    BitNot(z, i);
  }

  lemma GIs(x: Word, y: Word, z: Word)
    ensures G(x, y, z) == And(x, z) | And(y, !z)
  {
  }

  /** H is parity. */
  lemma HBit(x: Word, y: Word, z: Word, i: nat)
    requires i < 32
    ensures Bit(H(x, y, z), i) == ((Bit(x, i) != Bit(y, i)) != Bit(z, i))
  {
    hide Bit, Xor;
    BitXor(Xor(x, y), z, i);
    BitXor(x, y, i);
  }

  /** I differs from y exactly where x is set or z is clear. */
  lemma IBit(x: Word, y: Word, z: Word, i: nat)
    requires i < 32
    ensures Bit(I(x, y, z), i) == (Bit(y, i) != (Bit(x, i) || !Bit(z, i)))
  {
    hide Bit, Xor, I;
    IIs(x, y, z);
    BitXor(y, x | !z, i);
    BitOr(x, !z, i);
    BitNot(z, i);
  }

  lemma IIs(x: Word, y: Word, z: Word)
    ensures I(x, y, z) == Xor(y, x | !z)
  {
  }

  // ---------------------------------------------------------------- rotation

  /** Rotation moves bit i up by s places, around the top. */
  lemma {:induction false} RotBit(x: Word, s: nat, i: nat)
    requires 0 < s < 32 && i < 32
    ensures Bit(Rot(x, s), (i + s) % 32) == Bit(x, i)
    decreases s
  {
    hide Bit, Rot;
    if s == 1 {
      RotOneBit(x, i);
    } else {
      var j := (i + s - 1) % 32;
      RotNext(x, s - 1);
      RotBit(x, s - 1, i);
      RotOneBit(Rot(x, s - 1), j);
      AroundTop(i, s);
    }
  }

  lemma AroundTop(i: nat, s: nat)
    requires s > 0
    ensures ((i + s - 1) % 32 + 1) % 32 == (i + s) % 32
  {
    var q, r := (i + s - 1) / 32, (i + s - 1) % 32;
    RemainderIs(i + s, 32, if r < 31 then q else q + 1, if r < 31 then r + 1 else 0);
  }

  lemma RotOneBit(x: Word, i: nat)
    requires i < 32
    ensures Bit(Rot(x, 1), (i + 1) % 32) == Bit(x, i)
  {
    hide Odd, Half, Rot, And, Bit;
    if i == 31 {
      RotOneOdd(x);
      LowBit(Rot(x, 1));
      TopBitIs(x);
    } else {
      RotOneHalf(x);
      NextBit(Rot(x, 1), i);
      BitAnd(x, 0x7FFF_FFFF, i);
      LowOnes(i);
    }
  }

  lemma NextBit(w: Word, i: nat)
    ensures Bit(w, i + 1) == Bit(Half(w), i)
  {
    hide Half, Odd;
  }

  lemma RotOneHalf(x: Word)
    ensures Half(Rot(x, 1)) == And(x, 0x7FFF_FFFF)
  {
    hide Half, Rot, And;
    RotIs1(x);
    AndIs(x, 0x7FFF_FFFF);
    HalfOfRotated(x);
  }

  lemma HalfOfRotated(x: Word)
    ensures Half((x << 1) | (x >> 31)) == x & 0x7FFF_FFFF
  {
  }

  lemma RotOneOdd(x: Word)
    ensures Odd(Rot(x, 1)) <==> And(x, 0x8000_0000) != 0
  {
    hide Odd, Rot, And;
    RotIs1(x);
    AndIs(x, 0x8000_0000);
    OddOfRotated(x);
  }

  lemma OddOfRotated(x: Word)
    ensures Odd((x << 1) | (x >> 31)) <==> x & 0x8000_0000 != 0
  {
  }

  lemma LowBit(x: Word)
    ensures Bit(x, 0) == Odd(x)
  {
  }

  lemma TopBitIs(x: Word)
    ensures Bit(x, 31) <==> And(x, 0x8000_0000) != 0
  {
    TopPart(x);
    hide Odd, Half, And;
    BitAnd(x, 0x8000_0000, 31);
    BitTop(31);
    BitZero(31);
  }

  lemma TopPart(x: Word)
    ensures And(x, 0x8000_0000) == 0x8000_0000 || And(x, 0x8000_0000) == 0
  {
  }

  /** One more place is one more rotation. */
  lemma RotNext(x: Word, s: nat)
    requires 0 < s < 31
    ensures Rot(x, s + 1) == Rot(Rot(x, s), 1)
  {
    hide *;
    if s <= 6 {
      RotIs1(x);
      RotIs7(x);
      RotAgain1(x);
      assert s == 1 || s == 2 || s == 3 || s == 4 || s == 5 || s == 6;
    } else if s <= 12 {
      RotIs7(x);
      RotIs13(x);
      RotAgain7(x);
      assert s == 7 || s == 8 || s == 9 || s == 10 || s == 11 || s == 12;
    } else if s <= 18 {
      RotIs13(x);
      RotIs19(x);
      RotAgain13(x);
      assert s == 13 || s == 14 || s == 15 || s == 16 || s == 17 || s == 18;
    } else if s <= 24 {
      RotIs19(x);
      RotIs25(x);
      RotAgain19(x);
      assert s == 19 || s == 20 || s == 21 || s == 22 || s == 23 || s == 24;
    } else {
      RotIs25(x);
      RotAgain25(x);
      assert s == 25 || s == 26 || s == 27 || s == 28 || s == 29 || s == 30;
    }
  }

  lemma RotIs1(x: Word)
    ensures Rot(x, 1) == (x << 1) | (x >> 31)
    ensures Rot(x, 2) == (x << 2) | (x >> 30)
    ensures Rot(x, 3) == (x << 3) | (x >> 29)
    ensures Rot(x, 4) == (x << 4) | (x >> 28)
    ensures Rot(x, 5) == (x << 5) | (x >> 27)
    ensures Rot(x, 6) == (x << 6) | (x >> 26)
  {
  }

  lemma RotAgain1(x: Word)
    ensures Rot((x << 1) | (x >> 31), 1) == (x << 2) | (x >> 30)
    ensures Rot((x << 2) | (x >> 30), 1) == (x << 3) | (x >> 29)
    ensures Rot((x << 3) | (x >> 29), 1) == (x << 4) | (x >> 28)
    ensures Rot((x << 4) | (x >> 28), 1) == (x << 5) | (x >> 27)
    ensures Rot((x << 5) | (x >> 27), 1) == (x << 6) | (x >> 26)
    ensures Rot((x << 6) | (x >> 26), 1) == (x << 7) | (x >> 25)
  {
  }

  lemma RotIs7(x: Word)
    ensures Rot(x, 7) == (x << 7) | (x >> 25)
    ensures Rot(x, 8) == (x << 8) | (x >> 24)
    ensures Rot(x, 9) == (x << 9) | (x >> 23)
    ensures Rot(x, 10) == (x << 10) | (x >> 22)
    ensures Rot(x, 11) == (x << 11) | (x >> 21)
    ensures Rot(x, 12) == (x << 12) | (x >> 20)
  {
  }

  lemma RotAgain7(x: Word)
    ensures Rot((x << 7) | (x >> 25), 1) == (x << 8) | (x >> 24)
    ensures Rot((x << 8) | (x >> 24), 1) == (x << 9) | (x >> 23)
    ensures Rot((x << 9) | (x >> 23), 1) == (x << 10) | (x >> 22)
    ensures Rot((x << 10) | (x >> 22), 1) == (x << 11) | (x >> 21)
    ensures Rot((x << 11) | (x >> 21), 1) == (x << 12) | (x >> 20)
    ensures Rot((x << 12) | (x >> 20), 1) == (x << 13) | (x >> 19)
  {
  }

  lemma RotIs13(x: Word)
    ensures Rot(x, 13) == (x << 13) | (x >> 19)
    ensures Rot(x, 14) == (x << 14) | (x >> 18)
    ensures Rot(x, 15) == (x << 15) | (x >> 17)
    ensures Rot(x, 16) == (x << 16) | (x >> 16)
    ensures Rot(x, 17) == (x << 17) | (x >> 15)
    ensures Rot(x, 18) == (x << 18) | (x >> 14)
  {
  }

  lemma RotAgain13(x: Word)
    ensures Rot((x << 13) | (x >> 19), 1) == (x << 14) | (x >> 18)
    ensures Rot((x << 14) | (x >> 18), 1) == (x << 15) | (x >> 17)
    ensures Rot((x << 15) | (x >> 17), 1) == (x << 16) | (x >> 16)
    ensures Rot((x << 16) | (x >> 16), 1) == (x << 17) | (x >> 15)
    ensures Rot((x << 17) | (x >> 15), 1) == (x << 18) | (x >> 14)
    ensures Rot((x << 18) | (x >> 14), 1) == (x << 19) | (x >> 13)
  {
  }

  lemma RotIs19(x: Word)
    ensures Rot(x, 19) == (x << 19) | (x >> 13)
    ensures Rot(x, 20) == (x << 20) | (x >> 12)
    ensures Rot(x, 21) == (x << 21) | (x >> 11)
    ensures Rot(x, 22) == (x << 22) | (x >> 10)
    ensures Rot(x, 23) == (x << 23) | (x >> 9)
    ensures Rot(x, 24) == (x << 24) | (x >> 8)
  {
  }

  lemma RotAgain19(x: Word)
    ensures Rot((x << 19) | (x >> 13), 1) == (x << 20) | (x >> 12)
    ensures Rot((x << 20) | (x >> 12), 1) == (x << 21) | (x >> 11)
    ensures Rot((x << 21) | (x >> 11), 1) == (x << 22) | (x >> 10)
    ensures Rot((x << 22) | (x >> 10), 1) == (x << 23) | (x >> 9)
    ensures Rot((x << 23) | (x >> 9), 1) == (x << 24) | (x >> 8)
    ensures Rot((x << 24) | (x >> 8), 1) == (x << 25) | (x >> 7)
  {
  }

  lemma RotIs25(x: Word)
    ensures Rot(x, 25) == (x << 25) | (x >> 7)
    ensures Rot(x, 26) == (x << 26) | (x >> 6)
    ensures Rot(x, 27) == (x << 27) | (x >> 5)
    ensures Rot(x, 28) == (x << 28) | (x >> 4)
    ensures Rot(x, 29) == (x << 29) | (x >> 3)
    ensures Rot(x, 30) == (x << 30) | (x >> 2)
    ensures Rot(x, 31) == (x << 31) | (x >> 1)
  {
  }

  lemma RotAgain25(x: Word)
    ensures Rot((x << 25) | (x >> 7), 1) == (x << 26) | (x >> 6)
    ensures Rot((x << 26) | (x >> 6), 1) == (x << 27) | (x >> 5)
    ensures Rot((x << 27) | (x >> 5), 1) == (x << 28) | (x >> 4)
    ensures Rot((x << 28) | (x >> 4), 1) == (x << 29) | (x >> 3)
    ensures Rot((x << 29) | (x >> 3), 1) == (x << 30) | (x >> 2)
    ensures Rot((x << 30) | (x >> 2), 1) == (x << 31) | (x >> 1)
  {
  }
}
