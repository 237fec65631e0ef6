/** What the item checkers read off an item's bytes, as numbers. */
module ItemBytes {
  import opened Words
  import opened Items
  import opened ItemPercents
  import opened PercentTightening
  import opened MagBlasts
  import opened ItemChecks

  // ---------------------------------------------------------------- bytes as numbers

  lemma Mod2(x: Byte)
    ensures (x & 0x01) as int == x as int % 2 && x & 0x01 <= 1
  {
  }

  lemma Mod4(x: Byte)
    ensures (x & 0x03) as int == x as int % 4 && x & 0x03 < 4
  {
  }

  lemma Mod8(x: Byte)
    ensures (x & 0x07) as int == x as int % 8
  {
  }

  lemma Mod16(x: Byte)
    ensures (x & 0x0F) as int == x as int % 16
  {
  }

  lemma Mod32(x: Byte)
    ensures (x & 0x1F) as int == x as int % 32
  {
  }

  lemma Mod64(x: Byte)
    ensures (x & 0x3F) as int == x as int % 64
  {
  }

  lemma Mod128(x: Byte)
    ensures (x & 0x7F) as int == x as int % 128
  {
  }

  lemma Over2(x: Byte)
    ensures (x >> 1) as int == x as int / 2
  {
  }

  lemma Over4(x: Byte)
    ensures (x >> 2) as int == x as int / 4
  {
  }

  lemma Over8(x: Byte)
    ensures (x >> 3) as int == x as int / 8
  {
  }

  lemma Over32(x: Byte)
    ensures (x >> 5) as int == x as int / 32
  {
  }

  lemma Over64(x: Byte)
    ensures ((x >> 6) & 0x03) as int == x as int / 64
  {
  }

  lemma Flag1(x: Byte)
    ensures x & 0x01 != 0 <==> x as int % 2 == 1
  {
    Mod2(x);
  }

  lemma Flag2(x: Byte)
    ensures x & 0x02 != 0 <==> x as int / 2 % 2 == 1
  {
    Over2(x);
    Flag1(x >> 1);
    SecondBit(x);
  }

  lemma SecondBit(x: Byte)
    ensures x & 0x02 != 0 <==> (x >> 1) & 0x01 != 0
  {
  }

  lemma Flag4(x: Byte)
    ensures x & 0x04 != 0 <==> x as int / 4 % 2 == 1
  {
    Over4(x);
    Flag1(x >> 2);
    ThirdBit(x);
  }

  lemma ThirdBit(x: Byte)
    ensures x & 0x04 != 0 <==> (x >> 2) & 0x01 != 0
  {
  }

  lemma Flag64(x: Byte)
    ensures x & 0x40 != 0 <==> x as int / 64 % 2 == 1
  {
  }

  lemma Flag128(x: Byte)
    ensures x & 0x80 != 0 <==> x as int >= 128
  {
  }

  lemma AtMostByte(x: Byte, n: Byte)
    ensures x <= n <==> x as int <= n as int
  {
  }

  // ---------------------------------------------------------------- codes

  /** The code looked up for an item, byte by byte. Before the GameCube, weapons and guards may
      carry their real type elsewhere, some mags are renumbered, and technique disks have
      their own codes. */
  lemma CodeByBytes(i: IItem, version: Word)
    requires i.Valid()
    ensures var b, old' := i.b, version < 4;
            && (b[0] == 0 ==>
                  NormalCode(i, version)
                  == if old' && b[5] != 0 then FromBytes(0, b[5], 0, 0) else FromBytes(0, b[1], b[2], 0))
            && (b[0] == 1 ==>
                  NormalCode(i, version)
                  == FromBytes(1, b[1], if old' && b[1] as int % 4 != 3 then b[2] | b[3] else b[2], 0))
            && (b[0] == 2 ==>
                  NormalCode(i, version)
                  == FromBytes(2, if old' && b[1] == 0 && b[2] >= 0xC9 then b[2] - 0x9D else b[1], 0, 0))
            && (b[0] == 3 ==>
                  NormalCode(i, version)
                  == if old' && b[1] == 0x0D && b[2] == 0x06 && b[3] != 0 then FromBytes(3, 0x0E, b[3] - 1, 0)
                     else FromBytes(3, b[1], b[2], 0))
  {
    hide FromBytes, ItemCode, WeaponCode, GuardCode, MagCode, ToolCode;
    ItemCodeIs(i);
    if i.b[0] == 0 {
      WeaponCodeIs(i, version, i.b[1], i.b[2]);
    } else if i.b[0] == 1 {
      GuardCodeIs(i, version, i.b[1], i.b[2]);
    } else if i.b[0] == 2 {
      MagCodeIs(i, version, i.b[1], i.b[2]);
    } else if i.b[0] == 3 {
      ToolCodeIs(i, version, i.b[1], i.b[2]);
    }
  }

  lemma ItemCodeIs(i: IItem)
    requires i.Valid()
    ensures ItemCode(i) == FromBytes(i.b[0], i.b[1], i.b[2], 0)
  {
    ThreeBytes(i.b[0], i.b[1], i.b[2]);
    hide FromBytes;
  }

  lemma ThreeBytes(a: Byte, b: Byte, c: Byte)
    ensures (a as Word) | ((b as Word) << 8) | ((c as Word) << 16) == FromBytes(a, b, c, 0)
  {
  }

  lemma WeaponCodeIs(i: IItem, version: Word, b1: Byte, b2: Byte)
    requires i.Valid()
    ensures WeaponCode(i, version, FromBytes(0, b1, b2, 0))
         == if version < 4 && i.b[5] != 0 then FromBytes(0, i.b[5], 0, 0) else FromBytes(0, b1, b2, 0)
  {
    OneByte(i.b[5]);
    hide FromBytes;
  }

  lemma OneByte(b: Byte)
    ensures (b as Word) << 8 == FromBytes(0, b, 0, 0)
  {
  }

  lemma GuardCodeIs(i: IItem, version: Word, b1: Byte, b2: Byte)
    requires i.Valid()
    ensures GuardCode(i, version, FromBytes(1, b1, b2, 0))
         == FromBytes(1, b1, if version < 4 && b1 as int % 4 != 3 then b2 | i.b[3] else b2, 0)
  {
    hide FromBytes, GuardType, GuardCode;
    if version < 4 && b1 as int % 4 != 3 {
      GuardMoved(i, version, b1, b2);
    } else {
      GuardStays(i, version, b1, b2);
    }
  }

  lemma GuardMoved(i: IItem, version: Word, b1: Byte, b2: Byte)
    requires i.Valid() && version < 4 && b1 as int % 4 != 3
    ensures GuardCode(i, version, FromBytes(1, b1, b2, 0)) == FromBytes(1, b1, b2 | i.b[3], 0)
  {
    hide FromBytes, GuardType, GuardCode, AddThird;
    UnitCode(b1, b2);
    GuardCodeGiven(i, version, FromBytes(1, b1, b2, 0));
    if i.b[3] == 0 {
      NoThird(b2, i.b[3]);
    } else {
      WithThird(b1, b2, i.b[3]);
    }
  }

  lemma GuardStays(i: IItem, version: Word, b1: Byte, b2: Byte)
    requires i.Valid() && !(version < 4 && b1 as int % 4 != 3)
    ensures GuardCode(i, version, FromBytes(1, b1, b2, 0)) == FromBytes(1, b1, b2, 0)
  {
    hide FromBytes, GuardType, GuardCode;
    UnitCode(b1, b2);
    GuardCodeGiven(i, version, FromBytes(1, b1, b2, 0));
  }

  lemma GuardCodeGiven(i: IItem, version: Word, ic: Word)
    requires i.Valid()
    ensures GuardCode(i, version, ic)
         == if version < 4 && GuardType(ic) != 3 && i.b[3] != 0 then AddThird(ic, i.b[3]) else ic
  {
    hide GuardType;
  }

  lemma UnitCode(b1: Byte, b2: Byte)
    ensures GuardType(FromBytes(1, b1, b2, 0)) == 3 <==> b1 as int % 4 == 3
  {
    hide FromBytes, GuardType;
    GuardTypeIs(b1, b2);
    UnitType(b1);
  }

  lemma UnitType(b1: Byte)
    ensures b1 & 0x03 == 3 <==> b1 as int % 4 == 3
  {
    Mod4(b1);
    AtMostByte(3, b1 & 0x03);
  }

  lemma GuardTypeIs(b1: Byte, b2: Byte)
    ensures GuardType(FromBytes(1, b1, b2, 0)) == 3 <==> b1 & 0x03 == 3
  {
  }

  function AddThird(ic: Word, b: Byte): Word { ic | ((b as Word) << 16) }

  lemma WithThird(b1: Byte, b2: Byte, b3: Byte)
    ensures AddThird(FromBytes(1, b1, b2, 0), b3) == FromBytes(1, b1, b2 | b3, 0)
  {
  }

  lemma NoThird(b2: Byte, b3: Byte)
    requires b3 == 0
    ensures b2 | b3 == b2
  {
  }

  lemma MagCodeIs(i: IItem, version: Word, b1: Byte, b2: Byte)
    requires i.Valid() && i.b[1] == b1 && i.b[2] == b2
    ensures MagCode(i, version, FromBytes(2, b1, b2, 0))
         == FromBytes(2, if version < 4 && b1 == 0 && b2 >= 0xC9 then b2 - 0x9D else b1, 0, 0)
  {
    LowPair(b1, b2);
    MagNumber(b1);
    MagNumber((b2 - 0xC9) + 0x2C);
    Renumbered(b2);
    hide FromBytes;
  }

  lemma LowPair(b1: Byte, b2: Byte)
    ensures FromBytes(2, b1, b2, 0) & 0xFFFF == FromBytes(2, b1, 0, 0)
  {
  }

  lemma MagNumber(b: Byte)
    ensures 0x02 | ((b as Word) << 8) == FromBytes(2, b, 0, 0)
  {
  }

  lemma Renumbered(b: Byte)
    ensures (b - 0xC9) + 0x2C == b - 0x9D
  {
  }

  lemma ToolCodeIs(i: IItem, version: Word, b1: Byte, b2: Byte)
    requires i.Valid()
    ensures ToolCode(i, version, FromBytes(3, b1, b2, 0))
         == if version < 4 && b1 == 0x0D && b2 == 0x06 && i.b[3] != 0 then FromBytes(3, 0x0E, i.b[3] - 1, 0)
            else FromBytes(3, b1, b2, 0)
  {
    DiskCode(b1, b2);
    DiskNumber(i.b[3] - 1);
    hide FromBytes;
  }

  lemma DiskCode(b1: Byte, b2: Byte)
    ensures FromBytes(3, b1, b2, 0) == 0x060D03 <==> b1 == 0x0D && b2 == 0x06
  {
  }

  lemma DiskNumber(b: Byte)
    ensures 0x000E03 | ((b as Word) << 16) == FromBytes(3, 0x0E, b, 0)
  {
  }

  // ---------------------------------------------------------------- mags

  /** A GameCube or Xbox mag: packed blasts, statistics in hundredths below 32768, and a second
      word that the Xbox stores in reverse: colour, blast flags, IQ, synchro. */
  lemma MagV3ByBytes(i: IItem, version: Word)
    requires i.Valid()
    ensures var m, b, x := ReadV3(i, version), i.b, version == 8;
            var flags := i.b2[if x then 2 else 1] as int;
            && m.cpb == b[3] as int % 8 && m.rpb == b[3] as int / 8 % 8 && m.lpb == b[3] as int / 64
            && (m.hasCpb <==> flags % 2 == 1) && (m.hasRpb <==> flags / 2 % 2 == 1)
            && (m.hasLpb <==> flags / 4 % 2 == 1)
            && m.def == (b[4] as int + 256 * (b[5] as int % 128)) / 100
            && m.pow == (b[6] as int + 256 * (b[7] as int % 128)) / 100
            && m.dex == (b[8] as int + 256 * (b[9] as int % 128)) / 100
            && m.mind == (b[10] as int + 256 * (b[11] as int % 128)) / 100
            && m.color == i.b2[if x then 3 else 0] as int
            && m.iq == i.b2[if x then 1 else 2] as int && m.synchro == i.b2[if x then 0 else 3] as int
  {
    PackedBlasts(i.b[3]);
    Flag1(i.b2[if version == 8 then 2 else 1]);
    Flag2(i.b2[if version == 8 then 2 else 1]);
    Flag4(i.b2[if version == 8 then 2 else 1]);
    Stat15(i.b[4], i.b[5]);
    Stat15(i.b[6], i.b[7]);
    Stat15(i.b[8], i.b[9]);
    Stat15(i.b[10], i.b[11]);
    hide Center, Right, Left, Stat;
  }

  lemma PackedBlasts(x: Byte)
    ensures Center(x) == x as int % 8 && Right(x) == x as int / 8 % 8 && Left(x) == x as int / 64
  {
    Mod8(x);
    Mod8(x >> 3);
    Over8(x);
    Over64(x);
  }

  lemma Stat15(low: Byte, high: Byte)
    ensures Stat(low, high, 0x7FFF) == (low as int + 256 * (high as int % 128)) / 100
  {
    hide MaskedPair;
    Low15(low, high);
  }

  lemma Low15(low: Byte, high: Byte)
    ensures MaskedPair(low, high, 0x7FFF) == low as int + 256 * (high as int % 128)
  {
    hide MaskedPair;
    MaskedIs(low, high);
    RawLow15(low, high);
  }

  lemma MaskedIs(low: Byte, high: Byte)
    ensures MaskedPair(low, high, 0x7FFF) == (((low as Word) | ((high as Word) << 8)) & 0x7FFF) as int
  {
  }

  lemma RawLow15(low: Byte, high: Byte)
    ensures (((low as Word) | ((high as Word) << 8)) & 0x7FFF) as int == low as int + 256 * (high as int % 128)
  {
  }

  lemma Stat14(low: Byte, high: Byte)
    ensures Stat(low, high, 0x7FFE) == (2 * (low as int / 2) + 256 * (high as int % 128)) / 100
  {
    hide MaskedPair;
    Even15(low, high);
  }

  lemma Even15(low: Byte, high: Byte)
    ensures MaskedPair(low, high, 0x7FFE) == 2 * (low as int / 2) + 256 * (high as int % 128)
  {
    hide MaskedPair;
    WithoutLow(low, high);
    Low15(low & 0xFE, high);
    EvenByte(low);
  }

  lemma WithoutLow(low: Byte, high: Byte)
    ensures MaskedPair(low, high, 0x7FFE) == MaskedPair(low & 0xFE, high, 0x7FFF)
  {
  }

  lemma EvenByte(low: Byte)
    ensures (low & 0xFE) as int == 2 * (low as int / 2)
  {
  }

  /** A version 1 or 2 mag: blast flags in three top bits, the colour spread over the low bits of
      the statistics, which do not count it. */
  lemma MagV2ByBytes(i: IItem)
    requires i.Valid()
    ensures var m, b := ReadV2(i), i.b;
            && m.cpb == b[3] as int % 8 && m.rpb == b[3] as int / 8 % 8 && m.lpb == b[3] as int / 64
            && (m.hasCpb <==> i.b2[3] as int >= 128) && (m.hasRpb <==> b[5] as int >= 128)
            && (m.hasLpb <==> b[7] as int >= 128)
            && m.def == (2 * (b[4] as int / 2) + 256 * (b[5] as int % 128)) / 100
            && m.pow == (2 * (b[6] as int / 2) + 256 * (b[7] as int % 128)) / 100
            && m.dex == (2 * (b[8] as int / 2) + 256 * (b[9] as int % 128)) / 100
            && m.mind == (2 * (b[10] as int / 2) + 256 * (b[11] as int % 128)) / 100
            && m.iq == i.b2[0] as int + 256 * (i.b2[1] as int)
            && m.synchro == i.b2[2] as int + 256 * (i.b2[3] as int % 128)
            && m.color == b[4] as int % 2 + 2 * (b[6] as int % 2) + 4 * (b[8] as int % 2) + 8 * (b[10] as int % 2)
  {
    hide Center, Right, Left, Stat, Color;
    PackedBlasts(i.b[3]);
    Flag128(i.b2[3]);
    Flag128(i.b[5]);
    Flag128(i.b[7]);
    Stat14(i.b[4], i.b[5]);
    Stat14(i.b[6], i.b[7]);
    Stat14(i.b[8], i.b[9]);
    Stat14(i.b[10], i.b[11]);
    Mod128(i.b2[3]);
    ColorIs(i.b[4], i.b[6], i.b[8], i.b[10]);
  }

  lemma ColorIs(a: Byte, b: Byte, c: Byte, d: Byte)
    ensures Color(a, b, c, d) == a as int % 2 + 2 * (b as int % 2) + 4 * (c as int % 2) + 8 * (d as int % 2)
  {
    Mod2(a);
    Mod2(b);
    Mod2(c);
    Mod2(d);
    FourBits(a & 0x01, b & 0x01, c & 0x01, d & 0x01);
  }

  lemma FourBits(p: Byte, q: Byte, r: Byte, t: Byte)
    requires p <= 1 && q <= 1 && r <= 1 && t <= 1
    ensures (p | (q << 1) | (r << 2) | (t << 3)) as int == p as int + 2 * (q as int) + 4 * (r as int) + 8 * (t as int)
  {
    assert (p == 0 || p == 1) && (q == 0 || q == 1) && (r == 0 || r == 1) && (t == 0 || t == 1);
  }

  /** A mask allows a blast or colour when that bit is set. */
  lemma HasBitIsBit(mask: Word, n: nat)
    requires n < 31
    ensures HasBit(mask, n) <==> Bit(mask, n)
  {
    hide Bit, And, OneBit;
    var one := And(mask, OneBit(n));
    forall j: nat | j < 32
      ensures Bit(one, j) <==> j == n && Bit(mask, n)
    {
      BitAnd(mask, OneBit(n), j);
      OneBitBits(n, j);
    }
    if one == 0 {
      BitZero(n);
    } else if !Bit(mask, n) {
      forall j: nat | j < 32
        ensures Bit(one, j) == Bit(0, j)
      {
        BitZero(j);
      }
      BitsDetermine(one, 0);
    }
  }

  lemma {:induction false} OneBitBits(n: nat, j: nat)
    requires n < 31 && j < 32
    ensures Bit(OneBit(n), j) <==> j == n
    decreases n
  {
    hide Half, Odd, OneBit;
    if n == 0 {
      FirstBit();
      if j > 0 {
        BitZero(j - 1);
      }
    } else {
      OneBitHalf(n);
      if j > 0 {
        OneBitBits(n - 1, j - 1);
      }
    }
  }

  lemma FirstBit()
    ensures Odd(OneBit(0)) && Half(OneBit(0)) == 0
  {
  }

  lemma OneBitHalf(n: nat)
    requires 0 < n < 31
    ensures Half(OneBit(n)) == OneBit(n - 1) && !Odd(OneBit(n))
  {
    hide *;
    if n <= 10 {
      OneBitHalves1();
      assert n == 1 || n == 2 || n == 3 || n == 4 || n == 5 || n == 6 || n == 7 || n == 8 || n == 9 || n == 10;
    } else if n <= 20 {
      OneBitHalves11();
      assert n == 11 || n == 12 || n == 13 || n == 14 || n == 15 || n == 16 || n == 17 || n == 18 || n == 19 || n == 20;
    } else {
      OneBitHalves21();
      assert n == 21 || n == 22 || n == 23 || n == 24 || n == 25 || n == 26 || n == 27 || n == 28 || n == 29 || n == 30;
    }
  }

  lemma OneBitHalves1()
    ensures Half(OneBit(1)) == OneBit(0) && !Odd(OneBit(1))
    ensures Half(OneBit(2)) == OneBit(1) && !Odd(OneBit(2))
    ensures Half(OneBit(3)) == OneBit(2) && !Odd(OneBit(3))
    ensures Half(OneBit(4)) == OneBit(3) && !Odd(OneBit(4))
    ensures Half(OneBit(5)) == OneBit(4) && !Odd(OneBit(5))
    ensures Half(OneBit(6)) == OneBit(5) && !Odd(OneBit(6))
    ensures Half(OneBit(7)) == OneBit(6) && !Odd(OneBit(7))
    ensures Half(OneBit(8)) == OneBit(7) && !Odd(OneBit(8))
    ensures Half(OneBit(9)) == OneBit(8) && !Odd(OneBit(9))
    ensures Half(OneBit(10)) == OneBit(9) && !Odd(OneBit(10))
  {
  }

  lemma OneBitHalves11()
    ensures Half(OneBit(11)) == OneBit(10) && !Odd(OneBit(11))
    ensures Half(OneBit(12)) == OneBit(11) && !Odd(OneBit(12))
    ensures Half(OneBit(13)) == OneBit(12) && !Odd(OneBit(13))
    ensures Half(OneBit(14)) == OneBit(13) && !Odd(OneBit(14))
    ensures Half(OneBit(15)) == OneBit(14) && !Odd(OneBit(15))
    ensures Half(OneBit(16)) == OneBit(15) && !Odd(OneBit(16))
    ensures Half(OneBit(17)) == OneBit(16) && !Odd(OneBit(17))
    ensures Half(OneBit(18)) == OneBit(17) && !Odd(OneBit(18))
    ensures Half(OneBit(19)) == OneBit(18) && !Odd(OneBit(19))
    ensures Half(OneBit(20)) == OneBit(19) && !Odd(OneBit(20))
  {
  }

  lemma OneBitHalves21()
    ensures Half(OneBit(21)) == OneBit(20) && !Odd(OneBit(21))
    ensures Half(OneBit(22)) == OneBit(21) && !Odd(OneBit(22))
    ensures Half(OneBit(23)) == OneBit(22) && !Odd(OneBit(23))
    ensures Half(OneBit(24)) == OneBit(23) && !Odd(OneBit(24))
    ensures Half(OneBit(25)) == OneBit(24) && !Odd(OneBit(25))
    ensures Half(OneBit(26)) == OneBit(25) && !Odd(OneBit(26))
    ensures Half(OneBit(27)) == OneBit(26) && !Odd(OneBit(27))
    ensures Half(OneBit(28)) == OneBit(27) && !Odd(OneBit(28))
    ensures Half(OneBit(29)) == OneBit(28) && !Odd(OneBit(29))
    ensures Half(OneBit(30)) == OneBit(29) && !Odd(OneBit(30))
  {
  }

  /** A weapon's special attribute is tested on the low word of its mask. */
  lemma HasAttributeIsBit(mask: bv64, n: int)
    requires 0 <= n < 31
    ensures HasAttribute(mask, n) <==> Bit((mask & 0xFFFF_FFFF) as Word, n)
  {
    hide Bit, OneBit;
    HasBitIsBit((mask & 0xFFFF_FFFF) as Word, n);
    LowWord(mask, OneBit(n));
  }

  lemma LowWord(mask: bv64, one: Word)
    ensures And64(mask, one as bv64) != 0 <==> And((mask & 0xFFFF_FFFF) as Word, one) != 0
  {
  }

  // ---------------------------------------------------------------- percents

  /** A byte as a signed number. */
  lemma SignedByte(x: Byte)
    ensures S8(x) == if x as int < 128 then x as int else x as int - 256
  {
    AtMostByte(0x80, x);
  }

  /** A slot of type byte kind and value byte x: empty, a hit slot (type 5) or another one. */
  predicate SlotBytesOk(p: Rules, kind: Byte, x: Byte, exempt: bool, ver: Word)
    requires p.Valid()
  {
    var v := if x as int < 128 then x as int else x as int - 256;
    if kind == 0 then exempt || v % 5 == 0 else Fits(v, exempt, p.Slots(kind == 5, exempt, ver))
  }

  /** The percent check, from bytes 6 to 11: three pairs of type and value; on the GameCube and
      Xbox the last pair of codes 0x3200 and 0x3300 is a kill count instead. */
  lemma PercentsByBytes(p: Rules, i: IItem, ver: Word, ic: Word)
    requires p.Valid() && i.Valid()
    ensures var js := (ver == 4 || ver == 8) && (ic == 0x3200 || ic == 0x3300);
            p.Accepts(i, ver, ic) <==>
            && (js && p.s.checkJSword ==> i.b[10] as int >= if ic == 0x3200 then 0xD6 else 0x80)
            && SlotBytesOk(p, i.b[6], i.b[7], false, ver)
            && SlotBytesOk(p, i.b[8], i.b[9], false, ver)
            && SlotBytesOk(p, i.b[10], i.b[11], js, ver)
  {
    hide S8, Fits, Rules.Slots, Rules.Accepts, SlotOk;
    AcceptsIs(p, i, ver, ic);
    SlotIsBytes(p, i.b[6], i.b[7], false, ver);
    SlotIsBytes(p, i.b[8], i.b[9], false, ver);
    SlotIsBytes(p, i.b[10], i.b[11], IsJSword(ver, ic), ver);
    AtMostByte(0xD6, i.b[10]);
    AtMostByte(0x80, i.b[10]);
    hide SlotBytesOk;
  }

  lemma SlotIsBytes(p: Rules, kind: Byte, x: Byte, exempt: bool, ver: Word)
    requires p.Valid()
    ensures SlotOk(p, Slot(kind, S8(x)), exempt, ver) == SlotBytesOk(p, kind, x, exempt, ver)
  {
    hide S8, Fits, Rules.Slots;
    SignedByte(x);
  }

  /** Where the four upper and the four lower limits of a weapon in a version come from. */
  lemma SourcesByVersion(s: Settings, w: Entry, ver: Word)
    requires w.Weapon?
    ensures var d := if ver == 1 then s.v1 else if ver == 2 then s.v2 else if ver == 4 then s.gc
                     else if ver == 8 then s.xbox else Defaults(-0x8000_0000, 0x7FFF_FFFF, -0x8000_0000, 0x7FFF_FFFF);
            var up := (x: int) => if x == 0x7FFF_FFFF then None else Some(x);
            var low := (x: int) => if x == -0x8000_0000 then None else Some(x);
            && UpperSources(s, Listed(w), ver)
               == Sources(up(w.maxHit), up(w.maxPercents), up(d.maxHit), up(d.maxPercent))
            && UpperSources(s, Unlisted, ver) == Sources(None, None, up(d.maxHit), up(d.maxPercent))
            && LowerSources(s, Listed(w), ver)
               == Sources(low(w.minHit), low(w.minPercents), low(d.minHit), low(d.minPercent))
            && LowerSources(s, Unlisted, ver) == Sources(None, None, low(d.minHit), low(d.minPercent))
  {
  }

  // ---------------------------------------------------------------- weapons

  /** A number within a minimum and a maximum, each unset when it is -1. */
  predicate Bounded(v: int, min: int, max: int) {
    !(max != -1 && v > max) && !(min != -1 && v < min)
  }

  /** The record tests of a weapon: grind in byte 3 unless byte 4 marks a special weapon, and the
      attribute in the low six bits of byte 4. */
  lemma WeaponByBytes(s: Settings, e: Entry, i: IItem, version: Word, ic: Word)
    requires e.Weapon? && i.Valid() && (ReachesAttribute(s, e, i, version, ic) ==> ShiftDefined(i))
    ensures WeaponLegit(s, e, i, version, ic) <==>
            && !e.base.autoReject && (i.b[4] == 0x80 || Bounded(i.b[3] as int, e.minGrind, e.maxGrind))
            && (IsNamedSrank(i, ic) || PercentsLegit(s, i, Listed(e), version, ic))
            && i.b[4] as int % 64 < 31 && Bit((e.validAttrs & 0xFFFF_FFFF) as Word, i.b[4] as int % 64)
  {
    hide PercentsLegit, IsNamedSrank, Bit, HasAttribute, Attribute;
    AttributeIs(i);
    if i.b[4] as int % 64 < 31 {
      HasAttributeIsBit(e.validAttrs, i.b[4] as int % 64);
    }
  }

  lemma AttributeIs(i: IItem)
    requires i.Valid()
    ensures Attribute(i) == i.b[4] as int % 64
  {
    Mod64(i.b[4]);
  }

  /** What a weapon must pass before the list is searched: the wrapping paper in byte 5 where bit 6
      of byte 4 says wrapped, an S-rank name, and distinct attribute types. */
  lemma BeforeListByBytes(s: Settings, i: IItem, version: Word, ic: Word)
    requires i.Valid()
    ensures ReachesList(s, i, version, ic) <==>
            && (version >= 4 && s.checkWrap != 0 && i.b[4] as int / 64 % 2 == 1 ==>
                  i.b[5] as int <= 10 && !(s.checkWrap >= 2 && i.b[5] == 5))
            && (IsSrank(ic) && s.checkSrankNames ==> i.b[6] as int >= 12 && NameLegit(i))
            && ((IsSrank(ic) && i.b[6] as int >= 12)
                || ((i.b[6] != 0 ==> i.b[6] != i.b[8] && i.b[6] != i.b[10]) && (i.b[8] != 0 ==> i.b[8] != i.b[10])))
  {
    hide IsSrank, NameLegit, SlotsDistinct;
    Flag64(i.b[4]);
    AtMostByte(i.b[5], 0x0A);
    AtMostByte(0x0C, i.b[6]);
    DistinctPairs(i);
  }

  lemma DistinctPairs(i: IItem)
    requires i.Valid()
    ensures SlotsDistinct(i) <==>
            (i.b[6] != 0 ==> i.b[6] != i.b[8] && i.b[6] != i.b[10]) && (i.b[8] != 0 ==> i.b[8] != i.b[10])
  {
  }

  /** S-rank codes: those from 0x7000 to 0x8800 and from 0xA500 to 0xA900 in the two low bytes. */
  lemma SrankByBytes(b0: Byte, b1: Byte, b2: Byte)
    ensures IsSrank(FromBytes(b0, b1, b2, 0)) <==>
            || (0x70 <= b1 < 0x88) || (b1 == 0x88 && b0 == 0)
            || (0xA5 <= b1 < 0xA9) || (b1 == 0xA9 && b0 == 0)
  {
    hide FromBytes;
    LowHalf(b0, b1, b2);
    SrankRange(b0, b1);
  }

  lemma LowHalf(b0: Byte, b1: Byte, b2: Byte)
    ensures FromBytes(b0, b1, b2, 0) & 0xFFFF == FromBytes(b0, b1, 0, 0)
  {
  }

  lemma SrankRange(b0: Byte, b1: Byte)
    ensures var w := FromBytes(b0, b1, 0, 0);
            0x7000 <= w <= 0x8800 || 0xA500 <= w <= 0xA900
            <==> (0x70 <= b1 < 0x88) || (b1 == 0x88 && b0 == 0) || (0xA5 <= b1 < 0xA9) || (b1 == 0xA9 && b0 == 0)
  {
  }

  /** The eight letters of an S-rank name, five bits each: two in bytes 6 and 7, three in bytes 8 and 9
      and three in bytes 10 and 11, each pair read from the top. */
  lemma NameByBytes(i: IItem)
    requires i.Valid()
    ensures NameLegit(i) <==>
            && i.b[6] as int % 4 * 8 + i.b[7] as int / 32 <= 26 && i.b[7] as int % 32 <= 26
            && i.b[8] as int / 4 % 32 <= 26 && i.b[8] as int % 4 * 8 + i.b[9] as int / 32 <= 26
            && i.b[9] as int % 32 <= 26
            && i.b[10] as int / 4 % 32 <= 26 && i.b[10] as int % 4 * 8 + i.b[11] as int / 32 <= 26
            && i.b[11] as int % 32 <= 26
  {
    hide Letter, IsLetter;
    PairLetters(i.b[6], i.b[7]);
    PairLetters(i.b[8], i.b[9]);
    PairLetters(i.b[10], i.b[11]);
  }

  lemma PairLetters(high: Byte, low: Byte)
    ensures IsLetter(Letter(high, low, 0)) <==> high as int / 4 % 32 <= 26
    ensures IsLetter(Letter(high, low, 1)) <==> high as int % 4 * 8 + low as int / 32 <= 26
    ensures IsLetter(Letter(high, low, 2)) <==> low as int % 32 <= 26
  {
    hide Letter, IsLetter;
    LettersAre(high, low);
    FirstLetter(high);
    MiddleLetter(high, low);
    LastLetter(low);
  }

  lemma FirstLetter(high: Byte)
    ensures (high >> 2) & 0x1F <= 26 <==> high as int / 4 % 32 <= 26
  {
    Over4(high);
    LastLetter(high >> 2);
  }

  lemma LastLetter(low: Byte)
    ensures low & 0x1F <= 26 <==> low as int % 32 <= 26
  {
    Mod32(low);
    AtMostByte(low & 0x1F, 26);
  }

  lemma MiddleLetter(high: Byte, low: Byte)
    ensures ((high & 0x03) << 3) | ((low & 0xE0) >> 5) <= 26 <==> high as int % 4 * 8 + low as int / 32 <= 26
  {
    Mod4(high);
    Over32(low);
    TopThree(low);
    Placed(high & 0x03, low >> 5);
    AtMostByte(((high & 0x03) << 3) | (low >> 5), 26);
  }

  lemma TopThree(low: Byte)
    ensures (low & 0xE0) >> 5 == low >> 5 && low >> 5 < 8
  {
  }

  lemma Placed(a: Byte, b: Byte)
    requires a < 4 && b < 8
    ensures ((a << 3) | b) as int == 8 * (a as int) + b as int
  {
  }

  // ---------------------------------------------------------------- guards and tools

  /** The paper around a guard, in the low half of byte 4, is acceptable. */
  predicate Papered(s: Settings, i: IItem, version: Word)
    requires i.Valid()
  {
    var paper := i.b[4] as int % 16;
    version >= 4 && s.checkWrap != 0 && i.b[4] as int / 64 % 2 == 1 ==>
      paper <= 10 && !(s.checkWrap >= 2 && paper == 5)
  }

  /** The record tests of frames: slots in byte 5, defence in bytes 6 and 7, evasion in bytes 8 and 9. */
  lemma FrameByBytes(s: Settings, e: Entry, i: IItem, version: Word)
    requires i.Valid() && e.Frame?
    ensures var dfp, evp := Pair(i.b[6], i.b[7]), Pair(i.b[8], i.b[9]);
            GuardLegit(s, e, i, version) <==>
            && Bounded(i.b[5] as int, e.minSlots, e.maxSlots) && Bounded(dfp, e.minDfp, e.maxDfp)
            && Bounded(evp, e.minEvp, e.maxEvp) && !(e.base.rejectMax && dfp == e.maxDfp && evp == e.maxEvp)
            && Papered(s, i, version)
  {
    hide GuardWrapLegit, Papered, S16, Pair, InRange, Bounded;
    PaperByBytes(s, i, version);
    BoundedIs(i.b[5] as int, e.minSlots, e.maxSlots);
    BoundedIs(Pair(i.b[6], i.b[7]), e.minDfp, e.maxDfp);
    BoundedIs(Pair(i.b[8], i.b[9]), e.minEvp, e.maxEvp);
  }

  /** A pair of bytes, low byte first. */
  lemma PairIs(low: Byte, high: Byte)
    ensures Pair(low, high) == low as int + 256 * (high as int)
  {
  }

  lemma BoundedIs(v: int, min: int, max: int)
    ensures InRange(v, min, max) <==> Bounded(v, min, max)
  {
  }

  lemma BarrierByBytes(s: Settings, e: Entry, i: IItem, version: Word)
    requires i.Valid() && e.Barrier?
    ensures var dfp, evp := Pair(i.b[6], i.b[7]), Pair(i.b[8], i.b[9]);
            GuardLegit(s, e, i, version) <==>
            && Bounded(dfp, e.minDfp, e.maxDfp) && Bounded(evp, e.minEvp, e.maxEvp)
            && !(e.base.rejectMax && dfp == e.maxDfp && evp == e.maxEvp) && Papered(s, i, version)
  {
    hide GuardWrapLegit, Papered, S16, Pair, InRange, Bounded;
    PaperByBytes(s, i, version);
    BoundedIs(Pair(i.b[6], i.b[7]), e.minDfp, e.maxDfp);
    BoundedIs(Pair(i.b[8], i.b[9]), e.minEvp, e.maxEvp);
  }

  /** A unit's plus is the signed number in bytes 6 and 7. */
  lemma UnitByBytes(s: Settings, e: Entry, i: IItem, version: Word)
    requires i.Valid() && e.Unit?
    ensures var n := i.b[6] as int + 256 * (i.b[7] as int);
            var plus := if n < 32768 then n else n - 65536;
            GuardLegit(s, e, i, version) <==>
            (e.maxPlus != -0x8000_0000 ==> plus <= e.maxPlus) && (e.minPlus != -0x8000_0000 ==> plus >= e.minPlus)
  {
    hide GuardWrapLegit;
  }

  lemma PaperByBytes(s: Settings, i: IItem, version: Word)
    requires i.Valid()
    ensures GuardWrapLegit(s, i, version) <==> Papered(s, i, version)
  {
    Flag64(i.b[4]);
    PaperIs(i.b[4]);
  }

  lemma PaperIs(x: Byte)
    ensures x & 0x0F <= 0x0A <==> x as int % 16 <= 10
    ensures x & 0x0F == 0x05 <==> x as int % 16 == 5
  {
    Mod16(x);
    AtMostByte(x & 0x0F, 0x0A);
    AtMostByte(x & 0x0F, 0x05);
    AtMostByte(0x05, x & 0x0F);
  }

  lemma ToolByBytes(e: Entry, i: IItem)
    requires e.Tool? && i.Valid()
    ensures ToolLegit(e, i) <==> Bounded(i.b[5] as int, e.minStack, e.maxStack)
  {
  }

  // ---------------------------------------------------------------- mags against a record

  /** Blasts no client could have made, if the settings ask for that. */
  lemma BlastsByNumbers(s: Settings, m: MagReading)
    ensures BlastsPossible(s, m) <==>
            (s.checkPbs ==> m.cpb < 6 && m.rpb < 6 && (m.hasCpb && m.hasRpb ==> m.cpb != m.rpb))
  {
  }

  /** The record tests of a mag: seven bounds, a bit for each blast present, a bit for the colour. */
  lemma MagByBits(e: Entry, m: MagReading)
    requires e.Mag? && Readable(m) && (ReachesColor(e, m) ==> m.color < 31)
    ensures MagLegit(e, m) <==>
            && !e.base.autoReject && StatsBounded(e.stats, m)
            && (m.hasCpb ==> Bit(Widen(e.allowedCpb), m.cpb)) && (m.hasRpb ==> Bit(Widen(e.allowedRpb), m.rpb))
            && (m.hasLpb ==> Bit(Widen(e.allowedLpb), LeftBlast(m.cpb, m.rpb, m.lpb)))
            && m.color < 31 && Bit(e.allowedColors, m.color)
  {
    hide Bit, HasBit, LeftBlast, Widen, StatsLegit, StatsBounded;
    StatsAreBounded(e.stats, m);
    LeftBlastSmall(m.cpb, m.rpb, m.lpb);
    HasBitIsBit(Widen(e.allowedCpb), m.cpb);
    HasBitIsBit(Widen(e.allowedRpb), m.rpb);
    HasBitIsBit(Widen(e.allowedLpb), LeftBlast(m.cpb, m.rpb, m.lpb));
    if m.color < 31 {
      HasBitIsBit(e.allowedColors, m.color);
    }
  }

  predicate StatsBounded(q: MagLimits, m: MagReading) {
    && Bounded(m.def, q.minDef, q.maxDef) && Bounded(m.pow, q.minPow, q.maxPow)
    && Bounded(m.dex, q.minDex, q.maxDex) && Bounded(m.mind, q.minMind, q.maxMind)
    && Bounded(m.def + m.pow + m.dex + m.mind, q.minLevel, q.maxLevel)
    && Bounded(m.iq, q.minIq, q.maxIq) && Bounded(m.synchro, q.minSynchro, q.maxSynchro)
  }

  lemma StatsAreBounded(q: MagLimits, m: MagReading)
    ensures StatsLegit(q, m) <==> StatsBounded(q, m)
  {
  }

  // ---------------------------------------------------------------- matching and dispatch

  /** A record matches when the codes agree and every version bit asked for is covered. */
  lemma MatchesByBits(e: Entry, ic: Word, version: Word)
    ensures Matches(e, ic, version) <==> e.base.code == ic && EveryBitIn(version, e.base.versions)
  {
    hide And, Covers, EveryBitIn;
    CoversIs(e.base.versions, version);
    SubsetBits(e.base.versions, version);
  }

  ghost predicate EveryBitIn(a: Word, b: Word) {
    forall j: nat :: j < 32 && Bit(a, j) ==> Bit(b, j)
  }

  lemma SubsetBits(v: Word, version: Word)
    ensures And(v, version) == version <==> EveryBitIn(version, v)
  {
    hide Bit, And;
    if EveryBitIn(version, v) {
      forall j: nat | j < 32
        ensures Bit(And(v, version), j) == Bit(version, j)
      {
        BitAnd(v, version, j);
      }
      BitsDetermine(And(v, version), version);
    } else {
      var j: nat :| j < 32 && Bit(version, j) && !Bit(v, j);
      BitAnd(v, version, j);
    }
  }

  lemma CoversIs(versions: Word, version: Word)
    ensures Covers(versions, version) <==> And(versions, version) == version
  {
  }

  /** Mags of versions other than the four, and meseta, always pass; types past meseta never do. */
  lemma OtherVerdicts(list: seq<Entry>, s: Settings, i: IItem, version: Word)
    requires i.Valid() && Defined(list, s, i, version)
    ensures i.b[0] == 2 && version !in {1, 2, 4, 8} ==> Verdict(list, s, i, version) == 1
    ensures i.b[0] == 4 ==> Verdict(list, s, i, version) == 1
    ensures i.b[0] > 4 ==> Verdict(list, s, i, version) == 0
  {
    hide WeaponVerdict, GuardVerdict, MagVerdict, ToolVerdict, ItemCode, WeaponDefined, MagDefined;
  }

  /** An item that no record matches: the default, unless a weapon or mag fails on its own. */
  lemma UnlistedVerdict(list: seq<Entry>, s: Settings, i: IItem, version: Word)
    requires i.Valid() && i.b[0] < 4 && (i.b[0] == 2 ==> version in {1, 2, 4, 8})
    requires forall e :: e in list ==> !Matches(e, NormalCode(i, version), version)
    ensures Defined(list, s, i, version)
    ensures var ic := NormalCode(i, version);
            var alone := && (i.b[0] == 0 ==> ReachesList(s, i, version, ic)
                                             && (IsNamedSrank(i, ic) || PercentsLegit(s, i, Unlisted, version, ic)))
                         && (i.b[0] == 2 ==> BlastsPossible(s, ReadMag(i, version)));
            Verdict(list, s, i, version) == if alone then s.defaultBehavior else 0
  {
    FindNone(list, NormalCode(i, version), version);
    hide Find, Matches, ReachesList, IsNamedSrank, PercentsLegit, BlastsPossible, ReadMag, WeaponCode, GuardCode,
         MagCode, ToolCode, ItemCode, ReachesAttribute, ReachesColor;
  }

  /** An item whose first match is e: the record tests, and for a weapon or mag its own first. */
  lemma ListedVerdict(e: Entry, s: Settings, i: IItem, version: Word)
    requires i.Valid() && i.b[0] < 4 && (i.b[0] == 2 ==> version in {1, 2, 4, 8})
    requires Matches(e, NormalCode(i, version), version) && Defined([e], s, i, version)
    requires (i.b[0] == 0 ==> e.Weapon?) && (i.b[0] == 2 ==> e.Mag?) && (i.b[0] == 3 ==> e.Tool?)
    ensures var ic := NormalCode(i, version);
            var accepted :=
              && !e.base.autoReject
              && (i.b[0] == 0 ==> ReachesList(s, i, version, ic) && WeaponLegit(s, e, i, version, ic))
              && (i.b[0] == 1 ==> GuardLegit(s, e, i, version))
              && (i.b[0] == 2 ==> BlastsPossible(s, ReadMag(i, version)) && MagLegit(e, ReadMag(i, version)))
              && (i.b[0] == 3 ==> ToolLegit(e, i));
            Verdict([e], s, i, version) == if accepted then 1 else 0
  {
    FindHere([e], 0, NormalCode(i, version), version);
    hide Find, Matches, ReachesList, IsNamedSrank, PercentsLegit, BlastsPossible, ReadMag, WeaponCode, GuardCode,
         MagCode, ToolCode, ItemCode, GuardLegit, ToolLegit, HasAttribute, HasBit, StatsLegit, BlastsAllowed;
  }
}
