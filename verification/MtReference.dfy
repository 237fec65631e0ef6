/** The MT19937 recurrences written out, bit by bit and word by word. */
module MtReference {
  import opened Words
  import opened Lagged
  import opened Mt19937

  // ---------------------------------------------------------------- the twist

  /** Bit i of x[k+624] is bit i of x[k+397], xored with bit i + 1 of the top bit of x[k] over
      the low bits of x[k+1], and with bit i of the matrix row where x[k+1] is odd. */
  lemma TwistedBit(w: seq<Word>, k: nat, i: nat)
    requires |w| == 624 && i < 32
    ensures var x := (j: nat) => Stream(Next, w, j);
            var spliced := if i == 31 then false else if i == 30 then Bit(x(k), 31) else Bit(x(k + 1), i + 1);
            Bit(x(k + 624), i)
            == (Bit(x(k + 397), i) != (spliced != (Bit(x(k + 1), 0) && Bit(0x9908_B0DF, i))))
  {
    hide Bit, Stream, Twist, Next, Splice, Half, Mag01;
    var m, u, v := Stream(Next, w, k + 397), Stream(Next, w, k), Stream(Next, w, k + 1);
    var y := Splice(u, v);
    TwistedRecurrence(w, k);
    TwistBit(m, y, i);
    if i < 31 {
      SpliceBit(u, v, i + 1);
    } else {
      BitHigh(y, 32);
    }
    SpliceBit(u, v, 0);
  }

  lemma TwistBit(m: Word, y: Word, i: nat)
    requires i < 32
    ensures Bit(Twist(m, y), i) == (Bit(m, i) != (Bit(y, i + 1) != (Bit(y, 0) && Bit(0x9908_B0DF, i))))
  {
    hide Xor, Half, Odd;
    BitXor(Xor(m, Half(y)), Mag01(y), i);
    BitXor(m, Half(y), i);
    assert Bit(Half(y), i) == Bit(y, i + 1);
    RowBit(y, i);
  }

  lemma RowBit(y: Word, i: nat)
    ensures Bit(Mag01(y), i) == (Bit(y, 0) && Bit(0x9908_B0DF, i))
  {
    LowBit(y);
    BitZero(i);
    hide Half, Odd;
  }

  lemma LowBit(y: Word)
    ensures Bit(y, 0) <==> y & 1 != 0
  {
  }

  lemma SpliceBit(u: Word, v: Word, i: nat)
    requires i < 32
    ensures Bit(Splice(u, v), i) == if i == 31 then Bit(u, 31) else Bit(v, i)
  {
    hide Bit, Xor, And, Splice;
    SpliceIsXor(u, v);
    BitXor(And(u, 0x8000_0000), And(v, 0x7FFF_FFFF), i);
    BitAnd(u, 0x8000_0000, i);
    BitAnd(v, 0x7FFF_FFFF, i);
    BitTop(i);
    LowOnes(i);
    TopOfLow31();
  }

  lemma SpliceIsXor(u: Word, v: Word)
    ensures Splice(u, v) == Xor(And(u, 0x8000_0000), And(v, 0x7FFF_FFFF))
  {
    SplicedApart(u, v);
  }

  lemma SplicedApart(u: Word, v: Word)
    ensures (u & 0x8000_0000) | (v & 0x7FFF_FFFF) == (u & 0x8000_0000) ^ (v & 0x7FFF_FFFF)
  {
  }

  // ---------------------------------------------------------------- seeding

  /** The array a seed leaves: each word is its index plus a multiple of the word before, whose
      two top bits are first folded onto its two low bits. */
  lemma SeededRecurrence(s: Word, i: nat)
    requires 1 <= i < 624
    ensures Seeded(s)[0] == s && Seeded(s)[i] == Plus(Scale(Fold30(Seeded(s)[i - 1])), i as Word)
  {
    hide Scale, Fold30, Plus;
  }

  lemma FoldBit(w: Word, i: nat)
    ensures Bit(Fold30(w), i) == (Bit(w, i) != Bit(w, i + 30))
  {
    hide Bit, Xor, HalfN, Shr30, Down30;
    BitXor(w, Down30(w), i);
    DownIs(w);
    HalfN30(w);
    BitHalfN(w, 30, i);
  }

  lemma DownIs(w: Word)
    ensures Down30(w) == Shr30(w)
  {
  }

  /** Each of the three multiplications is the additive map with this value at one. */
  lemma ScaleIsAdditive(a: Word, b: Word)
    ensures Scale(1) == 1812433253 && Scale(Plus(a, b)) == Plus(Scale(a), Scale(b))
  {
    hide Scale, Plus;
    ScaleOne();
    PlusIs(a, b);
    ScaleIs(a);
    ScaleIs(b);
    ScaleOfSum(a, b);
    PlusIs(1812433253 * a, 1812433253 * b);
  }

  lemma ScaleOne()
    ensures Scale(1) == 1812433253
  {
  }

  lemma ScaleIs(w: Word)
    ensures Scale(w) == 1812433253 * w
  {
  }

  lemma ScaleOfSum(a: Word, b: Word)
    ensures Scale(a + b) == 1812433253 * a + 1812433253 * b
  {
  }

  lemma ScaleKeyIsAdditive(a: Word, b: Word)
    ensures ScaleKey(1) == 1664525 && ScaleKey(Plus(a, b)) == Plus(ScaleKey(a), ScaleKey(b))
  {
    hide ScaleKey, Plus;
    ScaleKeyOne();
    PlusIs(a, b);
    ScaleKeyIs(a);
    ScaleKeyIs(b);
    ScaleKeyOfSum(a, b);
    PlusIs(1664525 * a, 1664525 * b);
  }

  lemma ScaleKeyOne()
    ensures ScaleKey(1) == 1664525
  {
  }

  lemma ScaleKeyIs(w: Word)
    ensures ScaleKey(w) == 1664525 * w
  {
  }

  lemma ScaleKeyOfSum(a: Word, b: Word)
    ensures ScaleKey(a + b) == 1664525 * a + 1664525 * b
  {
  }

  lemma ScaleIndexIsAdditive(a: Word, b: Word)
    ensures ScaleIndex(1) == 1566083941 && ScaleIndex(Plus(a, b)) == Plus(ScaleIndex(a), ScaleIndex(b))
  {
    hide ScaleIndex, Plus;
    ScaleIndexOne();
    PlusIs(a, b);
    ScaleIndexIs(a);
    ScaleIndexIs(b);
    ScaleIndexOfSum(a, b);
    PlusIs(1566083941 * a, 1566083941 * b);
  }

  lemma ScaleIndexOne()
    ensures ScaleIndex(1) == 1566083941
  {
  }

  lemma ScaleIndexIs(w: Word)
    ensures ScaleIndex(w) == 1566083941 * w
  {
  }

  lemma ScaleIndexOfSum(a: Word, b: Word)
    ensures ScaleIndex(a + b) == 1566083941 * a + 1566083941 * b
  {
  }

  /** Seeding by array: with x the value 623 places back and p the value one place back, the
      first max(624, len) values mix in a key word and its index, the others the slot index. */
  lemma ScrambledRecurrence(key: seq<Word>, t: nat)
    requires 1 <= |key| < 0x8000_0000
    ensures var x, p := Scrambled(key, t + 1), Previous(key, t);
            && (t < 624 || t < |key| ==>
                  Scrambled(key, 624 + t)
                  == Plus(Plus(Xor(x, ScaleKey(Fold30(p))), key[t % |key|]), (t % |key|) as Word))
            && (t >= 624 && t >= |key| ==>
                  Scrambled(key, 624 + t) == Minus(Xor(x, ScaleIndex(Fold30(p))), (t % 623 + 1) as Word))
  {
    hide Scrambled, ScaleKey, ScaleIndex, Fold30, Previous, Plus, Minus, Xor;
    ScrambledStep(key, t);
  }

  /** The first 624 values are the array of the fixed seed. */
  lemma ScrambledStart(key: seq<Word>, n: nat)
    requires |key| >= 1 && n < 624
    ensures Scrambled(key, n) == Seeded(19650218)[n]
  {
    hide SeedStep;
  }
}
