/** The CRC-32 register is the remainder of polynomial division over GF(2). */
module Crc32Remainder {
  import opened Words
  import opened Crc32

  /** A polynomial over GF(2), as the set of exponents with coefficient one. */
  type Poly = iset<nat>

  ghost function Add(p: Poly, q: Poly): Poly {
    iset e: nat | (e in p) != (e in q)
  }

  /** p * x^k */
  ghost function Raise(p: Poly, k: nat): Poly {
    iset e: nat | IsRaised(p, k, e)
  }

  ghost predicate IsRaised(p: Poly, k: nat, e: nat) {
    e >= k && Has(p, e - k)
  }

  ghost predicate Has(p: Poly, e: int) {
    e >= 0 && e in p
  }

  ghost function Monomial(c: bool, k: nat): Poly {
    iset e: nat | IsTerm(c, k, e)
  }

  ghost predicate IsTerm(c: bool, k: nat, e: nat) {
    c && e == k
  }

  /** The generator x^32 + x^26 + ... + 1: the reflected constant plus x^32. */
  ghost function Generator(): Poly {
    Add(PolyOf(0xEDB8_8320), Monomial(true, 32))
  }

  /** The register in reflected order: bit 0 is the coefficient of x^31. */
  ghost function PolyOf(r: Word): Poly {
    iset e: nat | RegisterTerm(r, e)
  }

  predicate RegisterTerm(r: Word, e: nat) {
    e < 32 && Bit(r, 31 - e)
  }

  /** The message: the first bit sent has the highest degree. */
  ghost function MessagePoly(bits: seq<bool>): Poly {
    iset e: nat | MessageTerm(bits, e)
  }

  predicate MessageTerm(bits: seq<bool>, e: nat) {
    e < |bits| && bits[|bits| - 1 - e]
  }

  /** What is divided: the message times x^32, plus the all-ones preset times x^|bits|. */
  ghost function Dividend(bits: seq<bool>): Poly {
    Add(Raise(MessagePoly(bits), 32), Raise(PolyOf(0xFFFF_FFFF), |bits|))
  }

  /** q * g, the quotient's first coefficient having the highest degree. */
  ghost function Times(q: seq<bool>, g: Poly): Poly {
    if q == [] then iset{} else
      var n := |q| - 1;
      Add(Raise(Times(q[..n], g), 1), if q[n] then g else iset{})
  }

  ghost predicate DegreeBelow(p: Poly, n: nat) {
    forall e: nat :: e in p ==> e < n
  }

  // ---------------------------------------------------------------- one register step

  lemma BitOfPoly(r: Word, e: nat)
    ensures e in PolyOf(r) <==> e < 32 && Bit(r, 31 - e)
  {
  }

  lemma BitOfHalf(r: Word, i: nat)
    ensures Bit(Half(r), i) == Bit(r, i + 1)
    ensures Bit(r, 0) == Odd(r)
  {
    hide Half, Odd;
  }

  /** Exponent e of the stepped register comes from exponent e - 1, corrected by the
      generator when x^32 appeared. */
  lemma StepPoly(r: Word, e: nat)
    ensures (e in PolyOf(Step(r))) ==
            ((Has(PolyOf(r), e - 1)) != (Odd(r) && e in Generator()))
  {
    var g: Word := 0xEDB8_8320;
    hide Half, Odd, Xor, Bit;
    BitOfPoly(Step(r), e);
    if e < 32 {
      var i := 31 - e;
      BitXor(Half(r), g, i);
      BitOfHalf(r, i);
      if e == 0 {
        BitHigh(r, 32);
      }
    } else if e == 32 {
      BitOfHalf(r, 0);
    }
  }

  /** The message bit enters at x^31 of the register. */
  lemma EnterPoly(r: Word, b: bool, e: nat)
    ensures (e in PolyOf(Xor(r, BitWord(b)))) == ((e in PolyOf(r)) != (b && e == 31))
  {
    hide Xor, Bit, BitWord;
    if e < 32 {
      BitXor(r, BitWord(b), 31 - e);
      BitOfOne(b, 31 - e);
    }
  }

  lemma BitOfOne(b: bool, i: nat)
    ensures Bit(BitWord(b), i) == (b && i == 0)
  {
    if i > 0 {
      assert Half(BitWord(b)) == 0;
      BitZero(i - 1);
    }
  }

  /** Shifting in one bit multiplies by x, adds the bit at x^32 and subtracts the generator
      if x^32 came out. */
  lemma ShiftPoly(r: Word, b: bool)
    ensures var c := Odd(Xor(r, BitWord(b)));
            Add(PolyOf(Shift(r, b)), if c then Generator() else iset{})
            == Add(Raise(PolyOf(r), 1), Monomial(b, 32))
  {
    var s := Xor(r, BitWord(b));
    hide Step, Xor, BitWord, Odd, PolyOf, Generator;
    forall e: nat
      ensures (e in Add(PolyOf(Shift(r, b)), if Odd(s) then Generator() else iset{}))
           == (e in Add(Raise(PolyOf(r), 1), Monomial(b, 32)))
    {
      StepPoly(s, e);
      if e > 0 {
        EnterPoly(r, b, e - 1);
      }
    }
  }

  // ---------------------------------------------------------------- division

  /** One more message bit multiplies the dividend by x and adds the bit at x^32. */
  lemma DividendNext(bits: seq<bool>, b: bool)
    ensures Dividend(bits + [b]) == Add(Raise(Dividend(bits), 1), Monomial(b, 32))
  {
    hide PolyOf;
    var next := bits + [b];
    forall e: nat
      ensures (e in Dividend(next)) == (e in Add(Raise(Dividend(bits), 1), Monomial(b, 32)))
    {
      MessageNext(bits, b, e as int - 32);
      assert Has(PolyOf(0xFFFF_FFFF), e - |next|) == Has(PolyOf(0xFFFF_FFFF), (e - 1) - |bits|);
    }
  }

  lemma MessageNext(bits: seq<bool>, b: bool, e: int)
    ensures Has(MessagePoly(bits + [b]), e) == (Has(MessagePoly(bits), e - 1) != (b && e == 0))
  {
  }

  /** The quotient bits the register discards. */
  ghost function Quotient(bits: seq<bool>): (q: seq<bool>)
    ensures |q| == |bits|
  {
    if bits == [] then [] else
      var n := |bits| - 1;
      Quotient(bits[..n]) + [Odd(Xor(ShiftAll(0xFFFF_FFFF, bits[..n]), BitWord(bits[n])))]
  }

  lemma AddExchange(a: Poly, b: Poly, c: Poly, d: Poly)
    ensures Add(Add(a, b), Add(c, d)) == Add(Add(a, c), Add(b, d))
  {
  }

  lemma RaiseAdd(a: Poly, b: Poly, k: nat)
    ensures Raise(Add(a, b), k) == Add(Raise(a, k), Raise(b, k))
  {
    forall e: nat
      ensures (e in Raise(Add(a, b), k)) == (e in Add(Raise(a, k), Raise(b, k)))
    {
      assert e >= k ==> Has(Add(a, b), e - k) == (Has(a, e - k) != Has(b, e - k));
    }
  }

  lemma ShiftAllSnoc(r: Word, bits: seq<bool>, b: bool)
    ensures ShiftAll(r, bits + [b]) == Shift(ShiftAll(r, bits), b)
  {
    hide Shift;
    ShiftAllSplit(r, bits, [b]);
    assert ShiftAll(ShiftAll(r, bits), [b]) == ShiftAll(Shift(ShiftAll(r, bits), b), [b][1..]);
  }

  lemma StartOfDivision()
    ensures Dividend([]) == Add(Times([], Generator()), PolyOf(ShiftAll(0xFFFF_FFFF, [])))
  {
    hide PolyOf, Generator;
  }

  /** Division with remainder: message = quotient * generator + register. */
  lemma {:induction false} RegisterIsRemainder(bits: seq<bool>)
    ensures Dividend(bits) == Add(Times(Quotient(bits), Generator()), PolyOf(ShiftAll(0xFFFF_FFFF, bits)))
    ensures DegreeBelow(PolyOf(ShiftAll(0xFFFF_FFFF, bits)), 32)
  {
    if bits == [] {
      StartOfDivision();
    } else {
      var n := |bits| - 1;
      var front, b := bits[..n], bits[n];
      assert bits == front + [b];
      RegisterIsRemainder(front);
      DivisionStep(front, b);
    }
  }

  lemma DivisionStep(front: seq<bool>, b: bool)
    requires Dividend(front) == Add(Times(Quotient(front), Generator()), PolyOf(ShiftAll(0xFFFF_FFFF, front)))
    ensures var bits := front + [b];
            Dividend(bits) == Add(Times(Quotient(bits), Generator()), PolyOf(ShiftAll(0xFFFF_FFFF, bits)))
  {
    hide *;
    var g, r, t := Generator(), ShiftAll(0xFFFF_FFFF, front), Times(Quotient(front), Generator());
    var c := Odd(Xor(r, BitWord(b)));
    var cg := if c then g else iset{};
    QuotientNext(front, b);
    TimesNext(Quotient(front), c, g);
    DividendNext(front, b);
    ShiftAllSnoc(0xFFFF_FFFF, front, b);
    ShiftPoly(r, b);
    RaiseAdd(t, PolyOf(r), 1);
    Rearrange(Raise(t, 1), Raise(PolyOf(r), 1), Monomial(b, 32), cg, PolyOf(Shift(r, b)));
  }

  lemma QuotientNext(front: seq<bool>, b: bool)
    ensures Quotient(front + [b]) == Quotient(front) + [Odd(Xor(ShiftAll(0xFFFF_FFFF, front), BitWord(b)))]
  {
    hide ShiftAll, Odd, Xor;
    assert (front + [b])[..|front|] == front;
  }

  lemma TimesNext(q: seq<bool>, c: bool, g: Poly)
    ensures Times(q + [c], g) == Add(Raise(Times(q, g), 1), if c then g else iset{})
  {
    hide Add, Raise;
    assert (q + [c])[..|q|] == q;
  }

  lemma Rearrange(t: Poly, p: Poly, m: Poly, cg: Poly, s: Poly)
    requires Add(s, cg) == Add(p, m)
    ensures Add(Add(t, p), m) == Add(Add(t, cg), s)
  {
    forall e: nat
      ensures (e in Add(Add(t, p), m)) == (e in Add(Add(t, cg), s))
    {
      assert (e in Add(s, cg)) == (e in Add(p, m));
    }
  }

  // ---------------------------------------------------------------- uniqueness

  lemma {:induction false} TimesXor(a: seq<bool>, b: seq<bool>, g: Poly)
    requires |a| == |b|
    ensures Times(Differences(a, b), g) == Add(Times(a, g), Times(b, g))
    decreases |a|
  {
    if a == [] {
    } else {
      var n := |a| - 1;
      TimesXor(a[..n], b[..n], g);
      assert Differences(a, b)[..n] == Differences(a[..n], b[..n]);
      var x, y := Times(a[..n], g), Times(b[..n], g);
      RaiseAdd(x, y, 1);
      var ag, bg := if a[n] then g else iset{}, if b[n] then g else iset{};
      AddExchange(Raise(x, 1), Raise(y, 1), ag, bg);
    }
  }

  function Differences(a: seq<bool>, b: seq<bool>): (c: seq<bool>)
    requires |a| == |b|
    ensures |c| == |a|
  {
    seq(|a|, i requires 0 <= i < |a| => a[i] != b[i])
  }

  /** A nonzero multiple of a polynomial of degree d has degree at least d. */
  lemma {:induction false} NonzeroMultiple(q: seq<bool>, g: Poly, d: nat) returns (e: nat)
    requires true in q && d in g && DegreeBelow(g, d + 1)
    ensures e >= d && e in Times(q, g) && DegreeBelow(Times(q, g), e + 1)
    decreases |q|
  {
    var n := |q| - 1;
    if true in q[..n] {
      var e' := NonzeroMultiple(q[..n], g, d);
      e := e' + 1;
      assert e in Raise(Times(q[..n], g), 1) by { assert Has(Times(q[..n], g), e - 1); }
    } else {
      NoMultiple(q[..n], g);
      e := d;
      assert q[n];
    }
  }

  lemma {:induction false} NoMultiple(q: seq<bool>, g: Poly)
    requires true !in q
    ensures Times(q, g) == iset{}
    decreases |q|
  {
    if q == [] {
    } else {
      NoMultiple(q[..|q| - 1], g);
      assert !q[|q| - 1];
    }
  }

  lemma GeneratorDegree()
    ensures 32 in Generator() && DegreeBelow(Generator(), 33)
  {
    hide Bit;
  }

  /** The generator is the standard one: x^32 + x^26 + x^23 + x^22 + x^16 + x^12 + x^11 + x^10
      + x^8 + x^7 + x^5 + x^4 + x^2 + x + 1. */
  lemma GeneratorTerms(e: nat)
    ensures e in Generator() <==> e in {32, 26, 23, 22, 16, 12, 11, 10, 8, 7, 5, 4, 2, 1, 0}
  {
    if e < 32 {
      GeneratorBit(31 - e);
    }
    hide Bit;
  }

  /** The set bits of the reflected constant. */
  lemma GeneratorBit(i: nat)
    requires i < 32
    ensures Bit(0xEDB8_8320, i) <==> i in {5, 8, 9, 15, 19, 20, 21, 23, 24, 26, 27, 29, 30, 31}
  {
    hide Bit;
    FourBits(0xEDB88320);
    FourBits(0xEDB8832);
    FourBits(0xEDB883);
    FourBits(0xEDB88);
    FourBits(0xEDB8);
    FourBits(0xEDB);
    FourBits(0xED);
    FourBits(0xE);
  }

  lemma FourBits(w: Word)
    ensures Bit(w, 0) == (w & 1 != 0) && Bit(w, 1) == (w & 2 != 0)
    ensures Bit(w, 2) == (w & 4 != 0) && Bit(w, 3) == (w & 8 != 0)
    ensures forall i: nat :: i >= 4 ==> Bit(w, i) == Bit(w >> 4, i - 4)
  {
    LowFour(w);
    hide Half, Odd;
    forall i: nat | i >= 4
      ensures Bit(w, i) == Bit(w >> 4, i - 4)
    {
      assert Bit(w, i) == Bit(Half(w), i - 1) == Bit(Half(Half(w)), i - 2);
      assert Bit(Half(Half(w)), i - 2) == Bit(Half(Half(Half(w))), i - 3) == Bit(Half(Half(Half(Half(w)))), i - 4);
    }
  }

  lemma LowFour(w: Word)
    ensures Odd(w) == (w & 1 != 0) && Odd(Half(w)) == (w & 2 != 0)
    ensures Odd(Half(Half(w))) == (w & 4 != 0) && Odd(Half(Half(Half(w)))) == (w & 8 != 0)
    ensures Half(Half(Half(Half(w)))) == w >> 4
  {
    LowTwo(w);
    LowTwo(w >> 2);
    ShiftedTwo(w);
    hide Half, Odd;
  }

  lemma LowTwo(w: Word)
    ensures Odd(w) == (w & 1 != 0) && Odd(Half(w)) == (w & 2 != 0) && Half(Half(w)) == w >> 2
  {
  }

  lemma ShiftedTwo(w: Word)
    ensures (w >> 2) & 1 != 0 <==> w & 4 != 0
    ensures (w >> 2) & 2 != 0 <==> w & 8 != 0
    ensures (w >> 2) >> 2 == w >> 4
  {
  }

  /** Leading zeros of a quotient change nothing. */
  lemma {:induction false} LeadingZeros(k: nat, q: seq<bool>, g: Poly)
    ensures Times(seq(k, _ => false) + q, g) == Times(q, g)
    decreases |q|
  {
    var p := seq(k, _ => false) + q;
    if q == [] {
      NoMultiple(p, g);
    } else {
      LeadingZeros(k, q[..|q| - 1], g);
      assert p[..|p| - 1] == seq(k, _ => false) + q[..|q| - 1];
    }
  }

  lemma UniqueSameLength(p: seq<bool>, q: seq<bool>, r: Poly, s: Poly)
    requires |p| == |q| && DegreeBelow(r, 32) && DegreeBelow(s, 32)
    requires Add(Times(p, Generator()), r) == Add(Times(q, Generator()), s)
    ensures r == s
  {
    var g, d := Generator(), Differences(p, q);
    TimesXor(p, q, g);
    assert forall e: nat :: (e in Times(d, g)) == ((e in r) != (e in s)) by {
      forall e: nat
        ensures (e in Times(d, g)) == ((e in r) != (e in s))
      {
        assert (e in Add(Times(p, g), r)) == (e in Add(Times(q, g), s));
      }
    }
    if true in d {
      GeneratorDegree();
      hide Times, Generator;
      var e := NonzeroMultiple(d, g, 32);
      assert false;
    } else {
      NoMultiple(d, g);
      assert forall e: nat :: e !in Times(d, g);
    }
  }

  /** The remainder is unique: any division of the message by the generator that leaves a
      remainder of degree below 32 leaves the register. */
  lemma RemainderIsUnique(bits: seq<bool>, q: seq<bool>, r: Poly)
    requires DegreeBelow(r, 32) && Dividend(bits) == Add(Times(q, Generator()), r)
    ensures r == PolyOf(ShiftAll(0xFFFF_FFFF, bits))
  {
    hide *;
    RegisterIsRemainder(bits);
    var p, k := Quotient(bits), |bits|;
    LeadingZeros(|q|, p, Generator());
    LeadingZeros(|p|, q, Generator());
    UniqueSameLength(seq(|q|, _ => false) + p, seq(|p|, _ => false) + q, PolyOf(ShiftAll(0xFFFF_FFFF, bits)), r);
  }

  /** Distinct words are distinct polynomials. */
  lemma PolyDetermines(a: Word, b: Word)
    requires PolyOf(a) == PolyOf(b)
    ensures a == b
  {
    hide Bit;
    forall i: nat
      ensures Bit(a, i) == Bit(b, i)
    {
      if i < 32 {
        BitOfPoly(a, 31 - i);
        BitOfPoly(b, 31 - i);
      } else {
        BitHigh(a, i);
        BitHigh(b, i);
      }
    }
    BitsDetermine(a, b);
  }

  /** For every byte string the checksum is the complement of the unique remainder of the
      preset message modulo the generator, read in reflected order, and no other word is. */
  lemma CrcIsRemainder(data: seq<Byte>, q: seq<bool>, r: Poly)
    requires DegreeBelow(r, 32) && Dividend(BitsOf(data)) == Add(Times(q, Generator()), r)
    ensures r == PolyOf(Xor(Crc(data), 0xFFFF_FFFF))
    ensures forall crc: Word :: r == PolyOf(Xor(crc, 0xFFFF_FFFF)) ==> crc == Crc(data)
  {
    RemainderIsUnique(BitsOf(data), q, r);
    XorCancels(Register(data), 0xFFFF_FFFF);
    hide *;
    forall crc: Word | r == PolyOf(Xor(crc, 0xFFFF_FFFF))
      ensures crc == Crc(data)
    {
      PolyDetermines(Xor(crc, 0xFFFF_FFFF), Xor(Crc(data), 0xFFFF_FFFF));
      XorCancels(crc, 0xFFFF_FFFF);
      XorCancels(Crc(data), 0xFFFF_FFFF);
    }
  }
}
