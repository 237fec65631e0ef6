/** Tempering loses nothing: 624 outputs reveal the state and all later outputs. */
module Tempering {
  import opened Words
  import opened Lagged
  import opened Mt19937

  /** Each shift part is linear and dies out when repeated, so each step can be undone: the
      steps by 18 and by 15 are their own inverses, the one by 11 takes two more shifts, and
      the one by 7 four rounds. */
  function Untemper7(y: Word): Word {
    Round7(y, Round7(y, Round7(y, Round7(y, y))))
  }

  function Round7(y: Word, x: Word): Word { Xor(y, Up7(x)) }

  function Untemper11(y: Word): Word { Xor(Xor(y, Down11(y)), Down11(Down11(y))) }

  function Untemper(y: Word): Word {
    Untemper11(Untemper7(Temper15(Temper18(y))))
  }

  lemma Down18Linear(a: Word, b: Word)
    ensures Down18(Xor(a, b)) == Xor(Down18(a), Down18(b))
  {
  }

  lemma Down18Ends(a: Word)
    ensures Down18(Down18(a)) == 0
  {
  }

  lemma Undo18(y: Word)
    ensures Temper18(Temper18(y)) == y
  {
    hide Xor, Down18;
    var d := Down18(y);
    Down18Linear(y, d);
    Down18Ends(y);
    XorZero(d);
    XorCancels(y, d);
  }

  lemma Up15Linear(a: Word, b: Word)
    ensures Up15(Xor(a, b)) == Xor(Up15(a), Up15(b))
  {
  }

  lemma Up15Ends(a: Word)
    ensures Up15(Up15(a)) == 0
  {
  }

  lemma Undo15(y: Word)
    ensures Temper15(Temper15(y)) == y
  {
    hide Xor, Up15;
    var d := Up15(y);
    Up15Linear(y, d);
    Up15Ends(y);
    XorZero(d);
    XorCancels(y, d);
  }

  lemma Up7Linear(a: Word, b: Word)
    ensures Up7(Xor(a, b)) == Xor(Up7(a), Up7(b))
  {
  }

  lemma Up7Ends(a: Word)
    ensures Up7(Up7(Up7(Up7(Up7(a))))) == 0
  {
  }

  /** One round moves the error, the difference from the word sought, up seven bits. */
  lemma RoundShiftsError(y: Word, e: Word)
    ensures Round7(Temper7(y), Xor(y, e)) == Xor(y, Up7(e))
  {
    hide Up7, Xor;
    Up7Linear(y, e);
    XorAssoc(y, Up7(y), Xor(Up7(y), Up7(e)));
    XorAssoc(Up7(y), Up7(y), Up7(e));
    XorSelf(Up7(y));
    XorZero(Up7(e));
  }

  lemma Undo7(y: Word)
    ensures Untemper7(Temper7(y)) == y
  {
    var e := Up7(y);
    var e1 := Up7(e);
    var e2 := Up7(e1);
    var e3 := Up7(e2);
    assert Temper7(y) == Xor(y, e);
    hide Up7, Xor, Temper7, Round7;
    RoundShiftsError(y, e);
    RoundShiftsError(y, e1);
    RoundShiftsError(y, e2);
    RoundShiftsError(y, e3);
    Up7Ends(y);
    XorZero(y);
  }

  /** Two rounds from the same word differ by the shifted difference of their arguments. */
  lemma RoundsDiffer(y: Word, a: Word, b: Word)
    ensures Xor(Round7(y, a), Round7(y, b)) == Up7(Xor(a, b))
  {
    hide Up7, Xor;
    Up7Linear(a, b);
    XorExchange(y, Up7(a), y, Up7(b));
    XorSelf(y);
    XorZero(Xor(Up7(a), Up7(b)));
  }

  lemma Redo7(y: Word)
    ensures Temper7(Untemper7(y)) == y
  {
    hide Up7, Xor;
    var x1 := Round7(y, y);
    var x2 := Round7(y, x1);
    var x3 := Round7(y, x2);
    var x4 := Round7(y, x3);
    FirstRound(y);
    RoundsDiffer(y, y, x1);
    RoundsDiffer(y, x1, x2);
    RoundsDiffer(y, x2, x3);
    Up7Linear(x3, x4);
    Up7Ends(y);
    XorEqual(Up7(x3), Up7(x4));
    XorCancels(y, Up7(x3));
  }

  lemma FirstRound(y: Word)
    ensures Xor(y, Round7(y, y)) == Up7(y)
  {
    hide Up7, Xor;
    XorAssoc(y, y, Up7(y));
    XorSelf(y);
    XorZero(Up7(y));
  }

  lemma XorEqual(a: Word, b: Word)
    requires Xor(a, b) == 0
    ensures a == b
  {
    hide Xor;
    XorCancels(a, b);
    XorZero(b);
  }

  lemma Down11Linear(a: Word, b: Word)
    ensures Down11(Xor(a, b)) == Xor(Down11(a), Down11(b))
  {
  }

  lemma Down11Ends(a: Word)
    ensures Down11(Down11(Down11(a))) == 0
  {
  }

  lemma Undo11(y: Word)
    ensures Untemper11(Temper11(y)) == y
  {
    hide Xor, Down11;
    var d := Down11(y);
    var e := Down11(d);
    Down11Linear(y, d);
    Down11Linear(d, e);
    Down11Ends(y);
    XorZero(e);
    XorAssoc(Xor(y, d), Xor(d, e), e);
    XorCancels(d, e);
    XorCancels(y, d);
  }

  lemma Redo11(y: Word)
    ensures Temper11(Untemper11(y)) == y
  {
    hide Xor, Down11;
    var d := Down11(y);
    var e := Down11(d);
    Down11Linear(y, d);
    Down11Linear(Xor(y, d), e);
    Down11Ends(y);
    XorZero(Xor(d, e));
    XorAssoc(y, d, e);
    XorCancels(y, Xor(d, e));
  }

  /** Tempering is linear over GF(2), so the images of the 32 one-bit words below determine it. */
  lemma TemperIsLinear(a: Word, b: Word)
    ensures Temper(Xor(a, b)) == Xor(Temper(a), Temper(b))
  {
    hide Temper18, Temper15, Temper7, Temper11, Xor;
    Temper11Linear(a, b);
    Temper7Linear(Temper11(a), Temper11(b));
    Temper15Linear(Temper7(Temper11(a)), Temper7(Temper11(b)));
    Temper18Linear(Temper15(Temper7(Temper11(a))), Temper15(Temper7(Temper11(b))));
  }

  lemma Temper11Linear(a: Word, b: Word)
    ensures Temper11(Xor(a, b)) == Xor(Temper11(a), Temper11(b))
  {
    hide Xor, Down11;
    Down11Linear(a, b);
    XorExchange(a, b, Down11(a), Down11(b));
  }

  lemma Temper7Linear(a: Word, b: Word)
    ensures Temper7(Xor(a, b)) == Xor(Temper7(a), Temper7(b))
  {
    hide Xor, Up7;
    Up7Linear(a, b);
    XorExchange(a, b, Up7(a), Up7(b));
  }

  lemma Temper15Linear(a: Word, b: Word)
    ensures Temper15(Xor(a, b)) == Xor(Temper15(a), Temper15(b))
  {
    hide Xor, Up15;
    Up15Linear(a, b);
    XorExchange(a, b, Up15(a), Up15(b));
  }

  lemma Temper18Linear(a: Word, b: Word)
    ensures Temper18(Xor(a, b)) == Xor(Temper18(a), Temper18(b))
  {
    hide Xor, Down18;
    Down18Linear(a, b);
    XorExchange(a, b, Down18(a), Down18(b));
  }

  lemma TemperedBits0()
    ensures Temper(0x1) == 0x0040_0091
    ensures Temper(0x2) == 0x2
    ensures Temper(0x4) == 0x0102_0244
    ensures Temper(0x8) == 0x0204_0489
    ensures Temper(0x10) == 0x10
    ensures Temper(0x20) == 0x0800_1220
    ensures Temper(0x40) == 0x40
    ensures Temper(0x80) == 0x2040_4890
  {
  }

  lemma TemperedBits8()
    ensures Temper(0x100) == 0x0080_0120
    ensures Temper(0x200) == 0x0100_0240
    ensures Temper(0x400) == 0x0200_0480
    ensures Temper(0x800) == 0x0444_0990
    ensures Temper(0x1000) == 0x0808_1200
    ensures Temper(0x2000) == 0x0102_2244
    ensures Temper(0x4000) == 0x2224_4C81
    ensures Temper(0x8000) == 0x4000_9010
  {
  }

  lemma TemperedBits16()
    ensures Temper(0x0001_0000) == 0x8801_3220
    ensures Temper(0x0002_0000) == 0x0102_0000
    ensures Temper(0x0004_0000) == 0x2044_4891
    ensures Temper(0x0008_0000) == 0x0488_0022
    ensures Temper(0x0010_0000) == 0x0910_0044
    ensures Temper(0x0020_0000) == 0x1220_0088
    ensures Temper(0x0040_0000) == 0x0444_0911
    ensures Temper(0x0080_0000) == 0x0888_1222
  {
  }

  lemma TemperedBits24()
    ensures Temper(0x0100_0000) == 0x8100_0040
    ensures Temper(0x0200_0000) == 0x2220_4888
    ensures Temper(0x0400_0000) == 0x4400_9100
    ensures Temper(0x0800_0000) == 0x8801_2200
    ensures Temper(0x1000_0000) == 0x1102_0440
    ensures Temper(0x2000_0000) == 0x2004_0801
    ensures Temper(0x4000_0000) == 0x4408_1102
    ensures Temper(0x8000_0000) == 0x8810_2204
  {
  }

  /** Tempering is a bijection of the 32-bit words. */
  lemma TemperIsBijective(y: Word)
    ensures Untemper(Temper(y)) == y && Temper(Untemper(y)) == y
  {
    hide Temper18, Temper15, Temper7, Temper11, Untemper7, Untemper11;
    Undo11(y);
    Undo7(Temper11(y));
    Undo15(Temper7(Temper11(y)));
    Undo18(Temper15(Temper7(Temper11(y))));
    Undo18(y);
    Undo15(Temper18(y));
    Redo7(Temper15(Temper18(y)));
    Redo11(Untemper7(Temper15(Temper18(y))));
  }

  /** The outputs, untempered, are the window itself. */
  lemma OutputsReveal(s: Feed<Word>, i: nat)
    requires s.Valid() && |s.window| == N && i < N
    ensures Untemper(Temper(Output(Next, s, i))) == Run(Next, s.window, s.next)[i]
  {
    hide Temper, Untemper, Next, Output;
    TemperIsBijective(Output(Next, s, i));
    OutputIsStream(Next, s, i);
    WindowIsStream(Next, s.window, s.next, i);
  }

  /** Two generators that agree on 624 consecutive outputs agree on every later one, wherever
      in a batch each of them is. */
  lemma OutputsDetermineRun(s: Feed<Word>, t: Feed<Word>, i: nat)
    requires s.Valid() && t.Valid() && |s.window| == |t.window| == N
    requires forall k: nat :: k < N ==> Temper(Output(Next, s, k)) == Temper(Output(Next, t, k))
    ensures Temper(Output(Next, s, i)) == Temper(Output(Next, t, i))
  {
    hide Temper, Untemper, Next, Output;
    var v, w := Run(Next, s.window, s.next), Run(Next, t.window, t.next);
    forall k: nat | k < N
      ensures v[k] == w[k]
    {
      OutputsReveal(s, k);
      OutputsReveal(t, k);
    }
    assert v == w;
    OutputIsStream(Next, s, i);
    OutputIsStream(Next, t, i);
    StreamAdd(Next, s.window, s.next, i);
    StreamAdd(Next, t.window, t.next, i);
  }

  // ---------------------------------------------------------------- seeds

  lemma Down30Linear(a: Word, b: Word)
    ensures Down30(Xor(a, b)) == Xor(Down30(a), Down30(b))
  {
  }

  lemma Down30Ends(a: Word)
    ensures Down30(Down30(a)) == 0
  {
  }

  lemma Undo30(w: Word)
    ensures Fold30(Fold30(w)) == w
  {
    hide Xor, Down30;
    var d := Down30(w);
    Down30Linear(w, d);
    Down30Ends(w);
    XorZero(d);
    XorCancels(w, d);
  }

  /** The multiplier is odd; this is its inverse modulo 2^32. */
  function Unscale(w: Word): Word { 2520285293 * w }

  lemma ScaleIs(w: Word)
    ensures Scale(w) == 1812433253 * w
  {
  }

  lemma UnscaleProduct(w: Word)
    ensures Unscale(1812433253 * w) == w
  {
  }

  lemma UndoScale(w: Word)
    ensures Unscale(Scale(w)) == w
  {
    hide Scale, Unscale;
    ScaleIs(w);
    UnscaleProduct(w);
  }

  lemma SeedStepInjective(s: Word, t: Word)
    requires SeedStep(s, 1) == SeedStep(t, 1)
    ensures s == t
  {
    hide SeedStep, Scale, Unscale, Fold30, Plus;
    SeedStepIs(s);
    SeedStepIs(t);
    SumCancels(Scale(Fold30(s)), Scale(Fold30(t)));
    UndoScale(Fold30(s));
    UndoScale(Fold30(t));
    Undo30(s);
    Undo30(t);
  }

  lemma SeedStepIs(s: Word)
    ensures SeedStep(s, 1) == Plus(Scale(Fold30(s)), 1)
  {
    hide Scale, Fold30, Plus;
  }

  lemma SumCancels(a: Word, b: Word)
    requires Plus(a, 1) == Plus(b, 1)
    ensures a == b
  {
  }

  /** Different seeds show different outputs within the first 624. */
  lemma OutputsDetermineSeed(s: Word, t: Word)
    requires forall k: nat :: k < N ==>
               Temper(Output(Next, Feed(Seeded(s), N), k)) == Temper(Output(Next, Feed(Seeded(t), N), k))
    ensures s == t
  {
    var v, w := Run(Next, Seeded(s), N), Run(Next, Seeded(t), N);
    forall k: nat | k < N
      ensures v[k] == w[k]
    {
      OutputsReveal(Feed(Seeded(s), N), k);
      OutputsReveal(Feed(Seeded(t), N), k);
    }
    assert v == w;
    TwistInjective(Seeded(s), Seeded(t), N);
    assert Live(Seeded(s))[1] == SeedStep(s, 1) && Live(Seeded(t))[1] == SeedStep(t, 1);
    SeedStepInjective(s, t);
  }
}
