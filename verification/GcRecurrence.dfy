/** The GameCube key stream as one bit sequence: seeding, filling and mixing are the same
    linear recurrence b[t] = b[t-32] ^ b[t-521]. */
module GcRecurrence {
  import opened Words
  import opened Lagged
  import opened GcCrypt

  // ---------------------------------------------------------------- words

  /** The infinite word sequence: the 521 filled words, then every mixed block. */
  function KeyWord(seed: Word, m: nat): Word {
    Stream(Next, Fill(seed), m)
  }

  lemma KeyWordFilled(seed: Word, m: nat)
    requires m < N
    ensures KeyWord(seed, m) == FillWord(seed, m)
  {
    hide FillWord, Next;
    WindowIsStream(Next, Fill(seed), 0, m);
  }

  lemma KeyWordMixed(seed: Word, m: nat)
    requires m >= 521
    ensures KeyWord(seed, m) == Xor(KeyWord(seed, m - 521), KeyWord(seed, m - 32))
  {
    hide Xor, Fill;
    Recurrence(Next, Fill(seed), m - N);
    WindowIsStream(Next, Fill(seed), m - N, 0);
    WindowIsStream(Next, Fill(seed), m - N, N - LAG);
  }

  /** The state CreateKeys leaves hands out the sequence from word 4 * 521 on. */
  lemma OutputAfterCreate(seed: Word, k: nat)
    ensures Output(Next, Feed(Run(Next, Fill(seed), 3 * N), N), k) == KeyWord(seed, 2084 + k)
  {
    OutputIsStream(Next, Feed(Run(Next, Fill(seed), 3 * N), N), k);
    StreamAdd(Next, Fill(seed), 3 * N, N + k);
  }

  // ---------------------------------------------------------------- bits

  /** Bit t of the sequence, most significant bit of each word first. */
  predicate KeyBit(seed: Word, t: nat) {
    Bit(KeyWord(seed, t / 32), 31 - t % 32)
  }

  lemma KeyBitAt(seed: Word, m: nat, y: nat)
    requires y < 32
    ensures KeyBit(seed, 32 * m + y) == Bit(KeyWord(seed, m), 31 - y)
  {
    assert (32 * m + y) / 32 == m && (32 * m + y) % 32 == y;
  }

  ghost predicate Obeys(b: nat -> bool, p: nat, q: nat)
  {
    forall t: nat :: t >= q ==> StepAt(b, p, q, t)
  }

  ghost predicate StepAt(b: nat -> bool, p: nat, q: nat, t: nat)
  {
    p <= t && q <= t && b(t) == (b(t - p) != b(t - q))
  }

  /** Squaring over GF(2): the cross terms cancel. */
  lemma Squaring(b: nat -> bool, p: nat, q: nat)
    requires p <= q && Obeys(b, p, q)
    ensures Obeys(b, 2 * p, 2 * q)
  {
    forall t: nat | t >= 2 * q
      ensures StepAt(b, 2 * p, 2 * q, t)
    {
      assert StepAt(b, p, q, t);
      assert StepAt(b, p, q, t - p);
      assert StepAt(b, p, q, t - q);
    }
  }

  function Pow2(k: nat): nat {
    if k == 0 then 1 else 2 * Pow2(k - 1)
  }

  lemma {:induction false} RepeatedSquaring(b: nat -> bool, p: nat, q: nat, k: nat)
    requires p <= q && Obeys(b, p, q)
    ensures Obeys(b, p * Pow2(k), q * Pow2(k))
  {
    if k == 0 {
    } else {
      hide Obeys;
      RepeatedSquaring(b, p, q, k - 1);
      InOrder(p, q, Pow2(k - 1));
      Squaring(b, p * Pow2(k - 1), q * Pow2(k - 1));
      Doubled(p, Pow2(k - 1));
      Doubled(q, Pow2(k - 1));
    }
  }

  lemma InOrder(p: nat, q: nat, m: nat)
    requires p <= q
    ensures 0 <= p * m <= q * m
  {
  }

  lemma Doubled(p: nat, m: nat)
    ensures 2 * (p * m) == p * (2 * m)
  {
  }

  /** Two sequences with the same recurrence and the same first q bits are equal. */
  lemma {:induction false} SameStartSameSequence(b: nat -> bool, c: nat -> bool, p: nat, q: nat, t: nat)
    requires 0 < p <= q && Obeys(b, p, q) && Obeys(c, p, q)
    requires forall u: nat :: u < q ==> b(u) == c(u)
    ensures b(t) == c(t)
  {
    if t < q {
    } else {
      assert StepAt(b, p, q, t) && StepAt(c, p, q, t);
      SameStartSameSequence(b, c, p, q, t - p);
      SameStartSameSequence(b, c, p, q, t - q);
    }
  }

  /** The first 521 bits: within each of 16 words the generator's bits in reverse, and in the
      joint the bits one word before xored with the next nine. */
  predicate StartBit(seed: Word, t: nat)
    requires t < N
  {
    if t < 512 then SeedBit(seed, 32 * (t / 32) + 32 - t % 32)
    else SeedBit(seed, 1024 - t) != SeedBit(seed, 1033 - t)
  }

  /** The bit recurrence run from those 521 bits of the generator. */
  predicate Linear(seed: Word, t: nat) {
    if t < N then StartBit(seed, t) else Linear(seed, t - LAG) != Linear(seed, t - N)
  }

  lemma LinearObeys(seed: Word)
    ensures Obeys((t: nat) => Linear(seed, t), LAG, N)
  {
    hide StartBit;
    var c := (t: nat) => Linear(seed, t);
    forall t: nat | t >= N
      ensures StepAt(c, LAG, N, t)
    {
    }
  }

  // ---------------------------------------------------------------- the fill

  /** Bits 521 and up of the filled words already obey the recurrence. */
  lemma FillBit(seed: Word, m: nat, y: nat)
    requires m < N && y < 32 && 32 * m + y >= N
    ensures KeyBit(seed, 32 * m + y) == (KeyBit(seed, 32 * m + y - LAG) != KeyBit(seed, 32 * m + y - N))
  {
    hide KeyBit, Bit, KeyWord, FillWord;
    KeyBitAt(seed, m, y);
    KeyBitAt(seed, m - 1, y);
    KeyWordFilled(seed, m);
    KeyWordFilled(seed, m - 1);
    if y >= 9 {
      KeyBitAt(seed, m - 16, y - 9);
      KeyWordFilled(seed, m - 16);
    } else {
      KeyBitAt(seed, m - 17, y + 23);
      KeyWordFilled(seed, m - 17);
    }
    FillWordBit(seed, m, y);
  }

  lemma FillWordBit(seed: Word, m: nat, y: nat)
    requires m >= 16 && y < 32 && (m == 16 ==> y >= 9)
    ensures Bit(FillWord(seed, m), 31 - y)
         == (Bit(FillWord(seed, m - 1), 31 - y)
             != if y >= 9 then Bit(FillWord(seed, m - 16), 31 - (y - 9))
                else Bit(FillWord(seed, m - 17), 31 - (y + 23)))
  {
    if m == 16 {
      JointBit(FillWord(seed, 0), FillWord(seed, 15), Pushed(seed, 32 * 17), y);
    } else {
      ExtendBit(FillWord(seed, m - 1), FillWord(seed, m - 17), FillWord(seed, m - 16), y);
    }
  }

  lemma ExtendBit(w1: Word, w17: Word, w16: Word, y: nat)
    requires y < 32
    ensures Bit(Extend(w1, w17, w16), 31 - y)
         == (Bit(w1, 31 - y) != if y >= 9 then Bit(w16, 31 - (y - 9)) else Bit(w17, 31 - (y + 23)))
  {
    hide Bit, Xor, And;
    var i := 31 - y;
    MasksAreVoid(w17, w16);
    BitXor(w1, Xor(w17 << 23, w16 >> 9), i);
    BitXor(w17 << 23, w16 >> 9, i);
    BitShiftLeft23(w17, i);
    BitShiftRight9(w16, i);
    if y < 9 {
      BitHigh(w16, i + 9);
    }
  }

  /** The masks around the shifts change nothing. */
  lemma MasksAreVoid(w17: Word, w16: Word)
    ensures And(w17 << 23, 0xFF80_0000) == w17 << 23 && And(w16 >> 9, 0x007F_FFFF) == w16 >> 9
  {
  }

  lemma JointBit(w0: Word, w15: Word, w16: Word, y: nat)
    requires y < 32
    ensures Bit(Joint(w0, w15, w16), 31 - y)
         == (Bit(w15, 31 - y) != if y >= 9 then Bit(w0, 31 - (y - 9)) else Bit(w16, 8 - y))
  {
    hide Bit, Xor;
    var i := 31 - y;
    BitXor(Xor(w0 >> 9, w16 << 23), w15, i);
    BitXor(w0 >> 9, w16 << 23, i);
    BitShiftLeft23(w16, i);
    BitShiftRight9(w0, i);
    if y < 9 {
      BitHigh(w0, i + 9);
    }
  }

  // ---------------------------------------------------------------- the mix

  /** Mixing words is the bit recurrence squared five times. */
  lemma MixObeys(seed: Word)
    ensures Obeys((t: nat) => KeyBit(seed, t), LAG * 32, N * 32)
  {
    hide KeyBit;
    var b := (t: nat) => KeyBit(seed, t);
    forall t: nat | t >= N * 32
      ensures StepAt(b, LAG * 32, N * 32, t)
    {
      MixBit(seed, t / 32, t % 32);
      assert t == 32 * (t / 32) + t % 32;
    }
  }

  lemma MixBit(seed: Word, m: nat, y: nat)
    requires m >= N && y < 32
    ensures KeyBit(seed, 32 * m + y)
         == (KeyBit(seed, 32 * m + y - LAG * 32) != KeyBit(seed, 32 * m + y - N * 32))
  {
    hide Bit, KeyWord, Xor;
    KeyBitAt(seed, m, y);
    KeyBitAt(seed, m - LAG, y);
    KeyBitAt(seed, m - N, y);
    KeyWordMixed(seed, m);
    BitXor(KeyWord(seed, m - N), KeyWord(seed, m - LAG), 31 - y);
  }

  // ---------------------------------------------------------------- one recurrence

  /** The first 521 key bits are top bits of the generator's states, the last nine of them xored
      in pairs nine steps apart. */
  lemma StartsFromSeed(seed: Word, t: nat)
    requires t < 521
    ensures t < 512 ==> KeyBit(seed, t) == Bit(Lcg(seed, 32 * (t / 32) + 32 - t % 32), 31)
    ensures t >= 512 ==> KeyBit(seed, t) == (Bit(Lcg(seed, 1024 - t), 31) != Bit(Lcg(seed, 1033 - t), 31))
  {
    hide KeyBit, Lcg, Bit;
    if t < 512 {
      SeededBit(seed, t / 32, 31 - t % 32);
      assert t == 32 * (t / 32) + t % 32;
    } else {
      JointStarts(seed, t - 512);
    }
  }

  lemma KeyStarts(seed: Word, t: nat)
    requires t < N
    ensures KeyBit(seed, t) == StartBit(seed, t)
  {
    hide KeyBit, SeedBit, Lcg, Bit;
    StartsFromSeed(seed, t);
    if t < 512 {
      SeedBitIsTop(seed, 32 * (t / 32) + 32 - t % 32);
    } else {
      SeedBitIsTop(seed, 1024 - t);
      SeedBitIsTop(seed, 1033 - t);
    }
  }

  lemma JointStarts(seed: Word, y: nat)
    requires y < 9
    ensures KeyBit(seed, 512 + y) == (Bit(Lcg(seed, 512 - y), 31) != Bit(Lcg(seed, 521 - y), 31))
  {
    FillWordStart(seed);
    hide Bit, KeyBit, KeyWord, Lcg, Pushed, Joint, FillWord;
    KeyBitAt(seed, 16, y);
    KeyWordFilled(seed, 16);
    JointBit(Pushed(seed, 32), Pushed(seed, 32 * 16), Pushed(seed, 32 * 17), y);
    SeededBit(seed, 15, 31 - y);
    SeededBit(seed, 16, 8 - y);
  }

  lemma {:induction false} FillIsLinear(seed: Word, t: nat)
    requires t < N * 32
    ensures KeyBit(seed, t) == Linear(seed, t)
  {
    hide KeyBit, StartBit;
    if t < N {
      KeyStarts(seed, t);
    } else {
      FillBit(seed, t / 32, t % 32);
      assert t == 32 * (t / 32) + t % 32;
      FillIsLinear(seed, t - LAG);
      FillIsLinear(seed, t - N);
    }
  }

  /** Every key bit follows from the generator's bits by the recurrence alone. */
  lemma KeyStreamIsLinear(seed: Word, t: nat)
    ensures KeyBit(seed, t) == Linear(seed, t)
  {
    var b, c := (t: nat) => KeyBit(seed, t), (t: nat) => Linear(seed, t);
    hide KeyBit, Linear;
    MixObeys(seed);
    LinearObeys(seed);
    RepeatedSquaring(c, LAG, N, 5);
    assert Pow2(5) == 32;
    forall u: nat | u < N * 32
      ensures b(u) == c(u)
    {
      FillIsLinear(seed, u);
    }
    SameStartSameSequence(b, c, LAG * 32, N * 32, t);
  }

  /** The whole key stream is one linear recurrence over bits, across fill and every mix. */
  lemma OneRecurrence(seed: Word, t: nat)
    requires t >= 521
    ensures KeyBit(seed, t) == (KeyBit(seed, t - 32) != KeyBit(seed, t - 521))
  {
    hide KeyBit;
    KeyStreamIsLinear(seed, t);
    KeyStreamIsLinear(seed, t - LAG);
    KeyStreamIsLinear(seed, t - N);
  }

  // ---------------------------------------------------------------- the seed bits

  lemma PushBit(w: Word, bit: bool, i: nat)
    requires i < 32
    ensures Bit(Push(w, bit), i) == if i == 31 then bit else Bit(w, i + 1)
  {
    PushIsAndXor(w, bit);
    TopIsApart();
    hide Odd, And, Xor, Push;
    BitTop(i);
    LowOnes(i);
    BitXor(And(Half(w), 0x7FFF_FFFF), 0x8000_0000, i);
    BitAnd(Half(w), 0x7FFF_FFFF, i);
    BitAnd(0x8000_0000, 0x7FFF_FFFF, i);
    BitZero(i);
    assert Bit(Half(w), i) == Bit(w, i + 1);
    if i == 31 {
      TopOfLow31();
    }
  }

  lemma PushIsAndXor(w: Word, bit: bool)
    ensures Push(w, bit) == if bit then Xor(And(Half(w), 0x7FFF_FFFF), 0x8000_0000) else And(Half(w), 0x7FFF_FFFF)
  {
    if bit {
      PushSet(w);
    }
  }

  lemma PushSet(w: Word)
    ensures (w >> 1) | 0x8000_0000 == ((w >> 1) & 0x7FFF_FFFF) ^ 0x8000_0000
  {
  }

  /** What the generator contributes is its top bit. */
  lemma TopSetIsBit31(w: Word)
    ensures TopSet(w) <==> Bit(w, 31)
  {
    TopPart(w);
    hide Odd, Half, And;
    BitAnd(w, 0x8000_0000, 31);
    BitTop(31);
    BitZero(31);
  }

  lemma TopPart(w: Word)
    ensures TopSet(w) ==> And(w, 0x8000_0000) == 0x8000_0000
    ensures !TopSet(w) ==> And(w, 0x8000_0000) == 0
  {
  }

  lemma SeedBitIsTop(seed: Word, n: nat)
    ensures SeedBit(seed, n) <==> Bit(Lcg(seed, n), 31)
  {
    TopSetIsBit31(Lcg(seed, n));
    hide TopSet, Lcg, Bit;
  }

  /** The generator is the affine map with these two values: seed * 0x5D588B65 + 1. */
  lemma AdvanceIsAffine(a: Word, b: Word)
    ensures Advance(0) == 1 && Advance(1) == 0x5D58_8B66
    ensures Plus(Advance(a), Advance(b)) == Plus(Advance(Plus(a, b)), 1)
  {
    hide Spread, Plus;
    AdvanceValues();
    SpreadIsAdditive(a, b);
    OnesApart(Spread(a), Spread(b));
  }

  lemma AdvanceValues()
    ensures Advance(0) == 1 && Advance(1) == 0x5D58_8B66
  {
  }

  lemma SpreadIsAdditive(a: Word, b: Word)
    ensures Spread(Plus(a, b)) == Plus(Spread(a), Spread(b))
  {
    hide Spread, Plus;
    PlusIs(a, b);
    SpreadIs(a);
    SpreadIs(b);
    SpreadOfSum(a, b);
    PlusIs(0x5D58_8B65 * a, 0x5D58_8B65 * b);
  }

  lemma SpreadIs(w: Word)
    ensures Spread(w) == 0x5D58_8B65 * w
  {
  }

  lemma SpreadOfSum(a: Word, b: Word)
    ensures Spread(a + b) == 0x5D58_8B65 * a + 0x5D58_8B65 * b
  {
  }

  lemma OnesApart(p: Word, q: Word)
    ensures Plus(Plus(p, 1), Plus(q, 1)) == Plus(Plus(Plus(p, q), 1), 1)
  {
    hide Plus;
    PlusAssoc(p, 1, Plus(q, 1));
    PlusAssoc(1, q, 1);
    PlusComm(1, q);
    PlusAssoc(p, q, 1);
    PlusAssoc(p, Plus(q, 1), 1);
  }

  lemma LcgSteps(seed: Word, n: nat)
    ensures Lcg(seed, 0) == seed && Lcg(seed, n + 1) == Advance(Lcg(seed, n))
  {
    hide Advance;
  }

  /** The register holds the top bits of the last 32 states, oldest at the bottom. */
  lemma {:induction false} PushedBit(seed: Word, n: nat, i: nat)
    requires i < 32 && n + i >= 32
    ensures Bit(Pushed(seed, n), i) == Bit(Lcg(seed, n + i - 31), 31)
    decreases n
  {
    hide Bit, Push, SeedBit, Lcg;
    SeedBitIsTop(seed, n);
    PushBit(Pushed(seed, n - 1), SeedBit(seed, n), i);
    if i == 31 {
    } else {
      PushedBit(seed, n - 1, i + 1);
    }
  }

  /** Bit y of seeded word x is the top bit of the congruential state after 32x + y + 1 steps. */
  lemma SeededBit(seed: Word, x: nat, y: nat)
    requires x <= 16 && y < 32
    ensures Bit(Pushed(seed, 32 * (x + 1)), y) == Bit(Lcg(seed, 32 * x + y + 1), 31)
    ensures x < 16 ==> KeyBit(seed, 32 * x + (31 - y)) == Bit(Lcg(seed, 32 * x + y + 1), 31)
  {
    hide Bit, Lcg, Pushed, KeyWord, KeyBit;
    PushedBit(seed, 32 * (x + 1), y);
    KeyBitAt(seed, x, 31 - y);
    KeyWordFilled(seed, x);
  }

  // ---------------------------------------------------------------- the mix as a linear map

  /** Recovers the dropped word of a window from the two newest related ones. */
  function Unslide(w: seq<Word>): seq<Word> {
    if |w| == N then [Xor(w[N - 1], w[N - LAG - 1])] + w[..N - 1] else w
  }

  lemma UndoOne(w: seq<Word>)
    requires |w| == N
    ensures UndoesAt(Next, Same, Unslide, w)
  {
    XorCancels(w[0], w[N - LAG]);
    hide Xor;
    assert Unslide(Slide(Next, w)) == w;
  }

  lemma MixCanBeUndone()
    ensures Undoes(Next, Same, Unslide, N)
  {
    hide UndoesAt;
    forall w: seq<Word> | |w| == N
      ensures UndoesAt(Next, Same, Unslide, w)
    {
      UndoOne(w);
    }
  }

  /** No number of mixes turns a non-zero state into the zero state, or merges two states. */
  lemma StateNeverDies(w: seq<Word>, n: nat)
    requires |w| == N && w != ZeroWords(N)
    ensures Run(Next, w, n) != ZeroWords(N)
  {
    MixCanBeUndone();
    ZerosStay();
    hide Next;
    NeverReaches(Next, Same, Unslide, w, ZeroWords(N), n);
  }

  /** The state of a seed dies only if all of the generator's first 521 top bits are clear, and
      then it is dead from the start. */
  lemma SeedDiesExactly(seed: Word, n: nat)
    ensures Run(Next, Fill(seed), n) == ZeroWords(521)
       <==> forall k: nat :: 1 <= k <= 521 ==> !Bit(Lcg(seed, k), 31)
  {
    hide Next, Fill, Lcg, Bit, Run;
    if forall k: nat :: 1 <= k <= 521 ==> !Bit(Lcg(seed, k), 31) {
      DiesIfClear(seed, n);
    } else {
      var k: nat :| 1 <= k <= 521 && Bit(Lcg(seed, k), 31);
      LivesIfSet(seed, n, k);
    }
  }

  lemma LivesIfSet(seed: Word, n: nat, k: nat)
    requires 1 <= k <= 521 && Bit(Lcg(seed, k), 31)
    ensures Run(Next, Fill(seed), n) != ZeroWords(521)
  {
    hide Next, SeedBit, Fill, FillWord, Lcg, Bit;
    SeedBitIsTop(seed, k);
    LiveSeed(seed, k);
    StateNeverDies(Fill(seed), n);
  }

  lemma DiesIfClear(seed: Word, n: nat)
    requires forall k: nat :: 1 <= k <= 521 ==> !Bit(Lcg(seed, k), 31)
    ensures Run(Next, Fill(seed), n) == ZeroWords(521)
  {
    hide Next, SeedBit, Fill, FillWord, Lcg, Bit;
    forall k: nat | 1 <= k <= N
      ensures !SeedBit(seed, k)
    {
      SeedBitIsTop(seed, k);
    }
    DeadSeed(seed);
    ZerosStay();
    FixedPoint(Next, ZeroWords(N), n);
  }

  lemma DeadSeed(seed: Word)
    requires forall k: nat :: 1 <= k <= N ==> !SeedBit(seed, k)
    ensures Fill(seed) == ZeroWords(N)
  {
    hide SeedBit, KeyBit, FillWord, Bit, KeyWord;
    forall m: nat | m < N
      ensures FillWord(seed, m) == 0
    {
      forall i: nat | i < 32
        ensures Bit(FillWord(seed, m), i) == Bit(0, i)
      {
        KeyWordFilled(seed, m);
        KeyBitAt(seed, m, 31 - i);
        FillIsLinear(seed, 32 * m + (31 - i));
        DeadSequence(seed, 32 * m + (31 - i));
        BitZero(i);
      }
      BitsDetermine(FillWord(seed, m), 0);
    }
  }

  lemma {:induction false} DeadSequence(seed: Word, t: nat)
    requires forall k: nat :: 1 <= k <= N ==> !SeedBit(seed, k)
    ensures !Linear(seed, t)
  {
    hide SeedBit;
    if t < N {
    } else {
      DeadSequence(seed, t - LAG);
      DeadSequence(seed, t - N);
    }
  }

  /** A set generator bit shows in the start bits, past 512 at the latest through the bit nine
      steps earlier. */
  lemma LiveSeed(seed: Word, k: nat)
    requires 1 <= k <= N && SeedBit(seed, k)
    ensures Fill(seed) != ZeroWords(N)
  {
    hide SeedBit, Fill, StartBit;
    if k <= 512 {
      LiveEarly(seed, k);
    } else if SeedBit(seed, k - 9) {
      LiveEarly(seed, k - 9);
    } else {
      JointBitOf(seed, k);
      LiveStart(seed, 1033 - k);
    }
  }

  lemma LiveEarly(seed: Word, k: nat)
    requires 1 <= k <= 512 && SeedBit(seed, k)
    ensures Fill(seed) != ZeroWords(N)
  {
    hide SeedBit, Fill, StartBit;
    var q, r := (k - 1) / 32, (k - 1) % 32;
    StartBitOf(seed, q, r);
    LiveStart(seed, 32 * q + (31 - r));
  }

  lemma StartBitOf(seed: Word, q: nat, r: nat)
    requires q < 16 && r < 32
    ensures StartBit(seed, 32 * q + (31 - r)) == SeedBit(seed, 32 * q + r + 1)
  {
    hide SeedBit;
    assert (32 * q + (31 - r)) / 32 == q && (32 * q + (31 - r)) % 32 == 31 - r;
  }

  lemma JointBitOf(seed: Word, k: nat)
    requires 512 < k <= N
    ensures StartBit(seed, 1033 - k) == (SeedBit(seed, k - 9) != SeedBit(seed, k))
  {
    hide SeedBit;
  }

  lemma LiveStart(seed: Word, t: nat)
    requires t < N && StartBit(seed, t)
    ensures Fill(seed) != ZeroWords(N)
  {
    hide StartBit, FillWord, Bit, KeyWord;
    KeyStarts(seed, t);
    KeyWordFilled(seed, t / 32);
    BitZero(31 - t % 32);
    assert Fill(seed)[t / 32] == FillWord(seed, t / 32);
  }

  lemma ZerosStay()
    ensures Slide(Next, ZeroWords(N)) == ZeroWords(N)
  {
    assert Next(ZeroWords(N)) == 0;
  }

  lemma MixInjective(v: seq<Word>, w: seq<Word>, n: nat)
    requires |v| == |w| == N && Run(Next, v, n) == Run(Next, w, n)
    ensures v == w
  {
    MixCanBeUndone();
    RunInjective(Next, Same, Unslide, v, w, n);
  }

  function XorAll(v: seq<Word>, w: seq<Word>): (r: seq<Word>)
    requires |v| == |w|
    ensures |r| == |v|
  {
    seq(|v|, i requires 0 <= i < |v| => Xor(v[i], w[i]))
  }

  lemma {:induction false} MixIsLinear(v: seq<Word>, w: seq<Word>, n: nat)
    requires |v| == |w| == N
    ensures Run(Next, XorAll(v, w), n) == XorAll(Run(Next, v, n), Run(Next, w, n))
  {
    hide Next, Slide, XorAll;
    if n == 0 {
    } else {
      MixIsLinear(v, w, n - 1);
      SlideIsLinear(Run(Next, v, n - 1), Run(Next, w, n - 1));
    }
  }

  lemma SlideIsLinear(v: seq<Word>, w: seq<Word>)
    requires |v| == |w| == N
    ensures Slide(Next, XorAll(v, w)) == XorAll(Slide(Next, v), Slide(Next, w))
  {
    NextIsLinear(v, w);
    hide Xor, Next;
  }

  lemma NextIsLinear(v: seq<Word>, w: seq<Word>)
    requires |v| == |w| == N
    ensures Next(XorAll(v, w)) == Xor(Next(v), Next(w))
  {
    hide Xor;
    XorExchange(v[0], w[0], v[N - LAG], w[N - LAG]);
  }
}
