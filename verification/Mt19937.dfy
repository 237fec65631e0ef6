/** MT19937: 624 words renewed in place, one batch at a time. */
module Mt19937 {
  import opened Words
  import opened Lagged

  const N := 624
  const M := 397

  // ---------------------------------------------------------------- the recurrence

  /** The top bit of u above the low 31 bits of v. */
  function Splice(u: Word, v: Word): Word {
    (u & 0x8000_0000) | (v & 0x7FFF_FFFF)
  }

  function Mag01(y: Word): Word {
    if y & 1 == 0 then 0 else 0x9908_B0DF
  }

  function Twist(m: Word, y: Word): Word {
    Xor(Xor(m, Half(y)), Mag01(y))
  }

  /** x[k+624] = x[k+397] ^ A(upper(x[k]) | lower(x[k+1])). */
  function Next(w: seq<Word>): Word {
    if |w| == N then Twist(w[M], Splice(w[0], w[1])) else 0
  }

  function Down11(y: Word): Word { y >> 11 }
  function Down18(y: Word): Word { y >> 18 }
  function Up7(y: Word): Word { (y << 7) & 0x9D2C_5680 }
  function Up15(y: Word): Word { (y << 15) & 0xEFC6_0000 }

  function Temper11(y: Word): Word { Xor(y, Down11(y)) }
  function Temper7(y: Word): Word { Xor(y, Up7(y)) }
  function Temper15(y: Word): Word { Xor(y, Up15(y)) }
  function Temper18(y: Word): Word { Xor(y, Down18(y)) }

  function Temper(y: Word): Word {
    Temper18(Temper15(Temper7(Temper11(y))))
  }

  // ---------------------------------------------------------------- the generator

  class MtState {
    var mti: nat
    const mt: array<Word>

    constructor ()
      ensures mt.Length == N && fresh(mt)
    {
      mt := new Word[N];
      mti := 0;
    }
  }

  function State(rng: MtState): (s: Feed<Word>)
    requires rng.mt.Length == N
    reads rng, rng.mt
    ensures s.Valid() && |s.window| == N
  {
    Feed(rng.mt[..], if rng.mti >= N then N else rng.mti)
  }

  /** Part way through a batch that started from w: kk words are renewed. */
  ghost predicate Mixing(rng: MtState, w: seq<Word>, kk: nat)
    reads rng.mt
  {
    rng.mt.Length == N && |w| == N && kk <= N && rng.mt[..] == InPlace(Run(Next, w, kk), kk)
  }

  /** Word kk from words kk + 1 and kk + M, each wrapped once. */
  method RenewWord(rng: MtState, kk: nat, after: nat, far: nat, ghost w: seq<Word>)
    requires kk < N && Mixing(rng, w, kk)
    requires after == (if kk < N - 1 then kk + 1 else 0) && far == (if kk < N - M then kk + M else kk + M - N)
    modifies rng.mt
    ensures Mixing(rng, w, kk + 1)
  {
    RenewStep(w, rng.mt[..], kk, after, far);
    hide Run, InPlace, Twist, Splice;
    var y := Splice(rng.mt[kk], rng.mt[after]);
    rng.mt[kk] := Twist(rng.mt[far], y);
  }

  lemma RenewStep(w: seq<Word>, a: seq<Word>, kk: nat, after: nat, far: nat)
    requires |w| == N && kk < N && a == InPlace(Run(Next, w, kk), kk)
    requires after == (if kk < N - 1 then kk + 1 else 0) && far == (if kk < N - M then kk + M else kk + M - N)
    ensures a[kk := Twist(a[far], Splice(a[kk], a[after]))] == InPlace(Run(Next, w, kk + 1), kk + 1)
  {
    hide Twist, Splice;
    var v := Run(Next, w, kk);
    InPlaceSlot(v, kk, 0);
    InPlaceSlot(v, kk, 1);
    InPlaceSlot(v, kk, M);
    InPlaceStep(Next, v, kk);
  }

  /** The three segments of the batch loop. */
  method RenewAll(rng: MtState)
    requires rng.mt.Length == N
    modifies rng.mt
    ensures rng.mt[..] == Run(Next, old(rng.mt[..]), N)
  {
    ghost var w := rng.mt[..];
    InPlaceBounds(Next, w);
    var kk := 0;
    while kk < N - M
      invariant kk <= N - M && Mixing(rng, w, kk)
    {
      hide Mixing;
      RenewWord(rng, kk, kk + 1, kk + M, w);
      kk := kk + 1;
    }
    while kk < N - 1
      invariant N - M <= kk <= N - 1 && Mixing(rng, w, kk)
    {
      hide Mixing;
      RenewWord(rng, kk, kk + 1, kk + M - N, w);
      kk := kk + 1;
    }
    RenewWord(rng, N - 1, 0, M - 1, w);
  }

  method GenrandInt32(rng: MtState) returns (y: Word)
    requires rng.mt.Length == N
    modifies rng`mti, rng.mt
    ensures y == Temper(Read(Next, old(State(rng))).0)
    ensures State(rng) == Read(Next, old(State(rng))).1
  {
    hide Next, Run, Temper11, Temper7, Temper15, Temper18;
    if rng.mti >= N {
      RenewAll(rng);
      rng.mti := 0;
    }
    y := rng.mt[rng.mti];
    rng.mti := rng.mti + 1;
    y := Temper11(y);
    y := Temper7(y);
    y := Temper15(y);
    y := Temper18(y);
  }

  /** Output i of any run is the tempered stream element, whatever the batches. */
  lemma OutputIsTempered(s: Feed<Word>, i: nat)
    requires s.Valid() && |s.window| == N
    ensures Temper(Output(Next, s, i)) == Temper(Stream(Next, s.window, s.next + i))
  {
    OutputIsStream(Next, s, i);
  }

  /** The infinite sequence obeys the twisted recurrence. */
  lemma TwistedRecurrence(w: seq<Word>, k: nat)
    requires |w| == N
    ensures Stream(Next, w, k + N)
         == Twist(Stream(Next, w, k + M), Splice(Stream(Next, w, k), Stream(Next, w, k + 1)))
  {
    hide Twist, Splice;
    Recurrence(Next, w, k);
    WindowIsStream(Next, w, k, 0);
    WindowIsStream(Next, w, k, 1);
    WindowIsStream(Next, w, k, M);
  }

  // ---------------------------------------------------------------- the live bits

  /** The 19937 bits that decide the future: the top bit of word 0 and all later words. */
  function Live(w: seq<Word>): seq<Word> {
    if |w| == N then [w[0] & 0x8000_0000] + w[1..] else w
  }

  /** The spliced word behind a twist: the set top bit of the matrix row reveals its parity. */
  function Untwist(x: Word): Word {
    if x & 0x8000_0000 == 0 then x << 1 else ((x ^ 0x9908_B0DF) << 1) | 1
  }

  lemma TwistRevealed(y: Word)
    ensures Untwist(Xor(Half(y), Mag01(y))) == y
  {
  }

  lemma UntwistRevealed(x: Word)
    ensures Xor(Half(Untwist(x)), Mag01(Untwist(x))) == x
  {
    if x & 0x8000_0000 == 0 {
      EvenRow(x);
    } else {
      OddRow(x);
    }
  }

  lemma EvenRow(x: Word)
    requires x & 0x8000_0000 == 0
    ensures Half(x << 1) == x && Mag01(x << 1) == 0 && Xor(x, 0) == x
  {
  }

  lemma OddRow(x: Word)
    requires x & 0x8000_0000 != 0
    ensures var y := ((x ^ 0x9908_B0DF) << 1) | 1;
            Half(y) == x ^ 0x9908_B0DF && Mag01(y) == 0x9908_B0DF && Xor(x ^ 0x9908_B0DF, 0x9908_B0DF) == x
  {
  }

  /** The live part of a window from the live part of the next one. */
  function Unslide(v: seq<Word>): seq<Word> {
    if |v| == N then
      var y := Untwist(Xor(v[N - 1], v[M - 1]));
      [y & 0x8000_0000, Splice(v[0], y)] + v[1..N - 1]
    else v
  }

  lemma SplitSplice(u: Word, v: Word)
    ensures Splice(u, v) & 0x8000_0000 == u & 0x8000_0000
    ensures Splice(v & 0x8000_0000, Splice(u, v)) == v
    ensures Splice(u & 0x8000_0000, v) == Splice(u, v)
  {
  }

  lemma UntwistNext(m: Word, y: Word)
    ensures Untwist(Xor(Twist(m, y), m)) == y
  {
    XorAssoc(m, Half(y), Mag01(y));
    XorComm(m, Xor(Half(y), Mag01(y)));
    XorCancels(Xor(Half(y), Mag01(y)), m);
    TwistRevealed(y);
    hide Xor, Half, Mag01, Untwist;
  }

  lemma LiveSlide(w: seq<Word>)
    requires |w| == N
    ensures Live(Slide(Next, w)) == [w[1] & 0x8000_0000] + w[2..] + [Next(w)]
  {
    hide Next;
  }

  lemma UnslideParts(top: Word, middle: seq<Word>, last: Word)
    requires |middle| == N - 2
    ensures var y := Untwist(Xor(last, middle[M - 2]));
            Unslide([top] + middle + [last]) == [y & 0x8000_0000, Splice(top, y)] + middle
  {
    hide Xor, Untwist, Splice;
  }

  lemma UndoOne(w: seq<Word>)
    requires |w| == N
    ensures UndoesAt(Next, Live, Unslide, w)
  {
    LiveSlide(w);
    UnslideParts(w[1] & 0x8000_0000, w[2..], Next(w));
    UntwistNext(w[M], Splice(w[0], w[1]));
    SplitSplice(w[0], w[1]);
    hide Xor, Twist, Untwist, Splice, Unslide, Slide;
  }

  lemma TwistCanBeUndone()
    ensures Undoes(Next, Live, Unslide, N)
  {
    hide UndoesAt;
    forall w: seq<Word> | |w| == N
      ensures UndoesAt(Next, Live, Unslide, w)
    {
      UndoOne(w);
    }
  }

  /** Any number of slides, in particular a whole batch, is injective on the live bits. */
  lemma TwistInjective(v: seq<Word>, w: seq<Word>, n: nat)
    requires |v| == |w| == N && Live(Run(Next, v, n)) == Live(Run(Next, w, n))
    ensures Live(v) == Live(w)
  {
    TwistCanBeUndone();
    RunInjective(Next, Live, Unslide, v, w, n);
  }

  /** It is also surjective: every live state has a predecessor. */
  lemma TwistSurjective(v: seq<Word>)
    requires |v| == N
    ensures |Unslide(Live(v))| == N && Live(Slide(Next, Unslide(Live(v)))) == Live(v)
  {
    hide Unslide, Slide, Next, Untwist, Splice, Xor, Twist, Live;
    var top, middle, last := v[0] & 0x8000_0000, v[1..N - 1], v[N - 1];
    LiveParts(v);
    var y := Untwist(Xor(last, middle[M - 2]));
    UnslideParts(top, middle, last);
    SurjectiveWord(last, middle[M - 2], top);
    TopOfTop(v[0], y);
    Rejoined([y & 0x8000_0000, Splice(top, y)] + middle, middle, last);
  }

  lemma LiveParts(v: seq<Word>)
    requires |v| == N
    ensures Live(v) == [v[0] & 0x8000_0000] + v[1..N - 1] + [v[N - 1]]
  {
  }

  lemma Rejoined(w: seq<Word>, middle: seq<Word>, last: Word)
    requires |w| == N && w[2..] == middle && Twist(middle[M - 2], Splice(w[0], w[1])) == last
    ensures Live(Slide(Next, w)) == [w[1] & 0x8000_0000] + middle + [last]
  {
    LiveSlide(w);
    hide Twist, Splice;
    assert w[M] == w[2..][M - 2];
  }

  lemma TopOfTop(u: Word, y: Word)
    ensures Splice(u & 0x8000_0000, y) & 0x8000_0000 == u & 0x8000_0000
  {
  }

  lemma SurjectiveWord(last: Word, m: Word, top: Word)
    ensures var y := Untwist(Xor(last, m));
            Twist(m, Splice(y & 0x8000_0000, Splice(top, y))) == last
  {
    var x := Xor(last, m);
    var y := Untwist(x);
    Resplice(top, y);
    UntwistRevealed(x);
    XorAssoc(m, Half(y), Mag01(y));
    XorComm(m, x);
    XorCancels(last, m);
    hide Xor, Half, Mag01, Untwist, Splice;
  }

  lemma Resplice(top: Word, y: Word)
    ensures Splice(y & 0x8000_0000, Splice(top, y)) == y
  {
  }

  lemma ZerosStay()
    ensures Slide(Next, ZeroWords(N)) == ZeroWords(N)
  {
    assert Next(ZeroWords(N)) == 0;
  }

  /** No run from a live state ever goes all zero. */
  lemma NeverAllZero(w: seq<Word>, n: nat)
    requires |w| == N && Live(w) != Live(ZeroWords(N))
    ensures Live(Run(Next, w, n)) != Live(ZeroWords(N))
  {
    TwistCanBeUndone();
    ZerosStay();
    hide Next, Live, Undoes, Unslide, ZeroWords;
    NeverReaches(Next, Live, Unslide, w, ZeroWords(N), n);
  }

  // ---------------------------------------------------------------- seeding

  function Down30(w: Word): Word { w >> 30 }

  function Fold30(w: Word): Word { Xor(w, Down30(w)) }

  function SeedStep(previous: Word, i: nat): Word
    requires i < N
  {
    Plus(Scale(Fold30(previous)), i as Word)
  }

  function Scale(w: Word): Word { 1812433253 * w }

  function SeedWord(s: Word, i: nat): Word
    requires i < N
  {
    if i == 0 then s else SeedStep(SeedWord(s, i - 1), i)
  }

  function Seeded(s: Word): (w: seq<Word>)
    ensures |w| == N
  {
    seq(N, i requires 0 <= i < N => SeedWord(s, i))
  }

  method Init(rng: MtState, s: Word)
    requires rng.mt.Length == N
    modifies rng`mti, rng.mt
    ensures rng.mti == N && rng.mt[..] == Seeded(s)
  {
    hide SeedStep;
    rng.mt[0] := s;
    rng.mti := 1;
    while rng.mti < N
      invariant 1 <= rng.mti <= N
      invariant forall i :: 0 <= i < rng.mti ==> rng.mt[i] == SeedWord(s, i)
    {
      rng.mt[rng.mti] := SeedStep(rng.mt[rng.mti - 1], rng.mti);
      rng.mti := rng.mti + 1;
    }
    assert rng.mt[..] == Seeded(s);
  }

  /** After seeding, output i is the tempered element 624 + i of the sequence the seed starts. */
  lemma SeededOutput(s: Word, i: nat)
    ensures Temper(Output(Next, Feed(Seeded(s), N), i)) == Temper(Stream(Next, Seeded(s), N + i))
  {
    hide Temper, Next, Seeded;
    OutputIsTempered(Feed(Seeded(s), N), i);
  }

  /** Whatever the seed, words 1 and 2 are not both zero. */
  lemma SeededIsLive(s: Word)
    ensures Live(Seeded(s)) != Live(ZeroWords(N))
  {
    ZeroStep();
    hide SeedStep;
    var w := Seeded(s);
    assert w[2] == SeedStep(w[1], 2);
    assert Live(w)[1] == w[1] && Live(w)[2] == w[2];
    assert Live(ZeroWords(N))[1] == 0 && Live(ZeroWords(N))[2] == 0;
  }

  /** No state reached from any seed is all zero. */
  lemma SeedNeverDies(s: Word, n: nat)
    ensures Live(Run(Next, Seeded(s), n)) != Live(ZeroWords(N))
  {
    SeededIsLive(s);
    hide Next, Live, ZeroWords, Seeded;
    NeverAllZero(Seeded(s), n);
  }

  lemma ZeroStep()
    ensures SeedStep(0, 2) == 2
  {
  }

  // ---------------------------------------------------------------- seeding by array

  function Max(a: int, b: int): int { if a > b then a else b }

  /** The words the two scrambling passes write, in order. Element n < 624 is word n of the
      first seeding; later elements mix the element written just before with the one written
      623 places before. The wrap of the array from word 623 to word 0 is invisible. */
  function Scrambled(key: seq<Word>, n: nat): Word
    requires |key| >= 1
    decreases n
  {
    if n < N then SeedWord(19650218, n)
    else
      var t := n - N;
      var previous := if t == 0 then Scrambled(key, 0) else Scrambled(key, n - 1);
      var old' := Scrambled(key, n - (N - 1));
      if t < Max(N, |key|) then KeyStep(old', previous, key[t % |key|], t % |key|)
      else IndexStep(old', previous, t % (N - 1) + 1)
  }

  function KeyStep(old': Word, previous: Word, k: Word, j: nat): Word {
    Plus(Plus(Xor(old', ScaleKey(Fold30(previous))), k), (j % 0x1_0000_0000) as Word)
  }

  function ScaleKey(w: Word): Word { 1664525 * w }

  function IndexStep(old': Word, previous: Word, i: nat): Word
    requires i < N
  {
    Minus(Xor(old', ScaleIndex(Fold30(previous))), i as Word)
  }

  function ScaleIndex(w: Word): Word { 1566083941 * w }

  /** The last 623 elements before n, placed as the array holds them. */
  function Held(key: seq<Word>, n: nat): (w: seq<Word>)
    requires |key| >= 1 && n >= N
    ensures |w| == N - 1
  {
    seq(N - 1, i requires 0 <= i < N - 1 => Scrambled(key, n - (N - 1) + i))
  }

  /** The array after t scrambling steps; i is the next slot. */
  ghost predicate Scrambling(rng: MtState, key: seq<Word>, t: nat, i: nat)
    reads rng.mt
  {
    && rng.mt.Length == N && |key| >= 1 && i == t % (N - 1) + 1
    && rng.mt[1..] == InPlace(Held(key, N + t), i - 1)
    && rng.mt[i - 1] == Previous(key, t)
  }

  function Previous(key: seq<Word>, t: nat): Word
    requires |key| >= 1
  {
    if t == 0 then Scrambled(key, 0) else Scrambled(key, N + t - 1)
  }

  lemma ScrambledStep(key: seq<Word>, t: nat)
    requires |key| >= 1
    ensures var old' := Scrambled(key, t + 1);
            Scrambled(key, N + t)
            == if t < Max(N, |key|) then KeyStep(old', Previous(key, t), key[t % |key|], t % |key|)
               else IndexStep(old', Previous(key, t), t % (N - 1) + 1)
  {
    hide KeyStep, IndexStep;
  }

  lemma HeldStep(key: seq<Word>, t: nat, i: nat)
    requires |key| >= 1 && i == t % (N - 1) + 1
    ensures InPlace(Held(key, N + t), i - 1)[i - 1] == Scrambled(key, t + 1)
    ensures InPlace(Held(key, N + t), i - 1)[i - 1 := Scrambled(key, N + t)]
         == InPlace(Held(key, N + t + 1), if i + 1 >= N then 0 else i)
    ensures (t + 1) % (N - 1) == if i + 1 >= N then 0 else i
  {
    hide Scrambled, Held, InPlace, Slide;
    NextSlot(t, i);
    var v, x := Held(key, N + t), Scrambled(key, N + t);
    HeldAt(key, N + t);
    HeldNext(key, N + t);
    InPlaceSlot(v, i - 1, 0);
    InPlaceStep(_ => x, v, i - 1);
    InPlaceWraps(Slide(_ => x, v));
  }

  lemma HeldAt(key: seq<Word>, n: nat)
    requires |key| >= 1 && n >= N
    ensures Held(key, n)[0] == Scrambled(key, n - (N - 1))
  {
    hide Scrambled;
  }

  lemma HeldNext(key: seq<Word>, n: nat)
    requires |key| >= 1 && n >= N
    ensures Held(key, n + 1) == Slide(_ => Scrambled(key, n), Held(key, n))
  {
    hide Scrambled;
  }

  lemma InPlaceWraps(v: seq<Word>)
    ensures InPlace(v, |v|) == InPlace(v, 0)
  {
  }

  lemma NextSlot(t: nat, i: nat)
    requires i == t % (N - 1) + 1
    ensures (t + 1) % (N - 1) == if i + 1 >= N then 0 else i
  {
    var q := t / (N - 1);
    assert t + 1 == (N - 1) * q + i;
    if i == N - 1 {
      assert t + 1 == (N - 1) * (q + 1);
    }
  }

  /** Store the new word, step the slot and close the wrap: shared by both passes. */
  method Place(rng: MtState, i: nat, word: Word, ghost key: seq<Word>, ghost t: nat) returns (next: nat)
    requires Scrambling(rng, key, t, i) && word == Scrambled(key, N + t)
    modifies rng.mt
    ensures Scrambling(rng, key, t + 1, next) && 1 <= next < N
  {
    hide Scrambled, Held, InPlace, Previous;
    HeldStep(key, t, i);
    PreviousNext(key, t);
    ghost var before := rng.mt[1..];
    rng.mt[i] := word;
    assert rng.mt[1..] == before[i - 1 := word];
    next := i + 1;
    if next >= N {
      rng.mt[0] := rng.mt[N - 1];
      next := 1;
    }
    assert rng.mt[1..] == before[i - 1 := word] && rng.mt[next - 1] == word;
  }

  lemma PreviousNext(key: seq<Word>, t: nat)
    requires |key| >= 1
    ensures Previous(key, t + 1) == Scrambled(key, N + t)
  {
    hide Scrambled;
  }

  method InitArray(rng: MtState, a: seq<Word>)
    requires rng.mt.Length == N && |a| >= 1
    modifies rng`mti, rng.mt
    ensures rng.mti == N && rng.mt[0] == 0x8000_0000
    ensures var last := Max(N, |a|) + N - 1;
            rng.mt[1..] == InPlace(Held(a, N + last), last % (N - 1))
  {
    Init(rng, 19650218);
    StartScrambling(rng, a);
    hide Scrambling, Held, InPlace;
    var i := MixInKey(rng, a);
    i := MixInIndex(rng, a, i);
    SlotReads(rng, a, Max(N, |a|) + N - 1, i);
    rng.mt[0] := 0x8000_0000;
  }

  method MixInKey(rng: MtState, a: seq<Word>) returns (i: nat)
    requires rng.mti == N && Scrambling(rng, a, 0, 1) && |a| >= 1
    modifies rng.mt
    ensures 1 <= i < N && Scrambling(rng, a, Max(N, |a|), i)
  {
    hide Scrambling, KeyStep, IndexStep, Scrambled;
    i := 1;
    var j, k := 0, Max(N, |a|);
    ghost var t := 0;
    while k > 0
      invariant k >= 0 && k + t == Max(N, |a|) && j == t % |a|
      invariant 1 <= i < N && Scrambling(rng, a, t, i)
    {
      ScrambledStep(a, t);
      SlotReads(rng, a, t, i);
      NextKey(t, |a|);
      var word := KeyStep(rng.mt[i], rng.mt[i - 1], a[j], j);
      i := Place(rng, i, word, a, t);
      j := j + 1;
      if j >= |a| {
        j := 0;
      }
      k := k - 1;
      t := t + 1;
    }
  }

  method MixInIndex(rng: MtState, ghost a: seq<Word>, i0: nat) returns (i: nat)
    requires 1 <= i0 < N && |a| >= 1 && Scrambling(rng, a, Max(N, |a|), i0)
    modifies rng.mt
    ensures 1 <= i < N && Scrambling(rng, a, Max(N, |a|) + N - 1, i)
  {
    hide Scrambling, KeyStep, IndexStep, Scrambled;
    i := i0;
    var k := N - 1;
    ghost var t := Max(N, |a|);
    while k > 0
      invariant 0 <= k && k + t == Max(N, |a|) + N - 1 && t >= Max(N, |a|)
      invariant 1 <= i < N && Scrambling(rng, a, t, i)
    {
      ScrambledStep(a, t);
      SlotReads(rng, a, t, i);
      var word := IndexStep(rng.mt[i], rng.mt[i - 1], i);
      i := Place(rng, i, word, a, t);
      k := k - 1;
      t := t + 1;
    }
  }

  lemma StartScrambling(rng: MtState, key: seq<Word>)
    requires rng.mt.Length == N && |key| >= 1 && rng.mt[..] == Seeded(19650218)
    ensures Scrambling(rng, key, 0, 1)
  {
    hide SeedWord;
    assert rng.mt[0] == rng.mt[..][0] == Scrambled(key, 0);
    forall s | 0 <= s < N - 1
      ensures rng.mt[1..][s] == Held(key, N)[s]
    {
      assert rng.mt[1..][s] == rng.mt[..][1 + s] == SeedWord(19650218, 1 + s) == Scrambled(key, 1 + s);
    }
    assert InPlace(Held(key, N), 0) == Held(key, N);
  }

  lemma SlotReads(rng: MtState, key: seq<Word>, t: nat, i: nat)
    requires 1 <= i && Scrambling(rng, key, t, i)
    ensures rng.mt.Length == N && i == t % (N - 1) + 1
    ensures rng.mt[i] == Scrambled(key, t + 1) && rng.mt[i - 1] == Previous(key, t)
    ensures rng.mt[1..] == InPlace(Held(key, N + t), i - 1)
  {
    HeldStep(key, t, i);
    assert rng.mt[i] == rng.mt[1..][i - 1];
  }

  lemma NextKey(t: nat, len: nat)
    requires len >= 1
    ensures (t + 1) % len == if t % len + 1 >= len then 0 else t % len + 1
  {
    var q, r := t / len, t % len;
    assert t == len * q + r;
    if r + 1 == len {
      assert t + 1 == len * (q + 1);
      RemainderIs(t + 1, len, q + 1, 0);
    } else {
      RemainderIs(t + 1, len, q, r + 1);
    }
  }

  /** The state every array seeding leaves stays live for ever. */
  lemma ArraySeedNeverDies(w: seq<Word>, n: nat)
    requires |w| == N && w[0] == 0x8000_0000
    ensures Live(Run(Next, w, n)) != Live(ZeroWords(N))
  {
    assert Live(w)[0] == 0x8000_0000 && Live(ZeroWords(N))[0] == 0;
    hide Next, Live, ZeroWords;
    NeverAllZero(w, n);
  }
}
