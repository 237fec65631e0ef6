/** GameCube stream cipher: 521 key words, each batch xored with the words 32 back. */
module GcCrypt {
  import opened Words
  import opened Lagged
  import opened CryptState
  import opened KeyStream

  const N := 521
  const LAG := 32

  /** The word recurrence s[m] = s[m-521] ^ s[m-32]. */
  function Next(w: seq<Word>): Word {
    if |w| == N then Xor(w[0], w[N - LAG]) else 0
  }

  ghost predicate Ready(cs: CryptSetup)
    reads cs
  {
    cs.keys.Length == KEY_WORDS && cs.gcBlockEndPtr == N
  }

  /** The key words in use and the index of the next word to hand out. */
  function State(cs: CryptSetup): Feed<Word>
    requires cs.keys.Length == KEY_WORDS
    reads cs, cs.keys
  {
    Feed(cs.keys[..N], cs.gcBlockPtr + 1)
  }

  method MixKeys(cs: CryptSetup)
    requires Ready(cs)
    modifies cs`gcBlockPtr, cs.keys
    ensures cs.keys[..N] == Run(Next, old(cs.keys[..N]), N)
    ensures cs.keys[N..] == old(cs.keys[N..])
    ensures cs.gcBlockPtr == 0
  {
    ghost var w := cs.keys[..N];
    cs.gcBlockPtr := 0;
    var r5, r6, r7 := 0, 489, 0;
    InPlaceBounds(Next, w);
    hide Run, InPlace, Slide, Next;
    while r6 != cs.gcBlockEndPtr
      invariant r6 == 489 + r5 && r6 <= N
      invariant cs.keys[..N] == InPlace(Run(Next, w, r5), r5)
      invariant cs.keys[N..] == old(cs.keys[N..]) && cs.gcBlockPtr == 0
      decreases N - r6
    {
      MixStep(w, cs.keys[..N], r5, r6);
      var r0 := cs.keys[r6];
      r6 := r6 + 1;
      var r4 := cs.keys[r5];
      r0 := r0 ^ r4;
      cs.keys[r5] := r0;
      r5 := r5 + 1;
    }
    while r5 != cs.gcBlockEndPtr
      invariant r7 == r5 - 32 && 32 <= r5 <= N
      invariant cs.keys[..N] == InPlace(Run(Next, w, r5), r5)
      invariant cs.keys[N..] == old(cs.keys[N..]) && cs.gcBlockPtr == 0
      decreases N - r5
    {
      MixStep(w, cs.keys[..N], r5, r7);
      var r0 := cs.keys[r7];
      r7 := r7 + 1;
      var r4 := cs.keys[r5];
      r0 := r0 ^ r4;
      cs.keys[r5] := r0;
      r5 := r5 + 1;
    }
  }

  /** Slot k renewed from slot j is one step of the recurrence, whichever loop chose j. */
  lemma MixStep(w: seq<Word>, a: seq<Word>, k: nat, j: nat)
    requires |w| == N && k < N && j < N
    requires a == InPlace(Run(Next, w, k), k)
    requires j == if k + 489 < N then k + 489 else k + 489 - N
    ensures a[k := a[j] ^ a[k]] == InPlace(Run(Next, w, k + 1), k + 1)
  {
    var v := Run(Next, w, k);
    InPlaceSlot(v, k, 0);
    InPlaceSlot(v, k, N - LAG);
    XorCommutes(a[j], a[k]);
    InPlaceStep(Next, v, k);
  }

  lemma XorCommutes(a: Word, b: Word)
    ensures a ^ b == Xor(b, a)
  {
  }

  method GetNextKey(cs: CryptSetup) returns (key: Word)
    requires Ready(cs) && cs.gcBlockPtr < N
    modifies cs`gcBlockPtr, cs.keys
    ensures Ready(cs) && cs.gcBlockPtr < N
    ensures (key, State(cs)) == Read(Next, old(State(cs)))
    ensures cs.keys[N..] == old(cs.keys[N..])
  {
    cs.gcBlockPtr := cs.gcBlockPtr + 1;
    if cs.gcBlockPtr == cs.gcBlockEndPtr {
      MixKeys(cs);
    }
    return cs.keys[cs.gcBlockPtr];
  }

  // ---------------------------------------------------------------- the fill

  function Advance(seed: Word): Word { Plus(Spread(seed), 1) }

  function Spread(seed: Word): Word { 0x5D58_8B65 * seed }

  function Lcg(seed: Word, n: nat): Word {
    if n == 0 then seed else Advance(Lcg(seed, n - 1))
  }

  /** The bit that step n of the congruential generator contributes. */
  predicate SeedBit(seed: Word, n: nat) {
    TopSet(Lcg(seed, n))
  }

  predicate TopSet(w: Word) { w & 0x8000_0000 != 0 }

  /** Shift one bit in from the top. */
  function Push(w: Word, bit: bool): Word {
    if bit then (w >> 1) | 0x8000_0000 else (w >> 1) & 0x7FFF_FFFF
  }

  /** The register after n bits. */
  function Pushed(seed: Word, n: nat): Word {
    if n == 0 then 0 else Push(Pushed(seed, n - 1), SeedBit(seed, n))
  }

  /** Word 16 keeps nine of its seeded bits; the rest restarts from words 0 and 15. */
  function Joint(w0: Word, w15: Word, w16: Word): Word {
    Xor(Xor(w0 >> 9, w16 << 23), w15)
  }

  /** Word x from words x-1, x-17 and x-16. */
  function Extend(w1: Word, w17: Word, w16: Word): Word {
    Xor(w1, Xor(And(w17 << 23, 0xFF80_0000), And(w16 >> 9, 0x007F_FFFF)))
  }

  function FillWord(seed: Word, x: nat): Word {
    if x < 16 then Pushed(seed, 32 * (x + 1))
    else if x == 16 then Joint(Pushed(seed, 32), Pushed(seed, 32 * 16), Pushed(seed, 32 * 17))
    else Extend(FillWord(seed, x - 1), FillWord(seed, x - 17), FillWord(seed, x - 16))
  }

  function Fill(seed: Word): (w: seq<Word>)
    ensures |w| == N
  {
    seq(N, x requires 0 <= x < N => FillWord(seed, x))
  }

  method PushTop(w: Word, seed: Word) returns (basekey: Word)
    ensures basekey == Push(w, TopSet(seed))
  {
    basekey := w >> 1;
    if seed & 0x8000_0000 != 0 {
      basekey := basekey | 0x8000_0000;
    } else {
      basekey := basekey & 0x7FFF_FFFF;
    }
  }

  method CreateKeys(cs: CryptSetup, seed: Word)
    requires cs.keys.Length == KEY_WORDS
    modifies cs`gcSeed, cs`gcBlockPtr, cs`gcBlockEndPtr, cs.keys
    ensures Ready(cs) && cs.gcSeed == seed && cs.gcBlockPtr == N - 1
    ensures cs.keys[..N] == Run(Next, Fill(seed), 3 * N)
    ensures cs.keys[N..] == old(cs.keys[N..])
  {
    cs.gcSeed := seed;
    cs.gcBlockEndPtr := 521;
    SeedKeys(cs, seed);
    ExtendKeys(cs, seed);
    hide Run, Next;
    ThreeBatches(Fill(seed));
    MixKeys(cs);
    MixKeys(cs);
    MixKeys(cs);
    cs.gcBlockPtr := 520;
  }

  lemma ThreeBatches(w: seq<Word>)
    requires |w| == N
    ensures Run(Next, Run(Next, Run(Next, w, N), N), N) == Run(Next, w, 3 * N)
  {
    hide Next;
    RunAdd(Next, w, N, N);
    RunAdd(Next, w, 2 * N, N);
  }

  /** The first 17 words: 544 bits of the congruential generator. */
  method SeedKeys(cs: CryptSetup, seed0: Word)
    requires Ready(cs)
    modifies cs`gcBlockPtr, cs.keys
    ensures cs.gcBlockPtr == 17
    ensures forall j :: 0 <= j < 17 ==> cs.keys[j] == Pushed(seed0, 32 * (j + 1))
    ensures cs.keys[N..] == old(cs.keys[N..])
  {
    hide Push, Advance, TopSet;
    var seed := seed0;
    var basekey: Word := 0;
    cs.gcBlockPtr := 0;
    for x := 0 to 17
      invariant cs.gcBlockPtr == x
      invariant seed == Lcg(seed0, 32 * x) && basekey == Pushed(seed0, 32 * x)
      invariant forall j :: 0 <= j < x ==> cs.keys[j] == Pushed(seed0, 32 * (j + 1))
      invariant cs.keys[N..] == old(cs.keys[N..])
    {
      for y := 0 to 32
        modifies {}
        invariant seed == Lcg(seed0, 32 * x + y) && basekey == Pushed(seed0, 32 * x + y)
      {
        seed := Advance(seed);
        basekey := PushTop(basekey, seed);
      }
      cs.keys[cs.gcBlockPtr] := basekey;
      cs.gcBlockPtr := cs.gcBlockPtr + 1;
    }
  }

  /** The other 504 words, and the rewritten word 16. */
  method ExtendKeys(cs: CryptSetup, ghost seed: Word)
    requires Ready(cs) && cs.gcBlockPtr == 17
    requires forall j :: 0 <= j < 17 ==> cs.keys[j] == Pushed(seed, 32 * (j + 1))
    modifies cs`gcBlockPtr, cs.keys
    ensures cs.keys[..N] == Fill(seed)
    ensures cs.keys[N..] == old(cs.keys[N..])
  {
    FillWordStart(seed);
    hide Pushed, Joint, Extend, FillWord, Fill;
    var source1, source2 := 0, 1;
    cs.gcBlockPtr := cs.gcBlockPtr - 1;
    cs.keys[cs.gcBlockPtr] := Joint(cs.keys[0], cs.keys[15], cs.keys[cs.gcBlockPtr]);
    var source3 := cs.gcBlockPtr;
    cs.gcBlockPtr := cs.gcBlockPtr + 1;
    while cs.gcBlockPtr != cs.gcBlockEndPtr
      invariant 17 <= cs.gcBlockPtr <= N
      invariant source1 == cs.gcBlockPtr - 17 && source2 == cs.gcBlockPtr - 16 && source3 == cs.gcBlockPtr - 1
      invariant forall j :: 0 <= j < cs.gcBlockPtr ==> cs.keys[j] == FillWord(seed, j)
      invariant cs.keys[N..] == old(cs.keys[N..])
      decreases N - cs.gcBlockPtr
    {
      FillWordNext(seed, cs.gcBlockPtr);
      cs.keys[cs.gcBlockPtr] := Extend(cs.keys[source3], cs.keys[source1], cs.keys[source2]);
      cs.gcBlockPtr := cs.gcBlockPtr + 1;
      source1 := source1 + 1;
      source2 := source2 + 1;
      source3 := source3 + 1;
    }
    FillFromWords(cs.keys[..], seed);
  }

  lemma FillWordStart(seed: Word)
    ensures forall j: nat :: j < 16 ==> FillWord(seed, j) == Pushed(seed, 32 * (j + 1))
    ensures FillWord(seed, 16) == Joint(Pushed(seed, 32), Pushed(seed, 32 * 16), Pushed(seed, 32 * 17))
  {
    hide Pushed, Joint, Extend;
  }

  lemma FillWordNext(seed: Word, x: nat)
    requires x >= 17
    ensures FillWord(seed, x) == Extend(FillWord(seed, x - 1), FillWord(seed, x - 17), FillWord(seed, x - 16))
  {
    hide Pushed, Joint, Extend;
  }

  lemma FillFromWords(keys: seq<Word>, seed: Word)
    requires |keys| >= N && forall j :: 0 <= j < N ==> keys[j] == FillWord(seed, j)
    ensures keys[..N] == Fill(seed)
  {
    hide FillWord;
  }

  // ---------------------------------------------------------------- use

  /** Part way through a buffer: n words of plain are done, and rest is beyond reach. */
  ghost predicate Progress(cs: CryptSetup, data: array<Byte>, s: Feed<Word>, plain: seq<Byte>, rest: seq<Word>, n: nat)
    reads cs, cs.keys, data
  {
    && Ready(cs) && cs.gcBlockPtr < N && cs.keys[N..] == rest
    && s.Valid() && 4 * n <= |plain|
    && State(cs) == After(Next, s, n)
    && data[..] == MaskedTo(Next, s, plain, n)
  }

  method CryptWord(cs: CryptSetup, data: array<Byte>, address: nat,
                   ghost s: Feed<Word>, ghost plain: seq<Byte>, ghost rest: seq<Word>, ghost n: nat)
    requires Progress(cs, data, s, plain, rest, n) && address == 4 * n && address + 4 <= data.Length
    modifies cs`gcBlockPtr, cs.keys, data
    ensures Progress(cs, data, s, plain, rest, n + 1)
  {
    ReadAt(Next, s, n);
    MaskStep(Next, s, plain, n);
    hide Next, Read, After, Output, MaskedTo, XoredAt;
    var tmp := GetNextKey(cs);
    XorWord(data, address, tmp);
  }

  method CryptData(cs: CryptSetup, data: array<Byte>, size: nat)
    requires Ready(cs) && cs.gcBlockPtr < N
    requires size <= data.Length && size % 4 == 0
    modifies cs`gcBlockPtr, cs.keys, data
    ensures Ready(cs) && cs.gcBlockPtr < N
    ensures State(cs) == After(Next, old(State(cs)), size / 4)
    ensures cs.keys[N..] == old(cs.keys[N..])
    ensures data[..] == Mask(Next, old(State(cs)), old(data[..size])) + old(data[size..])
  {
    ghost var s, plain, rest, words := State(cs), data[..], cs.keys[N..], size / 4;
    WholeWords(size, words);
    assert plain[..size] == data[..size] && plain[size..] == data[size..];
    MaskedBounds(Next, s, plain, words);
    CryptWords(cs, data, size, s, plain, rest, words);
  }

  method CryptWords(cs: CryptSetup, data: array<Byte>, size: nat,
                    ghost s: Feed<Word>, ghost plain: seq<Byte>, ghost rest: seq<Word>, ghost words: nat)
    requires Progress(cs, data, s, plain, rest, 0) && size == 4 * words && size <= data.Length
    modifies cs`gcBlockPtr, cs.keys, data
    ensures Progress(cs, data, s, plain, rest, words)
  {
    hide Progress;
    var address := 0;
    ghost var n := 0;
    while address < size
      invariant address == 4 * n && n <= words
      invariant Progress(cs, data, s, plain, rest, n)
    {
      CryptWord(cs, data, address, s, plain, rest, n);
      address := address + 4;
      n := n + 1;
    }
  }
}
