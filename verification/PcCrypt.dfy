/** PC/Dreamcast stream cipher: Knuth's subtractive generator over 55 words, kept in
    keys[1..56]. */
module PcCrypt {
  import opened Words
  import opened Lagged
  import opened CryptState
  import opened KeyStream

  const N := 55
  const LAG := 24

  /** The recurrence X[n] = X[n-55] - X[n-24]. */
  function Next(w: seq<Word>): Word {
    if |w| == N then Minus(w[0], w[N - LAG]) else 0
  }

  ghost predicate Ready(cs: CryptSetup)
    reads cs
  {
    cs.keys.Length == KEY_WORDS && 1 <= cs.pcPosn <= N + 1
  }

  function State(cs: CryptSetup): Feed<Word>
    requires cs.keys.Length == KEY_WORDS && cs.pcPosn >= 1
    reads cs, cs.keys
  {
    Feed(cs.keys[1..N + 1], cs.pcPosn - 1)
  }

  /** What the cipher never touches: slot 0 and everything past slot 55. */
  ghost function Rest(cs: CryptSetup): (Word, seq<Word>)
    requires cs.keys.Length == KEY_WORDS
    reads cs, cs.keys
  {
    (cs.keys[0], cs.keys[N + 1..])
  }

  /** Part way through a batch that started from w: k slots are renewed. */
  ghost predicate Mixing(cs: CryptSetup, w: seq<Word>, rest: (Word, seq<Word>), k: nat)
    reads cs, cs.keys
  {
    && cs.keys.Length == KEY_WORDS && |w| == N && k <= N
    && cs.keys[1..N + 1] == InPlace(Run(Next, w, k), k)
    && Rest(cs) == rest
  }

  /** One pass of either mixing loop: slot eax less slot other. */
  method MixSlot(cs: CryptSetup, eax: nat, other: nat, ghost w: seq<Word>, ghost rest: (Word, seq<Word>))
    requires 1 <= eax <= N && Mixing(cs, w, rest, eax - 1)
    requires other == if eax < 25 then eax + 0x1F else eax - 0x18
    modifies cs.keys
    ensures Mixing(cs, w, rest, eax)
  {
    hide Run, InPlace, Minus;
    ghost var a := cs.keys[1..N + 1];
    MixStep(w, a, eax - 1, other - 1);
    var esi := cs.keys[other];
    var ebp := cs.keys[eax];
    ebp := Minus(ebp, esi);
    cs.keys[eax] := ebp;
    assert cs.keys[1..N + 1] == a[eax - 1 := ebp];
  }

  method MixKeys(cs: CryptSetup)
    requires cs.keys.Length == KEY_WORDS
    modifies cs.keys
    ensures cs.keys[1..N + 1] == Run(Next, old(cs.keys[1..N + 1]), N)
    ensures Rest(cs) == old(Rest(cs))
  {
    ghost var w, rest := cs.keys[1..N + 1], Rest(cs);
    InPlaceBounds(Next, w);
    var eax, edx := 1, 0x18;
    while edx > 0
      invariant eax + edx == 25 && eax >= 1
      invariant Mixing(cs, w, rest, eax - 1)
    {
      hide Mixing;
      MixSlot(cs, eax, eax + 0x1F, w, rest);
      eax := eax + 1;
      edx := edx - 1;
    }
    eax, edx := 0x19, 0x1F;
    while edx > 0
      invariant eax + edx == 56 && eax >= 25
      invariant Mixing(cs, w, rest, eax - 1)
    {
      hide Mixing;
      MixSlot(cs, eax, eax - 0x18, w, rest);
      eax := eax + 1;
      edx := edx - 1;
    }
  }

  /** Slot k renewed from slot j is one step of the recurrence, whichever loop chose j. */
  lemma MixStep(w: seq<Word>, a: seq<Word>, k: nat, j: nat)
    requires |w| == N && k < N && j < N
    requires a == InPlace(Run(Next, w, k), k)
    requires j == if k + 31 < N then k + 31 else k + 31 - N
    ensures a[k := Minus(a[k], a[j])] == InPlace(Run(Next, w, k + 1), k + 1)
  {
    var v := Run(Next, w, k);
    InPlaceSlot(v, k, 0);
    InPlaceSlot(v, k, N - LAG);
    InPlaceStep(Next, v, k);
    hide Minus;
  }

  // ---------------------------------------------------------------- the fill

  /** The alternating Fibonacci-like sequence the fill scatters. */
  function U(seed: Word, k: nat): Word {
    if k == 0 then seed else if k == 1 then 1 else Minus(U(seed, k - 2), U(seed, k - 1))
  }

  /** The scatter: step k goes to slot 21k mod 55. */
  function Scatter(k: nat): (j: nat)
    ensures j < N
  {
    21 * k % N
  }

  /** 21 is its own inverse modulo 55, so the scatter visits every slot exactly once. */
  lemma ScatterTwice(k: nat)
    requires k < N
    ensures Scatter(Scatter(k)) == k
  {
    var q, s := 21 * k / 55, 21 * k % 55;
    assert 21 * s == 55 * (8 * k - 21 * q) + k;
    RemainderIs(21 * s, 55, 8 * k - 21 * q, k);
  }

  lemma ScatterZero()
    ensures Scatter(0) == 0 == Scatter(N)
    ensures forall j :: 1 <= j < N ==> Scatter(j) != 0
  {
    forall j | 1 <= j < N
      ensures Scatter(j) != 0
    {
      ScatterTwice(j);
    }
  }

  function Fill(seed: Word): (w: seq<Word>)
    ensures |w| == N
  {
    seq(N, i requires 0 <= i < N => U(seed, Scatter(i + 1)))
  }

  method CreateKeys(cs: CryptSetup, val: Word)
    requires cs.keys.Length == KEY_WORDS
    modifies cs`pcPosn, cs.keys
    ensures Ready(cs) && cs.pcPosn == N + 1
    ensures cs.keys[1..N + 1] == Run(Next, Fill(val), 4 * N)
    ensures Rest(cs) == (old(cs.keys[0]), [val] + old(cs.keys[N + 2..]))
  {
    FillKeys(cs, val);
    hide Run, Next;
    FourBatches(Fill(val));
    MixKeys(cs);
    MixKeys(cs);
    MixKeys(cs);
    MixKeys(cs);
    cs.pcPosn := 56;
  }

  lemma FourBatches(w: seq<Word>)
    requires |w| == N
    ensures Run(Next, Run(Next, Run(Next, Run(Next, w, N), N), N), N) == Run(Next, w, 4 * N)
  {
    hide Next;
    RunAdd(Next, w, N, N);
    RunAdd(Next, w, 2 * N, N);
    RunAdd(Next, w, 3 * N, N);
  }

  method FillKeys(cs: CryptSetup, val: Word)
    requires cs.keys.Length == KEY_WORDS
    modifies cs.keys
    ensures cs.keys[1..N + 1] == Fill(val)
    ensures Rest(cs) == (old(cs.keys[0]), [val] + old(cs.keys[N + 2..]))
  {
    ScatterZero();
    hide Minus, Scatter, Fill;
    var esi, ebx, edi := 1, val, 0x15;
    cs.keys[56] := ebx;
    cs.keys[55] := ebx;
    ghost var k := 1;
    assert cs.keys[N + 1..] == [val] + old(cs.keys[N + 2..]);
    while edi <= 0x46E
      invariant 1 <= k <= N && edi == 21 * k
      invariant esi == U(val, k) && ebx == U(val, k - 1)
      invariant forall j :: 1 <= j < N && Scatter(j) < k ==> cs.keys[j] == U(val, Scatter(j))
      invariant cs.keys[55] == val
      invariant Rest(cs) == (old(cs.keys[0]), [val] + old(cs.keys[N + 2..]))
      decreases N - k
    {
      var eax := edi;
      var var1 := eax / 55;
      var edx := eax - (var1 * 55);
      ScatterStep(k);
      ebx := Minus(ebx, esi);
      edi := edi + 0x15;
      cs.keys[edx] := esi;
      esi := ebx;
      ebx := cs.keys[edx];
      k := k + 1;
    }
    FillFromSlots(cs.keys[..], val);
  }

  lemma FillFromSlots(keys: seq<Word>, val: Word)
    requires |keys| > N && forall j :: 1 <= j <= N ==> keys[j] == U(val, Scatter(j))
    ensures keys[1..N + 1] == Fill(val)
  {
    hide U, Scatter;
  }

  lemma ScatterStep(k: nat)
    requires 1 <= k < N
    ensures 21 * k - (21 * k / 55) * 55 == Scatter(k) && 1 <= Scatter(k) < N
    ensures forall j :: 1 <= j < N ==> (Scatter(j) == k <==> j == Scatter(k))
  {
    ScatterTwice(k);
    ScatterZero();
    forall j | 1 <= j < N && Scatter(j) == k
      ensures j == Scatter(k)
    {
      ScatterTwice(j);
    }
  }

  // ---------------------------------------------------------------- use

  method GetNextKey(cs: CryptSetup) returns (re: Word)
    requires Ready(cs)
    modifies cs`pcPosn, cs.keys
    ensures Ready(cs)
    ensures (re, State(cs)) == Read(Next, old(State(cs)))
    ensures Rest(cs) == old(Rest(cs))
  {
    hide Next, Run;
    if cs.pcPosn == 56 {
      MixKeys(cs);
      cs.pcPosn := 1;
    }
    re := cs.keys[cs.pcPosn];
    cs.pcPosn := cs.pcPosn + 1;
  }

  /** Part way through a buffer: n words of plain are done. */
  ghost predicate Progress(cs: CryptSetup, data: array<Byte>, s: Feed<Word>, plain: seq<Byte>,
                           rest: (Word, seq<Word>), n: nat)
    reads cs, cs.keys, data
  {
    && Ready(cs) && Rest(cs) == rest
    && s.Valid() && 4 * n <= |plain|
    && State(cs) == After(Next, s, n)
    && data[..] == MaskedTo(Next, s, plain, n)
  }

  method CryptWord(cs: CryptSetup, data: array<Byte>, x: nat,
                   ghost s: Feed<Word>, ghost plain: seq<Byte>, ghost rest: (Word, seq<Word>), ghost n: nat)
    requires Progress(cs, data, s, plain, rest, n) && x == 4 * n && x + 4 <= data.Length
    modifies cs`pcPosn, cs.keys, data
    ensures Progress(cs, data, s, plain, rest, n + 1)
  {
    ReadAt(Next, s, n);
    MaskStep(Next, s, plain, n);
    hide Next, Read, After, Output, MaskedTo, XoredAt;
    var tmp := GetNextKey(cs);
    XorWord(data, x, tmp);
  }

  /** The 32-bit byte counter reaches every size below 2^32, and no larger one. */
  method CryptData(cs: CryptSetup, data: array<Byte>, size: nat)
    requires Ready(cs)
    requires size <= data.Length && size % 4 == 0 && size < 0x1_0000_0000
    modifies cs`pcPosn, cs.keys, data
    ensures Ready(cs)
    ensures State(cs) == After(Next, old(State(cs)), size / 4)
    ensures Rest(cs) == old(Rest(cs))
    ensures data[..] == Mask(Next, old(State(cs)), old(data[..size])) + old(data[size..])
  {
    ghost var s, plain, rest, words := State(cs), data[..], Rest(cs), size / 4;
    WholeWords(size, words);
    assert plain[..size] == data[..size] && plain[size..] == data[size..];
    MaskedBounds(Next, s, plain, words);
    CryptWords(cs, data, size, s, plain, rest, words);
  }

  method CryptWords(cs: CryptSetup, data: array<Byte>, size: nat,
                    ghost s: Feed<Word>, ghost plain: seq<Byte>, ghost rest: (Word, seq<Word>), ghost words: nat)
    requires Progress(cs, data, s, plain, rest, 0) && size == 4 * words && size <= data.Length
    modifies cs`pcPosn, cs.keys, data
    ensures Progress(cs, data, s, plain, rest, words)
  {
    hide Progress;
    var x := 0;
    ghost var n := 0;
    while x < size
      invariant x == 4 * n && n <= words
      invariant Progress(cs, data, s, plain, rest, n)
    {
      CryptWord(cs, data, x, s, plain, rest, n);
      x := x + 4;
      n := n + 1;
    }
  }
}
