/** The PC key stream as one subtractive recurrence, and the shape of its seed fill. */
module PcRecurrence {
  import opened Words
  import opened Lagged
  import opened PcCrypt

  /** The infinite key sequence: slots 1..55 after the fill, then every mixed batch. */
  function KeyWord(seed: Word, n: nat): Word {
    Stream(Next, Fill(seed), n)
  }

  lemma KeyWordFilled(seed: Word, n: nat)
    requires n < 55
    ensures KeyWord(seed, n) == U(seed, 21 * (n + 1) % 55)
  {
    hide U, Scatter;
    WindowIsStream(Next, Fill(seed), 0, n);
    ScatterIs(n + 1);
  }

  lemma ScatterIs(k: nat)
    ensures Scatter(k) == 21 * k % 55
  {
  }

  lemma KeyWordMixed(seed: Word, n: nat)
    requires n >= 55
    ensures KeyWord(seed, n) == Minus(KeyWord(seed, n - 55), KeyWord(seed, n - 24))
  {
    hide Minus, Fill;
    Recurrence(Next, Fill(seed), n - N);
    WindowIsStream(Next, Fill(seed), n - N, 0);
    WindowIsStream(Next, Fill(seed), n - N, N - LAG);
  }

  /** The state CreateKeys leaves hands out the sequence from word 5 * 55 on. */
  lemma OutputAfterCreate(seed: Word, k: nat)
    ensures Output(Next, Feed(Run(Next, Fill(seed), 4 * N), N), k) == KeyWord(seed, 275 + k)
  {
    OutputIsStream(Next, Feed(Run(Next, Fill(seed), 4 * N), N), k);
    StreamAdd(Next, Fill(seed), 4 * N, N + k);
  }

  // ---------------------------------------------------------------- the fill in closed form

  /** n * w modulo 2^32. */
  function Times(n: nat, w: Word): Word {
    if n == 0 then 0 else Plus(Times(n - 1, w), w)
  }

  lemma {:induction false} TimesAdd(m: nat, n: nat, w: Word)
    ensures Times(m + n, w) == Plus(Times(m, w), Times(n, w))
  {
    hide Plus;
    if n == 0 {
      PlusZero(Times(m, w));
    } else {
      TimesAdd(m, n - 1, w);
      PlusAssoc(Times(m, w), Times(n - 1, w), w);
    }
  }

  lemma PlusZero(a: Word)
    ensures Plus(a, 0) == a
  {
  }

  function Fib(k: nat): nat {
    if k < 2 then k else Fib(k - 2) + Fib(k - 1)
  }

  /** Step k of the fill is (-1)^k (Fib(k-1) * seed - Fib(k)) modulo 2^32. */
  lemma FillClosedForm(seed: Word, k: nat)
    requires k >= 1
    ensures U(seed, k) == if k % 2 == 0 then Minus(Times(Fib(k - 1), seed), Times(Fib(k), 1))
                          else Minus(Times(Fib(k), 1), Times(Fib(k - 1), seed))
  {
    hide Minus, Times, Fib;
    FillIsClosed(seed, k);
  }

  lemma {:induction false} FillIsClosed(seed: Word, k: nat)
    requires k >= 1
    ensures U(seed, k) == Closed(seed, k)
  {
    hide Minus, Closed;
    if k < 3 {
      ClosedStart(seed);
    } else {
      FillIsClosed(seed, k - 2);
      FillIsClosed(seed, k - 1);
      ClosedNext(seed, k);
    }
  }

  function Closed(seed: Word, k: nat): Word
    requires k >= 1
  {
    var f, g := Times(Fib(k - 1), seed), Times(Fib(k), 1);
    if k % 2 == 0 then Minus(f, g) else Minus(g, f)
  }

  lemma ClosedStart(seed: Word)
    ensures Closed(seed, 1) == 1 && Closed(seed, 2) == Minus(seed, 1)
  {
    Small(seed);
    hide Minus, Times;
  }

  lemma ClosedNext(seed: Word, k: nat)
    requires k >= 3
    ensures Closed(seed, k) == Minus(Closed(seed, k - 2), Closed(seed, k - 1))
  {
    hide Minus, Plus, Times;
    TimesAdd(Fib(k - 2), Fib(k - 1), 1);
    TimesAdd(Fib(k - 3), Fib(k - 2), seed);
    var a, b := Times(Fib(k - 2), 1), Times(Fib(k - 1), 1);
    var c, d := Times(Fib(k - 3), seed), Times(Fib(k - 2), seed);
    DifferenceOfDifferences(a, b, c, d);
    DifferenceOfDifferences(c, d, a, b);
  }

  lemma Small(seed: Word)
    ensures Times(0, seed) == 0 && Times(1, seed) == seed && Times(1, 1) == 1
    ensures Minus(1, 0) == 1
  {
  }

  lemma Regroup(a: Word, b: Word, c: Word, d: Word)
    ensures Minus(c - a, b - d) == Minus(c + d, a + b)
  {
  }

  lemma DifferenceOfDifferences(a: Word, b: Word, c: Word, d: Word)
    ensures Minus(Minus(c, a), Minus(b, d)) == Minus(Plus(c, d), Plus(a, b))
  {
    hide Minus, Plus;
    MinusIs(c, a);
    MinusIs(b, d);
    PlusIs(c, d);
    PlusIs(a, b);
    Regroup(a, b, c, d);
  }

  // ---------------------------------------------------------------- the mix as an invertible map

  function Unslide(w: seq<Word>): seq<Word> {
    if |w| == N then [Plus(w[N - 1], w[N - LAG - 1])] + w[..N - 1] else w
  }

  lemma PlusUndoesMinus(a: Word, b: Word)
    ensures Plus(Minus(a, b), b) == a
  {
    hide Minus, Plus;
    MinusIs(a, b);
    Restore(a, b);
  }

  lemma Restore(a: Word, b: Word)
    ensures Plus(a - b, b) == a
  {
  }

  lemma UndoOne(w: seq<Word>)
    requires |w| == N
    ensures UndoesAt(Next, Same, Unslide, w)
  {
    PlusUndoesMinus(w[0], w[N - LAG]);
    hide Plus, Minus;
    assert Unslide(Slide(Next, w)) == w;
  }

  lemma MixCanBeUndone()
    ensures Undoes(Next, Same, Unslide, N)
  {
    hide UndoesAt;
    forall w: seq<Word> | |w| == N
      ensures UndoesAt(Next, Same, Unslide, w)
    {
      UndoOne(w);
    }
  }

  lemma ZerosStay()
    ensures Slide(Next, ZeroWords(N)) == ZeroWords(N)
  {
    assert Next(ZeroWords(N)) == 0;
  }

  lemma MixInjective(v: seq<Word>, w: seq<Word>, n: nat)
    requires |v| == |w| == N && Run(Next, v, n) == Run(Next, w, n)
    ensures v == w
  {
    MixCanBeUndone();
    RunInjective(Next, Same, Unslide, v, w, n);
  }

  /** Whatever the seed, no run reaches the all-zero state: the fill always holds a 1. */
  lemma StateNeverDies(seed: Word, n: nat)
    ensures Run(Next, Fill(seed), n) != ZeroWords(N)
  {
    MixCanBeUndone();
    ZerosStay();
    FillHoldsOne(seed);
    hide Next, Fill, Undoes, Unslide;
    NeverReaches(Next, Same, Unslide, Fill(seed), ZeroWords(N), n);
  }

  lemma FillHoldsOne(seed: Word)
    ensures Fill(seed)[20] == 1 && ZeroWords(N)[20] == 0
  {
    assert Scatter(21) == 1;
  }
}
