/** Lagged generators: the newest element is a fixed function of the last n elements.
    The GameCube, PC and MT19937 generators are three instances. Each keeps its last n
    elements in an array that it renews in place, batch by batch. */
module Lagged {

  /** One step: drop the oldest element of the window, append the new one. */
  function Slide<T>(f: seq<T> -> T, w: seq<T>): (v: seq<T>)
    requires |w| > 0
    ensures |v| == |w|
  {
    w[1..] + [f(w)]
  }

  function Run<T>(f: seq<T> -> T, w: seq<T>, n: nat): (v: seq<T>)
    requires |w| > 0
    ensures |v| == |w|
  {
    if n == 0 then w else Slide(f, Run(f, w, n - 1))
  }

  /** The infinite sequence that starts with w. */
  function Stream<T>(f: seq<T> -> T, w: seq<T>, n: nat): T
    requires |w| > 0
  {
    Run(f, w, n)[0]
  }

  lemma {:induction false} RunAdd<T>(f: seq<T> -> T, w: seq<T>, m: nat, n: nat)
    requires |w| > 0
    ensures Run(f, Run(f, w, m), n) == Run(f, w, m + n)
  {
    if n == 0 {
    } else {
      RunAdd(f, w, m, n - 1);
    }
  }

  lemma StreamAdd<T>(f: seq<T> -> T, w: seq<T>, m: nat, n: nat)
    requires |w| > 0
    ensures Stream(f, Run(f, w, m), n) == Stream(f, w, m + n)
  {
    RunAdd(f, w, m, n);
  }

  /** Every window shows |w| consecutive elements of the stream. */
  lemma {:induction false} WindowIsStream<T>(f: seq<T> -> T, w: seq<T>, n: nat, i: nat)
    requires i < |w|
    ensures Run(f, w, n)[i] == Stream(f, w, n + i)
    decreases i
  {
    if i == 0 {
    } else {
      WindowIsStream(f, w, n + 1, i - 1);
    }
  }

  /** The stream obeys the generator's recurrence from element |w| on. */
  lemma Recurrence<T>(f: seq<T> -> T, w: seq<T>, n: nat)
    requires |w| > 0
    ensures Stream(f, w, n + |w|) == f(Run(f, w, n))
  {
    WindowIsStream(f, w, n + 1, |w| - 1);
  }

  // ---------------------------------------------------------------- renewal in place

  /** The array during a batch: the k newest elements in slots 0..k, older ones behind. */
  function InPlace<T>(v: seq<T>, k: nat): (a: seq<T>)
    requires k <= |v|
    ensures |a| == |v|
  {
    v[|v| - k..] + v[..|v| - k]
  }

  /** Which slot shows element d of the window: k + d, wrapped once. */
  lemma InPlaceSlot<T>(v: seq<T>, k: nat, d: nat)
    requires k <= |v| && d < |v|
    ensures InPlace(v, k)[if k + d < |v| then k + d else k + d - |v|] == v[d]
  {
  }

  /** Overwriting slot k with the new element is one slide of the window. */
  lemma InPlaceStep<T>(f: seq<T> -> T, v: seq<T>, k: nat)
    requires k < |v|
    ensures InPlace(v, k)[k := f(v)] == InPlace(Slide(f, v), k + 1)
  {
  }

  /** A batch starts with the old array and ends with the new window. */
  lemma InPlaceBounds<T>(f: seq<T> -> T, w: seq<T>)
    requires |w| > 0
    ensures InPlace(Run(f, w, 0), 0) == w && InPlace(Run(f, w, |w|), |w|) == Run(f, w, |w|)
  {
  }

  // ---------------------------------------------------------------- batches and a read position

  /** The array and the slot to read next; a full pass triggers the next batch. */
  datatype Feed<T> = Feed(window: seq<T>, next: nat) {
    predicate Valid() { 0 < |window| && next <= |window| }
  }

  function Refill<T>(f: seq<T> -> T, s: Feed<T>): (r: Feed<T>)
    requires s.Valid()
    ensures r.Valid() && r.next < |r.window| == |s.window|
  {
    if s.next == |s.window| then Feed(Run(f, s.window, |s.window|), 0) else s
  }

  /** One read: the element and the state after it. */
  function Read<T>(f: seq<T> -> T, s: Feed<T>): (r: (T, Feed<T>))
    requires s.Valid()
    ensures r.1.Valid() && |r.1.window| == |s.window| && r.1.next > 0
  {
    var r := Refill(f, s);
    (r.window[r.next], r.(next := r.next + 1))
  }

  function After<T>(f: seq<T> -> T, s: Feed<T>, k: nat): (r: Feed<T>)
    requires s.Valid()
    ensures r.Valid() && |r.window| == |s.window|
  {
    if k == 0 then s else Read(f, After(f, s, k - 1)).1
  }

  /** The k-th element read from s. */
  function Output<T>(f: seq<T> -> T, s: Feed<T>, k: nat): T
    requires s.Valid()
  {
    Read(f, After(f, s, k)).0
  }

  /** A state's future: what its k-th read will be, with no reference to batches. */
  function Future<T>(f: seq<T> -> T, s: Feed<T>, k: nat): T
    requires s.Valid()
  {
    Stream(f, s.window, s.next + k)
  }

  lemma RefillKeepsFuture<T>(f: seq<T> -> T, s: Feed<T>, k: nat)
    requires s.Valid()
    ensures Future(f, Refill(f, s), k) == Future(f, s, k)
  {
    if s.next == |s.window| {
      StreamAdd(f, s.window, |s.window|, k);
    }
  }

  lemma {:induction false} AfterShiftsFuture<T>(f: seq<T> -> T, s: Feed<T>, k: nat, j: nat)
    requires s.Valid()
    ensures Future(f, After(f, s, k), j) == Future(f, s, k + j)
    decreases k
  {
    if k == 0 {
    } else {
      hide Read, Future;
      ReadShiftsFuture(f, After(f, s, k - 1), j);
      AfterShiftsFuture(f, s, k - 1, j + 1);
    }
  }

  lemma ReadShiftsFuture<T>(f: seq<T> -> T, s: Feed<T>, j: nat)
    requires s.Valid()
    ensures Future(f, Read(f, s).1, j) == Future(f, s, j + 1)
  {
    hide Stream;
    RefillKeepsFuture(f, s, j + 1);
  }

  /** Batches are invisible: read k of any run is element next + k of the stream. */
  lemma OutputIsStream<T>(f: seq<T> -> T, s: Feed<T>, k: nat)
    requires s.Valid()
    ensures Output(f, s, k) == Stream(f, s.window, s.next + k)
  {
    var t := After(f, s, k);
    var r := Refill(f, t);
    RefillKeepsFuture(f, t, 0);
    WindowIsStream(f, r.window, 0, r.next);
    AfterShiftsFuture(f, s, k, 0);
  }

  lemma {:induction false} AfterAdd<T>(f: seq<T> -> T, s: Feed<T>, m: nat, n: nat)
    requires s.Valid()
    ensures After(f, After(f, s, m), n) == After(f, s, m + n)
    decreases n
  {
    hide Read;
    if n == 0 {
    } else {
      AfterAdd(f, s, m, n - 1);
    }
  }

  // ---------------------------------------------------------------- running backwards

  /** The part of a window that decides the future is live(w); undo recovers it from the
      live part of the next window. */
  ghost predicate UndoesAt<T>(f: seq<T> -> T, live: seq<T> -> seq<T>, undo: seq<T> -> seq<T>, w: seq<T>)
    requires |w| > 0
  {
    undo(live(Slide(f, w))) == live(w)
  }

  /** The live part of a window all of which matters. */
  function Same<T>(w: seq<T>): seq<T> { w }

  ghost predicate Undoes<T(!new)>(f: seq<T> -> T, live: seq<T> -> seq<T>, undo: seq<T> -> seq<T>, n: nat)
    requires n > 0
  {
    forall w: seq<T> :: |w| == n ==> UndoesAt(f, live, undo, w)
  }

  lemma SlideInjective<T(!new)>(f: seq<T> -> T, live: seq<T> -> seq<T>, undo: seq<T> -> seq<T>,
                                v: seq<T>, w: seq<T>)
    requires |v| == |w| > 0 && Undoes(f, live, undo, |v|)
    requires live(Slide(f, v)) == live(Slide(f, w))
    ensures live(v) == live(w)
  {
    assert UndoesAt(f, live, undo, v) && UndoesAt(f, live, undo, w);
  }

  /** If one slide can be undone, runs of any length never merge two states. */
  lemma {:induction false} RunInjective<T(!new)>(f: seq<T> -> T, live: seq<T> -> seq<T>, undo: seq<T> -> seq<T>,
                                                 v: seq<T>, w: seq<T>, n: nat)
    requires |v| == |w| > 0 && Undoes(f, live, undo, |v|)
    requires live(Run(f, v, n)) == live(Run(f, w, n))
    ensures live(v) == live(w)
  {
    hide Undoes, Slide;
    if n == 0 {
    } else {
      SlideInjective(f, live, undo, Run(f, v, n - 1), Run(f, w, n - 1));
      RunInjective(f, live, undo, v, w, n - 1);
    }
  }

  lemma {:induction false} FixedPoint<T>(f: seq<T> -> T, w: seq<T>, n: nat)
    requires |w| > 0 && Slide(f, w) == w
    ensures Run(f, w, n) == w
  {
    if n == 0 {
    } else {
      FixedPoint(f, w, n - 1);
    }
  }

  /** A run that starts off a fixed point never reaches it. */
  lemma NeverReaches<T(!new)>(f: seq<T> -> T, live: seq<T> -> seq<T>, undo: seq<T> -> seq<T>,
                              w: seq<T>, zero: seq<T>, n: nat)
    requires |w| == |zero| > 0 && Undoes(f, live, undo, |w|)
    requires Slide(f, zero) == zero && live(w) != live(zero)
    ensures live(Run(f, w, n)) != live(zero)
  {
    FixedPoint(f, zero, n);
    if live(Run(f, w, n)) == live(zero) {
      RunInjective(f, live, undo, w, zero, n);
    }
  }
}
