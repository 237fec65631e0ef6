/** Blowfish-shaped Feistel networks with any number of rounds, any subkeys and any round
    function. */
module Feistel {
  import opened Words

  type RoundFunction = Word -> Word
  type Block = (Word, Word)

  /** The two halves after the first i rounds; each round ends with a swap. */
  function Rounds(f: RoundFunction, ps: seq<Word>, i: nat, b: Block): Block
    requires i <= |ps|
  {
    if i == 0 then b else
      var (l, r) := Rounds(f, ps, i - 1, b);
      (Xor(r, f(Xor(l, ps[i - 1]))), Xor(l, ps[i - 1]))
  }

  /** n rounds on n + 2 subkeys: the last swap is undone and the last two subkeys whiten. */
  function Network(f: RoundFunction, ps: seq<Word>, b: Block): Block
    requires |ps| >= 2
  {
    var n := |ps| - 2;
    var (l, r) := Rounds(f, ps, n, b);
    (Xor(r, ps[n + 1]), Xor(l, ps[n]))
  }

  function Reversed(ps: seq<Word>): (q: seq<Word>)
    ensures |q| == |ps|
    ensures forall i :: 0 <= i < |ps| ==> q[i] == ps[|ps| - 1 - i]
  {
    seq(|ps|, i requires 0 <= i < |ps| => ps[|ps| - 1 - i])
  }

  /** After j rounds backwards the halves are those after n - j rounds forwards, each still
      masked by one subkey. */
  lemma {:induction false} BackwardRounds(f: RoundFunction, ps: seq<Word>, b: Block, j: nat)
    requires |ps| >= 2 && j <= |ps| - 2
    ensures var k := |ps| - 2 - j;
            Rounds(f, Reversed(ps), j, Network(f, ps, b))
            == (Xor(Rounds(f, ps, k, b).1, ps[k + 1]), Xor(Rounds(f, ps, k, b).0, ps[k]))
  {
    if j == 0 {
    } else {
      BackwardRounds(f, ps, b, j - 1);
      var k := |ps| - 2 - j;
      var (l, r) := Rounds(f, ps, k, b);
      var c := Xor(l, ps[k]);
      assert Rounds(f, ps, k + 1, b) == (Xor(r, f(c)), c);
      assert Reversed(ps)[j - 1] == ps[k + 2];
      hide Xor, Rounds, Network, Reversed;
      XorCancels(c, ps[k + 2]);
      UnmaskHalf(r, f(c), ps[k + 1]);
      BackwardStep(f, ps, b, j);
    }
  }

  lemma BackwardStep(f: RoundFunction, ps: seq<Word>, b: Block, j: nat)
    requires |ps| >= 2 && 0 < j <= |ps| - 2
    ensures var q := Reversed(ps);
            var (l, r) := Rounds(f, q, j - 1, Network(f, ps, b));
            Rounds(f, q, j, Network(f, ps, b)) == (Xor(r, f(Xor(l, q[j - 1]))), Xor(l, q[j - 1]))
  {
  }

  lemma UnmaskHalf(r: Word, y: Word, p: Word)
    ensures Xor(Xor(Xor(r, y), p), y) == Xor(r, p)
  {
    hide Xor;
    XorAssoc(r, y, p);
    XorComm(y, p);
    XorAssoc(r, p, y);
    XorCancels(Xor(r, p), y);
  }

  /** Running with reversed subkeys inverts the network. */
  lemma NetworkInverse(f: RoundFunction, ps: seq<Word>, b: Block)
    requires |ps| >= 2
    ensures Network(f, Reversed(ps), Network(f, ps, b)) == b
  {
    var n := |ps| - 2;
    BackwardRounds(f, ps, b, n);
    XorCancels(b.0, ps[0]);
    XorCancels(b.1, ps[1]);
    hide Xor;
  }

  lemma ReversedTwice(ps: seq<Word>)
    ensures Reversed(Reversed(ps)) == ps
  {
  }

  /** The network round by round: each round masks the left half, feeds it to the round function,
      xors the result into the right half and swaps; the output is unswapped and whitened. */
  lemma NetworkTrace(f: RoundFunction, ps: seq<Word>, b: Block) returns (l: seq<Word>, r: seq<Word>)
    requires |ps| >= 2
    ensures |l| == |r| == |ps| - 1 && l[0] == b.0 && r[0] == b.1
    ensures forall i :: 0 <= i < |ps| - 2 ==>
              l[i + 1] == Xor(r[i], f(Xor(l[i], ps[i]))) && r[i + 1] == Xor(l[i], ps[i])
    ensures Network(f, ps, b) == (Xor(r[|ps| - 2], ps[|ps| - 1]), Xor(l[|ps| - 2], ps[|ps| - 2]))
  {
    hide Xor, Rounds;
    RoundsStart(f, ps, b);
    l := seq(|ps| - 1, i requires 0 <= i < |ps| - 1 => Rounds(f, ps, i, b).0);
    r := seq(|ps| - 1, i requires 0 <= i < |ps| - 1 => Rounds(f, ps, i, b).1);
    forall i | 0 <= i < |ps| - 2
      ensures l[i + 1] == Xor(r[i], f(Xor(l[i], ps[i]))) && r[i + 1] == Xor(l[i], ps[i])
    {
      RoundsNext(f, ps, i, b);
    }
  }

  lemma RoundsStart(f: RoundFunction, ps: seq<Word>, b: Block)
    ensures Rounds(f, ps, 0, b) == b
  {
  }

  lemma RoundsNext(f: RoundFunction, ps: seq<Word>, i: nat, b: Block)
    requires i < |ps|
    ensures var (l, r) := Rounds(f, ps, i, b);
            Rounds(f, ps, i + 1, b) == (Xor(r, f(Xor(l, ps[i]))), Xor(l, ps[i]))
  {
    hide Xor;
  }
}
