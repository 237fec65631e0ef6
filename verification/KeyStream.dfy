/** Xor encryption of a byte string with the words read from a lagged generator. */
module KeyStream {
  import opened Words
  import opened Lagged

  type Rule = seq<Word> -> Word

  function MaskByte(f: Rule, s: Feed<Word>, b: Byte, i: nat): Byte
    requires s.Valid()
  {
    XorByte(b, ByteOf(Output(f, s, i / 4), i % 4))
  }

  /** Byte i is xored with byte i % 4 of the word that read i / 4 returns. */
  function Mask(f: Rule, s: Feed<Word>, data: seq<Byte>): (out: seq<Byte>)
    requires s.Valid()
    ensures |out| == |data|
  {
    seq(|data|, i requires 0 <= i < |data| => MaskByte(f, s, data[i], i))
  }

  /** The same without batches: byte i depends on stream element next + i / 4 only. */
  lemma MaskIsPositional(f: Rule, s: Feed<Word>, data: seq<Byte>, i: nat)
    requires s.Valid() && i < |data|
    ensures Mask(f, s, data)[i] == XorByte(data[i], ByteOf(Stream(f, s.window, s.next + i / 4), i % 4))
  {
    OutputIsStream(f, s, i / 4);
  }

  lemma MaskTwice(f: Rule, s: Feed<Word>, data: seq<Byte>)
    requires s.Valid()
    ensures Mask(f, s, Mask(f, s, data)) == data
  {
    hide Output, XorByte, ByteOf;
    forall i | 0 <= i < |data|
      ensures Mask(f, s, Mask(f, s, data))[i] == data[i]
    {
      XorByteCancels(data[i], ByteOf(Output(f, s, i / 4), i % 4));
    }
  }

  lemma OutputAfter(f: Rule, s: Feed<Word>, m: nat, k: nat)
    requires s.Valid()
    ensures Output(f, After(f, s, m), k) == Output(f, s, m + k)
  {
    AfterAdd(f, s, m, k);
  }

  lemma ShiftIndex(m: nat, i: nat)
    ensures (4 * m + i) / 4 == m + i / 4 && (4 * m + i) % 4 == i % 4
  {
  }

  lemma MaskByteAfter(f: Rule, s: Feed<Word>, m: nat, b: Byte, i: nat)
    requires s.Valid()
    ensures MaskByte(f, s, b, 4 * m + i) == MaskByte(f, After(f, s, m), b, i)
  {
    hide Output, XorByte, ByteOf;
    ShiftIndex(m, i);
    OutputAfter(f, s, m, i / 4);
  }

  lemma MaskAt(f: Rule, s: Feed<Word>, data: seq<Byte>, i: nat)
    requires s.Valid() && i < |data|
    ensures Mask(f, s, data)[i] == MaskByte(f, s, data[i], i)
  {
  }

  lemma IsConcatenation<T>(whole: seq<T>, left: seq<T>, right: seq<T>)
    requires |whole| == |left| + |right|
    requires forall i :: 0 <= i < |left| ==> whole[i] == left[i]
    requires forall i :: 0 <= i < |right| ==> whole[|left| + i] == right[i]
    ensures whole == left + right
  {
    forall i | 0 <= i < |whole|
      ensures whole[i] == (left + right)[i]
    {
      if i >= |left| {
        assert whole[|left| + (i - |left|)] == right[i - |left|];
      }
    }
  }

  /** A byte string may be masked in pieces cut at any multiple of four bytes. */
  lemma MaskSplit(f: Rule, s: Feed<Word>, a: seq<Byte>, b: seq<Byte>, m: nat)
    requires s.Valid() && |a| == 4 * m
    ensures Mask(f, s, a + b) == Mask(f, s, a) + Mask(f, After(f, s, m), b)
  {
    hide MaskByte, After, Mask;
    var t := After(f, s, m);
    forall i: nat | i < |a|
      ensures Mask(f, s, a + b)[i] == Mask(f, s, a)[i]
    {
      MaskAt(f, s, a + b, i);
      MaskAt(f, s, a, i);
    }
    forall i: nat | i < |b|
      ensures Mask(f, s, a + b)[|a| + i] == Mask(f, t, b)[i]
    {
      MaskAt(f, s, a + b, |a| + i);
      MaskAt(f, t, b, i);
      MaskByteAfter(f, s, m, b[i], i);
    }
    IsConcatenation(Mask(f, s, a + b), Mask(f, s, a), Mask(f, t, b));
  }

  /** A buffer whose first n words have been masked. */
  function MaskedTo(f: Rule, s: Feed<Word>, data: seq<Byte>, n: nat): (r: seq<Byte>)
    requires s.Valid() && 4 * n <= |data|
    ensures |r| == |data|
  {
    Mask(f, s, data)[..4 * n] + data[4 * n..]
  }

  /** What one pass of an encryption loop does to word n. */
  lemma MaskStep(f: Rule, s: Feed<Word>, data: seq<Byte>, n: nat)
    requires s.Valid() && 4 * n + 4 <= |data|
    ensures XoredAt(MaskedTo(f, s, data, n), 4 * n, Output(f, s, n)) == MaskedTo(f, s, data, n + 1)
  {
    hide Output, Xor, Load, ToBytes, Mask;
    var a := 4 * n;
    MaskedWord(f, s, data, n);
    LoadUnmasked(f, s, data, n);
    Overwrite(Mask(f, s, data), data, a, ToBytes(Xor(Load(data, a), Output(f, s, n))));
  }

  /** Word n of the masked data. */
  lemma MaskedWord(f: Rule, s: Feed<Word>, data: seq<Byte>, n: nat)
    requires s.Valid() && 4 * n + 4 <= |data|
    ensures Mask(f, s, data)[4 * n..4 * n + 4] == ToBytes(Xor(Load(data, 4 * n), Output(f, s, n)))
  {
    hide Output, XorByte, ByteOf, FromBytes, Xor, Mask;
    var k, a := Output(f, s, n), 4 * n;
    XorBytes(data[a], data[a + 1], data[a + 2], data[a + 3], k);
    MaskedByte(f, s, data, n, 0);
    MaskedByte(f, s, data, n, 1);
    MaskedByte(f, s, data, n, 2);
    MaskedByte(f, s, data, n, 3);
    assert Mask(f, s, data)[a..a + 4]
        == [Mask(f, s, data)[a], Mask(f, s, data)[a + 1], Mask(f, s, data)[a + 2], Mask(f, s, data)[a + 3]];
  }

  lemma MaskedByte(f: Rule, s: Feed<Word>, data: seq<Byte>, n: nat, j: nat)
    requires s.Valid() && 4 * n + 4 <= |data| && j < 4
    ensures Mask(f, s, data)[4 * n + j] == XorByte(data[4 * n + j], ByteOf(Output(f, s, n), j))
  {
    hide Output, XorByte, ByteOf;
    WordIndex(n, j);
  }

  lemma LoadUnmasked(f: Rule, s: Feed<Word>, data: seq<Byte>, n: nat)
    requires s.Valid() && 4 * n + 4 <= |data|
    ensures Load(MaskedTo(f, s, data, n), 4 * n) == Load(data, 4 * n)
  {
    hide Mask, FromBytes;
  }

  lemma Overwrite(m: seq<Byte>, d: seq<Byte>, a: nat, w: seq<Byte>)
    requires |m| == |d| && a + 4 <= |d| && w == m[a..a + 4]
    ensures var s := m[..a] + d[a..]; s[..a] + w + s[a + 4..] == m[..a + 4] + d[a + 4..]
  {
  }

  lemma WordIndex(n: nat, j: nat)
    requires j < 4
    ensures (4 * n + j) / 4 == n && (4 * n + j) % 4 == j
  {
  }

  lemma WholeWords(size: nat, words: nat)
    requires size % 4 == 0 && words == size / 4
    ensures size == 4 * words
  {
  }

  lemma MaskedBounds(f: Rule, s: Feed<Word>, data: seq<Byte>, n: nat)
    requires s.Valid() && 4 * n <= |data|
    ensures MaskedTo(f, s, data, 0) == data
    ensures MaskedTo(f, s, data, n) == Mask(f, s, data[..4 * n]) + data[4 * n..]
  {
    MaskPrefix(f, s, data, 4 * n);
  }

  lemma MaskPrefix(f: Rule, s: Feed<Word>, data: seq<Byte>, n: nat)
    requires s.Valid() && n <= |data|
    ensures Mask(f, s, data)[..n] == Mask(f, s, data[..n])
  {
    hide MaskByte;
  }

  lemma ReadAt(f: Rule, s: Feed<Word>, k: nat)
    requires s.Valid()
    ensures Read(f, After(f, s, k)) == (Output(f, s, k), After(f, s, k + 1))
  {
    hide Read;
  }
}
