/** The buffered MD5 context against hashing a whole padded message (RFC 1321). */
module Md5 {
  import opened Words
  import opened Md5Compression

  const BLOCK := 64
  const TWO_29 := 0x2000_0000
  const TWO_32 := 0x1_0000_0000
  const TWO_61 := 0x2000_0000_0000_0000
  const TWO_64 := 0x1_0000_0000_0000_0000

  const INITIAL := Regs(0x67452301, 0xEFCDAB89, 0x98BADCFE, 0x10325476)

  // ---------------------------------------------------------------- blocks

  function Decode(block: seq<Byte>): Block16
    requires |block| >= BLOCK
  {
    seq(16, i requires 0 <= i < 16 => Load(block, 4 * i))
  }

  function CompressBlock(r: Regs, block: seq<Byte>): Regs
    requires |block| >= BLOCK
  {
    CompressWords(r, Decode(block))
  }

  /** All blocks of a byte string, in order. */
  function Fold(r: Regs, data: seq<Byte>): Regs
    requires |data| % BLOCK == 0
    decreases |data|
  {
    if data == [] then r else Fold(CompressBlock(r, data[..BLOCK]), data[BLOCK..])
  }

  lemma {:induction false} FoldSplit(r: Regs, a: seq<Byte>, b: seq<Byte>)
    requires |a| % BLOCK == 0 && |b| % BLOCK == 0
    ensures |a + b| % BLOCK == 0 && Fold(r, a + b) == Fold(Fold(r, a), b)
    decreases |a|
  {
    hide CompressBlock;
    if a == [] {
      assert a + b == b;
    } else {
      assert (a + b)[..BLOCK] == a[..BLOCK] && (a + b)[BLOCK..] == a[BLOCK..] + b;
      FoldSplit(CompressBlock(r, a[..BLOCK]), a[BLOCK..], b);
    }
  }

  lemma FoldOne(r: Regs, block: seq<Byte>)
    requires |block| == BLOCK
    ensures Fold(r, block) == CompressBlock(r, block)
  {
    hide CompressBlock;
    assert block[..BLOCK] == block && block[BLOCK..] == [];
  }

  // ---------------------------------------------------------------- what a context means

  /** The number of bytes in whole blocks. */
  function Whole(n: nat): (k: nat)
    ensures k <= n < k + BLOCK && k % BLOCK == 0
  {
    n - n % BLOCK
  }

  lemma WholeIs(n: nat, c: nat)
    requires c <= n < c + BLOCK && c % BLOCK == 0
    ensures Whole(n) == c
  {
  }

  /** The number of live bytes in the buffer at a bit count. */
  function Live(size: nat): (n: nat)
    ensures n < BLOCK
  {
    size / 8 % BLOCK
  }

  /** The bit count, the chaining value and the live prefix of the buffer. */
  datatype View = View(size: nat, hash: Regs, tail: seq<Byte>) {
    predicate Valid() {
      size % 8 == 0 && size < TWO_64 && |tail| == Live(size)
    }
  }

  /** The bit count after n more bytes: n is shifted in 32 bits, the sum is kept in 64. */
  function Counted(size: nat, n: nat): nat {
    (size + 8 * n % TWO_32) % TWO_64
  }

  /** The 32-bit shift keeps the low 29 bits of the byte count. */
  lemma ShiftedCount(n: nat)
    ensures 8 * n % TWO_32 == 8 * (n % TWO_29)
  {
    var k, m := n / TWO_29, n % TWO_29;
    assert n == TWO_29 * k + m;
    RemainderIs(8 * n, 0x1_0000_0000, k, 8 * m);
  }

  lemma CountedBytes(size: nat, n: nat)
    requires size % 8 == 0
    ensures Counted(size, n) == 8 * ((size / 8 + n % TWO_29) % TWO_61)
  {
    ShiftedCount(n);
    var x := size / 8 + n % TWO_29;
    var q, t := x / TWO_61, x % TWO_61;
    assert x == TWO_61 * q + t;
    RemainderIs(8 * x, 0x1_0000_0000_0000_0000, q, 8 * t);
  }

  /** Wrap-around never disturbs the position within a block. */
  lemma CountedTail(size: nat, n: nat)
    requires size % 8 == 0
    ensures Counted(size, n) % 8 == 0 && Counted(size, n) < TWO_64
    ensures Live(Counted(size, n)) == Live(size) + n - Whole(Live(size) + n)
  {
    CountedBytes(size, n);
    BlockPosition(size / 8, n);
  }

  lemma BlockPosition(s: nat, n: nat)
    ensures (s + n % TWO_29) % TWO_61 % BLOCK == (s % BLOCK + n) % BLOCK
  {
    var m, k := n % TWO_29, n / TWO_29;
    var x := s + m;
    var t, q := x % TWO_61, x / TWO_61;
    assert n == 64 * (0x80_0000 * k) + m;
    assert x == 64 * (0x80_0000_0000_0000 * q) + t;
    var i, r := t / 64, t % 64;
    var j := s / 64;
    assert s % 64 + n == 64 * (0x80_0000 * k + 0x80_0000_0000_0000 * q + i - j) + r;
    RemainderIs(s % 64 + n, 64, 0x80_0000 * k + 0x80_0000_0000_0000 * q + i - j, r);
  }

  /** Absorbing input: whole blocks of tail + input are folded, the rest stays. */
  function Absorb(v: View, input: seq<Byte>): (r: View)
    requires v.Valid()
    ensures r.Valid()
  {
    hide Live, Whole, Counted;
    var all := v.tail + input;
    var k := Whole(|all|);
    CountedTail(v.size, |input|);
    View(Counted(v.size, |input|), Fold(v.hash, all[..k]), all[k..])
  }

  // ---------------------------------------------------------------- the context

  class Md5Context {
    var size: nat
    var hash: Regs
    const buf: array<Byte>

    constructor ()
      ensures buf.Length == BLOCK && fresh(buf)
    {
      buf := new Byte[BLOCK];
      size, hash := 0, Regs(0, 0, 0, 0);
    }
  }

  ghost predicate Valid(cxt: Md5Context)
    reads cxt
  {
    cxt.buf.Length == BLOCK && cxt.size % 8 == 0 && cxt.size < TWO_64
  }

  ghost function ViewOf(cxt: Md5Context): (v: View)
    requires Valid(cxt)
    reads cxt, cxt.buf
    ensures v.Valid()
  {
    View(cxt.size, cxt.hash, cxt.buf[..Live(cxt.size)])
  }

  method Start(cxt: Md5Context)
    requires cxt.buf.Length == BLOCK
    modifies cxt
    ensures Valid(cxt) && ViewOf(cxt) == View(0, INITIAL, [])
  {
    cxt.size := 0;
    cxt.hash := INITIAL;
  }

  method Process(cxt: Md5Context, input: seq<Byte>)
    requires |input| == BLOCK
    modifies cxt`hash
    ensures cxt.hash == CompressBlock(old(cxt.hash), input)
  {
    hide Load;
    var w := new Word[16];
    for i := 0 to 16
      invariant cxt.hash == old(cxt.hash)
      invariant forall j :: 0 <= j < i ==> w[j] == Load(input, 4 * j)
    {
      w[i] := Load(input, 4 * i);
    }
    assert w[..] == Decode(input);
    cxt.hash := Compress(cxt.hash, w[..]);
  }

  /** Hash each whole block of input from off on. */
  method HashWhole(cxt: Md5Context, input: seq<Byte>, off0: nat, ghost start: Regs, ghost done: seq<Byte>)
    returns (off: nat)
    requires off0 <= |input| && |done| % BLOCK == 0 && cxt.hash == Fold(start, done)
    modifies cxt`hash
    ensures off0 <= off <= |input| < off + BLOCK && (off - off0) % BLOCK == 0
    ensures |done + input[off0..off]| % BLOCK == 0 && cxt.hash == Fold(start, done + input[off0..off])
  {
    hide CompressBlock, Fold;
    off := off0;
    ghost var n := 0;
    assert done + input[off0..off] == done;
    while |input| - off >= BLOCK
      invariant off == off0 + BLOCK * n && off <= |input|
      invariant |done + input[off0..off]| % BLOCK == 0 && cxt.hash == Fold(start, done + input[off0..off])
      decreases |input| - off
    {
      ghost var block := input[off..off + BLOCK];
      FoldOne(Fold(start, done + input[off0..off]), block);
      FoldSplit(start, done + input[off0..off], block);
      assert done + input[off0..off + BLOCK] == (done + input[off0..off]) + block;
      Process(cxt, input[off..off + BLOCK]);
      off := off + BLOCK;
      n := n + 1;
    }
  }

  /** What remains after the whole blocks are hashed: left bytes of the buffer are live and
      input from off on is still to come. */
  ghost predicate Consumed(cxt: Md5Context, v: View, input: seq<Byte>, left: nat, off: nat)
    reads cxt, cxt.buf
  {
    && cxt.buf.Length == BLOCK && off <= |input| && left <= |v.tail| + off && left <= BLOCK
    && var all, c := v.tail + input, |v.tail| + off - left;
    && c % BLOCK == 0 && |all| - c < BLOCK
    && cxt.hash == Fold(v.hash, all[..c])
    && cxt.buf[..left] == all[c..c + left]
  }

  method TopUp(cxt: Md5Context, input: seq<Byte>, left: nat, ghost v: View) returns (off: nat)
    requires cxt.buf.Length == BLOCK && 0 < left < BLOCK && |input| >= BLOCK - left
    requires v.tail == cxt.buf[..left] && cxt.hash == v.hash
    modifies cxt`hash, cxt.buf
    ensures Consumed(cxt, v, input, 0, off)
  {
    hide Fold, CompressBlock;
    var copy := BLOCK - left;
    ghost var all := v.tail + input;
    CopyIn(cxt, left, input, 0, copy);
    assert cxt.buf[..] == all[..BLOCK];
    FoldOne(v.hash, all[..BLOCK]);
    Process(cxt, cxt.buf[..]);
    off := HashWhole(cxt, input, copy, v.hash, all[..BLOCK]);
    assert all[..BLOCK] + input[copy..off] == all[..left + off];
  }

  /** Complete the buffered block if the input reaches that far, then hash whole blocks. */
  method Consume(cxt: Md5Context, input: seq<Byte>, left0: nat, ghost v: View) returns (left: nat, off: nat)
    requires cxt.buf.Length == BLOCK && left0 < BLOCK
    requires v.tail == cxt.buf[..left0] && cxt.hash == v.hash
    modifies cxt`hash, cxt.buf
    ensures Consumed(cxt, v, input, left, off)
  {
    hide Fold;
    FoldNothing(v.hash);
    left, off := left0, 0;
    var copy := BLOCK - left;
    if left != 0 && |input| >= copy {
      off := TopUp(cxt, input, left, v);
      left := 0;
    } else if left == 0 {
      off := HashWhole(cxt, input, 0, v.hash, []);
      assert [] + input[0..off] == (v.tail + input)[..off];
    } else {
      assert (v.tail + input)[..0] == [];
    }
  }

  method HashBlock(cxt: Md5Context, input: seq<Byte>)
    requires Valid(cxt) && |input| < TWO_32
    modifies cxt, cxt.buf
    ensures Valid(cxt) && ViewOf(cxt) == Absorb(old(ViewOf(cxt)), input)
  {
    hide Fold, Counted, Whole, Live, Absorb, Consumed;
    ghost var v := ViewOf(cxt);
    var left := Live(cxt.size);
    cxt.size := Counted(cxt.size, |input|);
    var off;
    left, off := Consume(cxt, input, left, v);
    Leftover(cxt, v, input, left, off);
    if off < |input| {
      CopyIn(cxt, left, input, off, |input| - off);
    }
  }

  lemma FoldNothing(r: Regs)
    ensures Fold(r, []) == r
  {
  }

  /** The bytes to buffer are exactly the tail that absorbing leaves. */
  lemma Leftover(cxt: Md5Context, v: View, input: seq<Byte>, left: nat, off: nat)
    requires v.Valid() && Consumed(cxt, v, input, left, off)
    requires cxt.size == Counted(v.size, |input|)
    ensures Valid(cxt) && off <= |input| && left <= BLOCK && left + (|input| - off) == Live(cxt.size)
    ensures Absorb(v, input) == View(cxt.size, cxt.hash, cxt.buf[..left] + input[off..])
  {
    hide Fold, Counted, Live, Whole;
    CountedTail(v.size, |input|);
    var all, c := v.tail + input, |v.tail| + off - left;
    WholeIs(|all|, c);
    assert all[c..] == all[c..c + left] + input[off..];
  }

  /** memcpy(&buf[at], &input[from], count) */
  method CopyIn(cxt: Md5Context, at: nat, input: seq<Byte>, from: nat, count: nat)
    requires at + count <= cxt.buf.Length && from + count <= |input|
    modifies cxt.buf
    ensures cxt.buf[..] == old(cxt.buf[..at]) + input[from..from + count] + old(cxt.buf[at + count..])
  {
    ghost var before := cxt.buf[..];
    OverlaidBounds(before, at, input, from, count);
    hide Overlaid;
    for j := 0 to count
      invariant cxt.buf[..] == Overlaid(before, at, input, from, j)
    {
      OverlaidNext(before, at, input, from, j);
      cxt.buf[at + j] := input[from + j];
    }
  }

  /** s with count bytes of input over those at a place. */
  function Overlaid(s: seq<Byte>, at: nat, input: seq<Byte>, from: nat, count: nat): (r: seq<Byte>)
    requires at + count <= |s| && from + count <= |input|
    ensures |r| == |s|
  {
    s[..at] + input[from..from + count] + s[at + count..]
  }

  lemma OverlaidBounds(s: seq<Byte>, at: nat, input: seq<Byte>, from: nat, count: nat)
    requires at + count <= |s| && from + count <= |input|
    ensures Overlaid(s, at, input, from, 0) == s
    ensures Overlaid(s, at, input, from, count) == s[..at] + input[from..from + count] + s[at + count..]
  {
  }

  lemma OverlaidNext(s: seq<Byte>, at: nat, input: seq<Byte>, from: nat, count: nat)
    requires at + count < |s| && from + count < |input|
    ensures Overlaid(s, at, input, from, count)[at + count := input[from + count]]
         == Overlaid(s, at, input, from, count + 1)
  {
  }

  // ---------------------------------------------------------------- finishing

  function PadLen(mod: nat): (n: nat)
    requires mod < BLOCK
    ensures 1 <= n <= BLOCK && (mod + n + 8) % BLOCK == 0
  {
    if mod < 56 then 56 - mod else 120 - mod
  }

  /** The first n bytes of the padding table: 0x80 and zeros. */
  function Padding(n: nat): (s: seq<Byte>)
    requires 1 <= n
    ensures |s| == n
  {
    [0x80 as Byte] + seq(n - 1, _ => 0 as Byte)
  }

  function Low(x: nat): Byte { (x % 256) as Byte }

  /** The 64-bit length, least significant byte first. */
  function LengthBytes(len: nat): (s: seq<Byte>)
    ensures |s| == 8
  {
    [Low(len), Low(len / 0x100), Low(len / 0x1_0000), Low(len / 0x100_0000), Low(len / 0x1_0000_0000),
     Low(len / 0x100_0000_0000), Low(len / 0x1_0000_0000_0000), Low(len / 0x100_0000_0000_0000)]
  }

  function DigestBytes(r: Regs): (s: seq<Byte>)
    ensures |s| == 16
  {
    ToBytes(r.a) + ToBytes(r.b) + ToBytes(r.c) + ToBytes(r.d)
  }

  /** What finishing a context yields. */
  function Finished(v: View): (r: View)
    requires v.Valid()
    ensures r.Valid()
  {
    Absorb(Absorb(v, Padding(PadLen(Live(v.size)))), LengthBytes(v.size))
  }

  method Finish(cxt: Md5Context, output: array<Byte>)
    requires Valid(cxt) && output.Length == 16 && output != cxt.buf
    modifies cxt, cxt.buf, output
    ensures Valid(cxt) && ViewOf(cxt) == Finished(old(ViewOf(cxt)))
    ensures output[..] == DigestBytes(Finished(old(ViewOf(cxt))).hash)
  {
    hide Absorb, LengthBytes, ByteOf, Padding;
    var len := cxt.size;
    var blen := Live(cxt.size);
    var plen := PadLen(blen);
    HashBlock(cxt, Padding(plen));
    HashBlock(cxt, LengthBytes(len));
    WriteDigest(cxt.hash, output);
  }

  method WriteDigest(hash: Regs, output: array<Byte>)
    requires output.Length == 16
    modifies output
    ensures output[..] == DigestBytes(hash)
  {
    ghost var digest := DigestBytes(hash);
    for i := 0 to 16
      invariant output[..i] == digest[..i]
    {
      DigestAt(hash, i);
      hide ByteOf, DigestBytes, HashWord;
      output[i] := ByteOf(HashWord(hash, i / 4), i % 4);
    }
  }

  function HashWord(r: Regs, i: nat): Word {
    if i == 0 then r.a else if i == 1 then r.b else if i == 2 then r.c else r.d
  }

  lemma DigestAt(r: Regs, i: nat)
    requires i < 16
    ensures DigestBytes(r)[i] == ByteOf(HashWord(r, i / 4), i % 4)
  {
    hide ByteOf;
    if i < 4 {
    } else if i < 8 {
      assert i / 4 == 1 && i % 4 == i - 4;
    } else if i < 12 {
      assert i / 4 == 2 && i % 4 == i - 8;
    } else {
      assert i / 4 == 3 && i % 4 == i - 12;
    }
  }

  /** The one-call digest. */
  method Digest(input: seq<Byte>, output: array<Byte>)
    requires |input| < TWO_32 && output.Length == 16
    modifies output
    ensures output[..] == DigestBytes(Finished(Absorb(View(0, INITIAL, []), input)).hash)
  {
    hide Absorb, Finished, DigestBytes;
    var cxt := new Md5Context();
    Start(cxt);
    HashBlock(cxt, input);
    Finish(cxt, output);
  }
}
