/** The streaming context against RFC 1321 on the whole message. */
module Md5Message {
  import opened Words
  import opened Md5Compression
  import opened Md5

  const START := View(0, INITIAL, [])

  // ---------------------------------------------------------------- the standard

  /** The number of zero bits is the least that makes the length congruent to 56 bytes. */
  function Zeros(n: nat): nat {
    (119 - n % BLOCK) % BLOCK
  }

  lemma ZerosIsLeast(n: nat, k: nat)
    ensures (n + 1 + Zeros(n)) % BLOCK == 56
    ensures (n + 1 + k) % BLOCK == 56 ==> Zeros(n) <= k
  {
    var q, r := n / 64, n % 64;
    ZerosAre(r);
    var z := (119 - r) % 64;
    RemainderIs(n + 1 + z, 64, if r <= 55 then q else q + 1, 56);
    if k < z {
      var d := r + 1 + k;
      RemainderIs(n + 1 + k, 64, if d < 64 then q else q + 1, if d < 64 then d else d - 64);
    }
  }

  lemma ZerosAre(r: nat)
    requires r < 64
    ensures (119 - r) % 64 == if r <= 55 then 55 - r else 119 - r
  {
  }

  /** Message, a one bit, zeros, and the bit length modulo 2^64: sections 3.1 and 3.2. */
  function RfcPadded(m: seq<Byte>): seq<Byte> {
    m + [0x80 as Byte] + seq(Zeros(|m|), _ => 0 as Byte) + LengthBytes(8 * |m| % TWO_64)
  }

  lemma RfcPaddedWhole(m: seq<Byte>)
    ensures |RfcPadded(m)| % BLOCK == 0
  {
    PaddedLength(|m|);
    hide LengthBytes, Zeros;
  }

  lemma PaddedLength(n: nat)
    ensures (n + 1 + Zeros(n) + 8) % BLOCK == 0
  {
    ZerosIsLeast(n, 0);
    var a := n + 1 + Zeros(n);
    assert a == 64 * (a / 64) + 56;
    RemainderIs(a + 8, 64, a / 64 + 1, 0);
  }

  /** Sections 3.3 to 3.5. */
  function RfcDigest(m: seq<Byte>): seq<Byte> {
    RfcPaddedWhole(m);
    DigestBytes(Fold(INITIAL, RfcPadded(m)))
  }

  lemma PadPosition(n: nat)
    ensures (n + PadLen(n % BLOCK) + 8) % BLOCK == 0
  {
    var q, r := n / 64, n % 64;
    var p := r + PadLen(r) + 8;
    assert n + PadLen(r) + 8 == 64 * (q + p / 64) + 0;
    RemainderIs(n + PadLen(r) + 8, 64, q + p / 64, 0);
  }

  /** The same padding with the bit count the context kept. */
  function Padded(m: seq<Byte>, size: nat): (p: seq<Byte>)
    ensures |p| % BLOCK == 0
  {
    PadPosition(|m|);
    m + Padding(PadLen(|m| % BLOCK)) + LengthBytes(size)
  }

  // ---------------------------------------------------------------- streaming

  /** A context that has absorbed exactly the message m. */
  ghost predicate Holds(v: View, m: seq<Byte>) {
    && v.Valid()
    && var k := Whole(|m|);
    && v.hash == Fold(INITIAL, m[..k]) && v.tail == m[k..]
  }

  lemma StartHolds()
    ensures START.Valid() && Holds(START, [])
  {
  }

  /** Absorbing extends the message held, however it was cut before. */
  lemma AbsorbHolds(v: View, m: seq<Byte>, input: seq<Byte>)
    requires Holds(v, m)
    ensures Holds(Absorb(v, input), m + input)
  {
    hide Fold, Counted, Whole, Live;
    var k := Whole(|m|);
    var all := v.tail + input;
    var j := Whole(|all|);
    SamePosition(|m|, |input|);
    Recut(m, input, k, j);
    FoldSplit(INITIAL, m[..k], all[..j]);
  }

  lemma Recut(m: seq<Byte>, input: seq<Byte>, k: nat, j: nat)
    requires k <= |m| && j <= |m| - k + |input|
    ensures var all := m[k..] + input;
            (m + input)[..k + j] == m[..k] + all[..j] && (m + input)[k + j..] == all[j..]
  {
    assert m + input == m[..k] + (m[k..] + input);
  }

  lemma SamePosition(n: nat, i: nat)
    ensures Whole(n) + Whole(n - Whole(n) + i) == Whole(n + i)
  {
    var q, r := n / 64, n % 64;
    var p, t := (r + i) / 64, (r + i) % 64;
    assert n + i == 64 * (q + p) + t;
    RemainderIs(n + i, 64, q + p, t);
  }

  /** Consecutive calls on a context. */
  function AbsorbAll(v: View, chunks: seq<seq<Byte>>): (r: View)
    requires v.Valid()
    ensures r.Valid()
    decreases |chunks|
  {
    if chunks == [] then v else AbsorbAll(Absorb(v, chunks[0]), chunks[1..])
  }

  /** Any split of a message, from any context a message led to, reaches the same hash and the
      same live buffer as one call, and the same count exactly when the low 29 bits of the
      byte counts do not carry. */
  lemma AnySplit(v: View, m: seq<Byte>, chunks: seq<seq<Byte>>)
    requires Holds(v, m)
    ensures Holds(AbsorbAll(v, chunks), m + Joined(chunks))
    ensures AbsorbAll(v, chunks).hash == Absorb(v, Joined(chunks)).hash
    ensures AbsorbAll(v, chunks).tail == Absorb(v, Joined(chunks)).tail
    ensures AbsorbAll(v, chunks) == Absorb(v, Joined(chunks)) <==> LowSum(chunks) % TWO_61 < TWO_29
  {
    AllHold(v, m, chunks);
    AbsorbHolds(v, m, Joined(chunks));
    SplitCount(v, chunks);
    hide Absorb, AbsorbAll, Joined, LowSum;
  }

  lemma {:induction false} AllHold(v: View, m: seq<Byte>, chunks: seq<seq<Byte>>)
    requires v.Valid() && Holds(v, m)
    ensures Holds(AbsorbAll(v, chunks), m + Joined(chunks))
    decreases |chunks|
  {
    hide Absorb, Holds;
    if chunks == [] {
      assert m + Joined(chunks) == m;
    } else {
      AbsorbHolds(v, m, chunks[0]);
      AllHold(Absorb(v, chunks[0]), m + chunks[0], chunks[1..]);
      assert m + Joined(chunks) == m + chunks[0] + Joined(chunks[1..]);
    }
  }

  // ---------------------------------------------------------------- the bit count

  /** The bytes that the 32-bit shifts of consecutive calls count. */
  function LowSum(chunks: seq<seq<Byte>>): nat {
    if chunks == [] then 0 else |chunks[0]| % TWO_29 + LowSum(chunks[1..])
  }

  /** How many times 2^29 bytes go uncounted. */
  function Dropped(chunks: seq<seq<Byte>>): nat {
    if chunks == [] then 0 else |chunks[0]| / TWO_29 + Dropped(chunks[1..])
  }

  lemma {:induction false} CountedAndDropped(chunks: seq<seq<Byte>>)
    ensures |Joined(chunks)| == LowSum(chunks) + TWO_29 * Dropped(chunks)
  {
    if chunks == [] {
    } else {
      CountedAndDropped(chunks[1..]);
    }
  }

  /** Over any number of calls the count advances by the counted bytes, modulo 2^61. */
  lemma {:induction false} CountAll(v: View, chunks: seq<seq<Byte>>)
    requires v.Valid()
    ensures AbsorbAll(v, chunks).size == 8 * ((v.size / 8 + LowSum(chunks)) % TWO_61)
    decreases |chunks|
  {
    hide Absorb, Counted, Live;
    if chunks == [] {
      CountedAlready(v);
    } else {
      var w, c, s := Absorb(v, chunks[0]), |chunks[0]| % TWO_29, LowSum(chunks[1..]);
      AbsorbCounts(v, chunks[0]);
      CountedBytes(v.size, |chunks[0]|);
      CountAll(w, chunks[1..]);
      CountedFurther(v.size / 8 + c, s);
      assert AbsorbAll(v, chunks).size == AbsorbAll(w, chunks[1..]).size && LowSum(chunks) == c + s;
    }
  }

  lemma CountedAlready(v: View)
    requires v.Valid()
    ensures v.size == 8 * ((v.size / 8 + 0) % TWO_61)
  {
    hide Live;
  }

  lemma CountedFurther(x: nat, s: nat)
    ensures (8 * (x % TWO_61) / 8 + s) % TWO_61 == (x + s) % TWO_61
  {
    AddModulo61(x, s);
  }

  /** Any number of calls counts what one call on the concatenation counts exactly when the
      low 29 bits of the byte counts sum below 2^29, modulo 2^61. */
  lemma SplitCount(v: View, chunks: seq<seq<Byte>>)
    requires v.Valid()
    ensures AbsorbAll(v, chunks).size == Absorb(v, Joined(chunks)).size <==> LowSum(chunks) % TWO_61 < TWO_29
  {
    hide Absorb, AbsorbAll, Joined, LowSum, Dropped, Counted;
    var x, s, n := v.size / 8, LowSum(chunks), |Joined(chunks)|;
    CountAll(v, chunks);
    AbsorbCounts(v, Joined(chunks));
    CountedBytes(v.size, n);
    CountedAndDropped(chunks);
    SplitResidue(x, s, Dropped(chunks));
    Times8((x + s) % TWO_61, (x + n % TWO_29) % TWO_61);
  }

  lemma Times8(a: nat, b: nat)
    ensures 8 * a == 8 * b <==> a == b
  {
  }

  lemma SplitResidue(x: nat, s: nat, d: nat)
    ensures (x + s) % TWO_61 == (x + (s + TWO_29 * d) % TWO_29) % TWO_61 <==> s % TWO_61 < TWO_29
  {
    SameResidue(s, d);
    CancelModulo61(x, s, s % TWO_29);
  }

  /** Residues modulo 2^29 are those of the counted bytes, before and after the wrap. */
  lemma SameResidue(s: nat, d: nat)
    ensures (s + TWO_29 * d) % TWO_29 == s % TWO_29 == s % TWO_61 % TWO_29
  {
    var q, r := s / TWO_29, s % TWO_29;
    RemainderIs(s + TWO_29 * d, 0x2000_0000, q + d, r);
    var p, t := s / TWO_61, s % TWO_61;
    RemainderIs(t, 0x2000_0000, q - 0x1_0000_0000 * p, r);
  }

  lemma CancelModulo61(x: nat, a: nat, b: nat)
    ensures (x + a) % TWO_61 == (x + b) % TWO_61 <==> a % TWO_61 == b % TWO_61
  {
    AddModulo61(a, x);
    AddModulo61(b, x);
    if (x + a) % TWO_61 == (x + b) % TWO_61 {
      var q, p := (x + a) / TWO_61, (x + b) / TWO_61;
      assert a == TWO_61 * (q - p) + b;
      RemainderIs(a, 0x2000_0000_0000_0000, q - p + b / TWO_61, b % TWO_61);
    }
  }

  /** Two calls that together pass 2^29 bytes fail: one call on as many bytes counts none. */
  lemma FirstSplitFailure()
    ensures var half := seq(0x1000_0000, _ => 0 as Byte);
            AbsorbAll(START, [half, half]).size != Absorb(START, Joined([half, half])).size
  {
    hide Absorb, AbsorbAll, Joined, LowSum;
    var half := seq(0x1000_0000, _ => 0 as Byte);
    assert START.Valid();
    SplitCount(START, [half, half]);
    LowOfTwo(half, half);
  }

  lemma LowOfTwo(a: seq<Byte>, b: seq<Byte>)
    ensures LowSum([a, b]) == |a| % TWO_29 + |b| % TWO_29
  {
    assert [a, b][1..] == [b] && [b][1..] == [];
    assert LowSum([b]) == |b| % TWO_29 + LowSum([]);
  }

  lemma AddModulo61(x: nat, z: nat)
    ensures (x % TWO_61 + z) % TWO_61 == (x + z) % TWO_61
  {
    var p := x / TWO_61;
    var y := x % TWO_61 + z;
    var q, r := y / TWO_61, y % TWO_61;
    assert x + z == TWO_61 * (p + q) + r;
    RemainderIs(x + z, 0x2000_0000_0000_0000, p + q, r);
  }

  // ---------------------------------------------------------------- the digest

  /** Finishing hashes exactly the padded message and leaves the buffer empty. */
  lemma FinishedDigest(v: View, m: seq<Byte>)
    requires Holds(v, m)
    ensures Finished(v).hash == Fold(INITIAL, Padded(m, v.size)) && Finished(v).tail == []
  {
    hide Absorb, LengthBytes, Padding, Fold, Whole, Live, PadLen;
    var pad := Padding(PadLen(Live(v.size)));
    var v' := Absorb(v, pad);
    var len := LengthBytes(v.size);
    AbsorbHolds(v, m, pad);
    AbsorbHolds(v', m + pad, len);
    LiveIs(v, m);
    var p := Padded(m, v.size);
    WholeIs(|p|, |p|);
    assert p == m + pad + len;
    assert p[..|p|] == p;
  }

  lemma LiveIs(v: View, m: seq<Byte>)
    requires Holds(v, m)
    ensures Live(v.size) == |m| % BLOCK
  {
    hide Fold, Live;
  }

  /** The two ways of writing the padding agree. */
  lemma PaddingAgrees(m: seq<Byte>)
    ensures Padded(m, 8 * |m| % TWO_64) == RfcPadded(m)
  {
    var n := PadLen(|m| % BLOCK);
    assert n - 1 == Zeros(|m|);
    hide LengthBytes, Zeros, PadLen;
    assert Padding(n) == [0x80 as Byte] + seq(n - 1, _ => 0 as Byte);
  }

  lemma AbsorbCounts(v: View, input: seq<Byte>)
    requires v.Valid()
    ensures Absorb(v, input).size == Counted(v.size, |input|)
  {
  }

  /** Streaming: the context pads a message fed in any pieces as RFC 1321 does exactly when
      the uncounted 2^29s are a multiple of 2^32, in particular when no piece has 2^29 bytes. */
  lemma StreamedPadding(chunks: seq<seq<Byte>>)
    ensures Padded(Joined(chunks), AbsorbAll(START, chunks).size) == RfcPadded(Joined(chunks))
       <==> Dropped(chunks) % TWO_32 == 0
  {
    hide Padded, RfcPadded, LowSum, Dropped, AbsorbAll, Joined;
    var s, d, n := LowSum(chunks), Dropped(chunks), |Joined(chunks)|;
    CountAll(START, chunks);
    CountedAndDropped(chunks);
    BitsModulo64(n);
    DroppedShows(s, d);
    Times8(s % TWO_61, n % TWO_61);
    PaddingAgrees(Joined(chunks));
    PaddingDetermines(Joined(chunks), 8 * (s % TWO_61), 8 * (n % TWO_61));
  }

  lemma BitsModulo64(n: nat)
    ensures 8 * n % TWO_64 == 8 * (n % TWO_61) < TWO_64
  {
    RemainderIs(8 * n, 0x1_0000_0000_0000_0000, n / TWO_61, 8 * (n % TWO_61));
  }

  lemma DroppedShows(s: nat, d: nat)
    ensures s % TWO_61 == (s + TWO_29 * d) % TWO_61 <==> d % TWO_32 == 0
  {
    var q, r := d / TWO_32, d % TWO_32;
    assert TWO_29 * d == TWO_61 * q + TWO_29 * r;
    CancelModulo61(s, 0, TWO_29 * d);
    RemainderIs(TWO_29 * d, 0x2000_0000_0000_0000, q, TWO_29 * r);
  }

  /** Different counts give different padding. */
  lemma PaddingDetermines(m: seq<Byte>, a: nat, b: nat)
    requires a < TWO_64 && b < TWO_64
    ensures Padded(m, a) == Padded(m, b) <==> a == b
  {
    hide Padding;
    var p := m + Padding(PadLen(|m| % BLOCK));
    if Padded(m, a) == Padded(m, b) {
      assert Padded(m, a)[|p|..] == LengthBytes(a) && Padded(m, b)[|p|..] == LengthBytes(b);
      LengthDetermines(a, b);
    }
  }

  lemma LengthDetermines(a: nat, b: nat)
    requires a < TWO_64 && b < TWO_64 && LengthBytes(a) == LengthBytes(b)
    ensures a == b
  {
    var s, t := LengthBytes(a), LengthBytes(b);
    LengthIsShifted(a);
    LengthIsShifted(b);
    forall i | 0 <= i < 8
      ensures Shifted(a, i) % 256 == Shifted(b, i) % 256
    {
      assert s[i] == t[i];
      LowDetermines(Shifted(a, i), Shifted(b, i));
    }
    hide LengthBytes;
    ShiftedEnds(a);
    ShiftedEnds(b);
    ShiftedDetermines(a, b, 0);
  }

  /** a without its i lowest bytes. */
  function Shifted(a: nat, i: nat): nat {
    if i == 0 then a else Shifted(a, i - 1) / 256
  }

  lemma LengthIsShifted(a: nat)
    ensures forall i :: 0 <= i < 8 ==> LengthBytes(a)[i] == Low(Shifted(a, i))
    ensures Shifted(a, 7) == a / 0x100_0000_0000_0000
  {
    hide Low;
    assert Shifted(a, 1) == a / 0x100;
    assert Shifted(a, 2) == a / 0x1_0000;
    assert Shifted(a, 3) == a / 0x100_0000;
    assert Shifted(a, 4) == a / 0x1_0000_0000;
    assert Shifted(a, 5) == a / 0x100_0000_0000;
    assert Shifted(a, 6) == a / 0x1_0000_0000_0000;
    assert Shifted(a, 7) == a / 0x100_0000_0000_0000;
  }

  lemma ShiftedEnds(a: nat)
    requires a < TWO_64
    ensures Shifted(a, 8) == 0
  {
    TopByte(a);
    LengthIsShifted(a);
    assert Shifted(a, 8) == Shifted(a, 7) / 256;
  }

  lemma TopByte(a: nat)
    requires a < TWO_64
    ensures a / 0x100_0000_0000_0000 < 256
  {
  }

  lemma LowDetermines(x: nat, y: nat)
    requires Low(x) == Low(y)
    ensures x % 256 == y % 256
  {
    ByteValue(x % 256);
    ByteValue(y % 256);
  }

  lemma {:induction false} ShiftedDetermines(a: nat, b: nat, i: nat)
    requires i <= 8 && Shifted(a, 8) == Shifted(b, 8)
    requires forall j :: i <= j < 8 ==> Shifted(a, j) % 256 == Shifted(b, j) % 256
    ensures Shifted(a, i) == Shifted(b, i)
    decreases 8 - i
  {
    if i == 8 {
    } else {
      ShiftedDetermines(a, b, i + 1);
      assert Shifted(a, i) == 256 * Shifted(a, i + 1) + Shifted(a, i) % 256;
      assert Shifted(b, i) == 256 * Shifted(b, i + 1) + Shifted(b, i) % 256;
    }
  }

  lemma {:induction false} NothingDropped(chunks: seq<seq<Byte>>)
    requires forall c :: c in chunks ==> |c| < TWO_29
    ensures Dropped(chunks) == 0
  {
    if chunks == [] {
    } else {
      assert chunks[0] in chunks;
      NothingDropped(chunks[1..]);
    }
  }

  /** What any sequence of calls hashes: the whole message, padded with the count kept. */
  lemma StreamedHash(chunks: seq<seq<Byte>>)
    ensures Finished(AbsorbAll(START, chunks)).hash
         == Fold(INITIAL, Padded(Joined(chunks), AbsorbAll(START, chunks).size))
  {
    hide Absorb, AbsorbAll, Joined, Finished, Padded, Fold, Holds, Live, View.Valid;
    StartHolds();
    assert [] + Joined(chunks) == Joined(chunks);
    AllHold(START, [], chunks);
    FinishedDigest(AbsorbAll(START, chunks), Joined(chunks));
  }

  /** So the digest is that of RFC 1321, in particular with pieces below 2^29 bytes. */
  lemma StreamedDigest(chunks: seq<seq<Byte>>)
    ensures Dropped(chunks) % TWO_32 == 0 ==>
              DigestBytes(Finished(AbsorbAll(START, chunks)).hash) == RfcDigest(Joined(chunks))
    ensures (forall c :: c in chunks ==> |c| < TWO_29) ==> Dropped(chunks) == 0
  {
    hide Absorb, AbsorbAll, Joined, Finished, Padded, RfcPadded, DigestBytes, Fold, Dropped;
    StreamedHash(chunks);
    StreamedPadding(chunks);
    if forall c :: c in chunks ==> |c| < TWO_29 {
      NothingDropped(chunks);
    }
  }

  lemma StartCounted(n: nat)
    ensures Counted(START.size, n) == 8 * n % TWO_32
  {
  }

  /** What one call hashes, for every length it accepts: the message padded with the bit
      count modulo 2^32. */
  lemma DigestHashes(input: seq<Byte>)
    requires |input| < TWO_32
    ensures Finished(Absorb(START, input)).hash == Fold(INITIAL, Padded(input, 8 * |input| % TWO_32))
  {
    StartCounted(|input|);
    hide Absorb, Finished, Padded, Fold, Holds, Counted;
    StartHolds();
    AbsorbHolds(START, [], input);
    AbsorbCounts(START, input);
    assert [] + input == input;
    FinishedDigest(Absorb(START, input), input);
  }

  /** That is the RFC 1321 padding exactly for inputs below 2^29 bytes. */
  lemma OneCallPadding(input: seq<Byte>)
    requires |input| < TWO_32
    ensures Padded(input, 8 * |input| % TWO_32) == RfcPadded(input) <==> |input| < TWO_29
  {
    hide Padded, RfcPadded, LengthBytes, Low;
    PaddingAgrees(input);
    CountFits(|input|);
    if |input| >= TWO_29 {
      FifthByte(|input|);
      PaddedTail(input, 8 * |input| % TWO_32);
      PaddedTail(input, 8 * |input|);
    }
  }

  /** The shortest input that fails: 2^29 zero bytes. */
  lemma FirstFailure()
    ensures var input := seq(TWO_29, _ => 0 as Byte);
            Padded(input, 8 * |input| % TWO_32) != RfcPadded(input)
  {
    hide Padded, RfcPadded;
    OneCallPadding(seq(TWO_29, _ => 0 as Byte));
  }

  lemma PaddedTail(m: seq<Byte>, size: nat)
    ensures |Padded(m, size)| >= 8
    ensures Padded(m, size)[|Padded(m, size)| - 4] == Low(size / 0x1_0000_0000)
    ensures |Padded(m, size)| == |m| + PadLen(|m| % BLOCK) + 8
  {
    hide Low, Padding;
  }

  lemma CountFits(n: nat)
    requires n < TWO_32
    ensures 8 * n % TWO_64 == 8 * n
    ensures n < TWO_29 ==> 8 * n % TWO_32 == 8 * n
  {
  }

  lemma FifthByte(n: nat)
    requires TWO_29 <= n < TWO_32
    ensures Low(8 * n / 0x1_0000_0000) != Low(8 * n % TWO_32 / 0x1_0000_0000)
  {
    var k := n / TWO_29;
    assert 8 * n / 0x1_0000_0000 == k && 1 <= k < 8;
    assert 8 * n % TWO_32 / 0x1_0000_0000 == 0;
    SmallByte(k);
  }

  lemma SmallByte(k: nat)
    requires 1 <= k < 8
    ensures Low(k) != Low(0)
  {
    assert k == 1 || k == 2 || k == 3 || k == 4 || k == 5 || k == 6 || k == 7;
  }

  /** The one-call digest is the RFC 1321 digest of every input below 2^29 bytes. */
  lemma OneCallDigest(input: seq<Byte>)
    requires |input| < TWO_29
    ensures DigestBytes(Finished(Absorb(START, input)).hash) == RfcDigest(input)
  {
    hide Absorb, Finished, Padded, RfcPadded, DigestBytes, Fold;
    DigestHashes(input);
    OneCallPadding(input);
  }
}
