/** The MD5 compression function: 64 unrolled register-rotated steps against the fold of
    RFC 1321, section 3.4. */
module Md5Compression {
  import opened Words

  /** The four chaining registers. */
  datatype Regs = Regs(a: Word, b: Word, c: Word, d: Word)

  type Table = t: seq<Word> | |t| == 64 witness seq(64, _ => 0)

  const MD5TAB: Table :=
    [0xD76AA478, 0xE8C7B756, 0x242070DB, 0xC1BDCEEE,
     0xF57C0FAF, 0x4787C62A, 0xA8304613, 0xFD469501,
     0x698098D8, 0x8B44F7AF, 0xFFFF5BB1, 0x895CD7BE,
     0x6B901122, 0xFD987193, 0xA679438E, 0x49B40821]
  + [0xF61E2562, 0xC040B340, 0x265E5A51, 0xE9B6C7AA,
     0xD62F105D, 0x02441453, 0xD8A1E681, 0xE7D3FBC8,
     0x21E1CDE6, 0xC33707D6, 0xF4D50D87, 0x455A14ED,
     0xA9E3E905, 0xFCEFA3F8, 0x676F02D9, 0x8D2A4C8A]
  + [0xFFFA3942, 0x8771F681, 0x6D9D6122, 0xFDE5380C,
     0xA4BEEA44, 0x4BDECFA9, 0xF6BB4B60, 0xBEBFBC70,
     0x289B7EC6, 0xEAA127FA, 0xD4EF3085, 0x04881D05,
     0xD9D4D039, 0xE6DB99E5, 0x1FA27CF8, 0xC4AC5665]
  + [0xF4292244, 0x432AFF97, 0xAB9423A7, 0xFC93A039,
     0x655B59C3, 0x8F0CCC92, 0xFFEFF47D, 0x85845DD1,
     0x6FA87E4F, 0xFE2CE6E0, 0xA3014314, 0x4E0811A1,
     0xF7537E82, 0xBD3AF235, 0x2AD7D2BB, 0xEB86D391]

  // ---------------------------------------------------------------- the standard's functions

  function F(x: Word, y: Word, z: Word): Word { (x & y) | (!x & z) }
  function G(x: Word, y: Word, z: Word): Word { (x & z) | (y & !z) }
  function H(x: Word, y: Word, z: Word): Word { Xor(Xor(x, y), z) }
  function I(x: Word, y: Word, z: Word): Word { y ^ (x | !z) }

  function Auxiliary(i: nat, x: Word, y: Word, z: Word): Word {
    if i < 16 then F(x, y, z) else if i < 32 then G(x, y, z) else if i < 48 then H(x, y, z) else I(x, y, z)
  }

  /** The message word that step i uses. */
  function Index(i: nat): (k: nat)
    ensures k < 16
  {
    if i < 16 then i else if i < 32 then (5 * i + 1) % 16 else if i < 48 then (3 * i + 5) % 16 else 7 * i % 16
  }

  function Amount(i: nat): (s: nat)
    ensures 0 < s < 32
  {
    var j := i % 4;
    if i < 16 then (if j == 0 then 7 else if j == 1 then 12 else if j == 2 then 17 else 22)
    else if i < 32 then (if j == 0 then 5 else if j == 1 then 9 else if j == 2 then 14 else 20)
    else if i < 48 then (if j == 0 then 4 else if j == 1 then 11 else if j == 2 then 16 else 23)
    else (if j == 0 then 6 else if j == 1 then 10 else if j == 2 then 15 else 21)
  }

  function Rot(x: Word, y: nat): Word
    requires 0 < y < 32
  {
    (x << y) | (x >> (32 - y))
  }

  /** b plus the rotated sum of a, the auxiliary value, the message word and the constant. */
  function Combine(a: Word, b: Word, f: Word, w: Word, s: nat, t: Word): Word
    requires 0 < s < 32
  {
    Rot(a + (f + w + t), s) + b
  }

  type Block16 = w: seq<Word> | |w| == 16 witness seq(16, _ => 0)

  /** Step i of 64; the registers rotate by one place. */
  function Operation(i: nat, r: Regs, w: Block16): Regs
    requires i < 64
  {
    Regs(r.d, Combine(r.a, r.b, Auxiliary(i, r.b, r.c, r.d), w[Index(i)], Amount(i), MD5TAB[i]), r.b, r.c)
  }

  function Operations(n: nat, r: Regs, w: Block16): Regs
    requires n <= 64
  {
    if n == 0 then r else Operation(n - 1, Operations(n - 1, r, w), w)
  }

  function PlusRegs(r: Regs, s: Regs): Regs {
    Regs(r.a + s.a, r.b + s.b, r.c + s.c, r.d + s.d)
  }

  /** The compression function on decoded words. */
  function CompressWords(r: Regs, w: Block16): Regs {
    PlusRegs(r, Operations(64, r, w))
  }

  // ---------------------------------------------------------------- the macros

  function FastF(x: Word, y: Word, z: Word): Word { z ^ (x & (y ^ z)) }
  function FastG(x: Word, y: Word, z: Word): Word { y ^ (z & (x ^ y)) }

  lemma FastForms(x: Word, y: Word, z: Word)
    ensures FastF(x, y, z) == F(x, y, z)
    ensures FastG(x, y, z) == G(x, y, z)
  {
    FastFormF(x, y, z);
    FastFormG(x, y, z);
  }

  lemma FastFormF(x: Word, y: Word, z: Word)
    ensures z ^ (x & (y ^ z)) == (x & y) | (!x & z)
  {
  }

  lemma FastFormG(x: Word, y: Word, z: Word)
    ensures y ^ (z & (x ^ y)) == (x & z) | (y & !z)
  {
  }

  function FH(a: Word, b: Word, c: Word, d: Word, w: Word, s: nat, t: Word): Word
    requires 0 < s < 32
  {
    Combine(a, b, FastF(b, c, d), w, s, t)
  }

  function GH(a: Word, b: Word, c: Word, d: Word, w: Word, s: nat, t: Word): Word
    requires 0 < s < 32
  {
    Combine(a, b, FastG(b, c, d), w, s, t)
  }

  function HH(a: Word, b: Word, c: Word, d: Word, w: Word, s: nat, t: Word): Word
    requires 0 < s < 32
  {
    Combine(a, b, H(b, c, d), w, s, t)
  }

  function IH(a: Word, b: Word, c: Word, d: Word, w: Word, s: nat, t: Word): Word
    requires 0 < s < 32
  {
    Combine(a, b, I(b, c, d), w, s, t)
  }

  function Macro(i: nat, a: Word, b: Word, c: Word, d: Word, w: Word, s: nat, t: Word): Word
    requires i < 64 && 0 < s < 32
  {
    if i < 16 then FH(a, b, c, d, w, s, t) else if i < 32 then GH(a, b, c, d, w, s, t)
    else if i < 48 then HH(a, b, c, d, w, s, t) else IH(a, b, c, d, w, s, t)
  }

  /** One macro line, on whatever registers play its roles, is one rotating step. */
  lemma OneLine(i: nat, r: Regs, w: Block16, k: nat, s: nat)
    requires i < 64 && k == Index(i) && s == Amount(i)
    ensures Operation(i, r, w) == Regs(r.d, Macro(i, r.a, r.b, r.c, r.d, w[k], s, MD5TAB[i]), r.b, r.c)
  {
    FastForms(r.b, r.c, r.d);
    hide F, G, H, I, FastF, FastG, Combine, Index, Amount, MD5TAB;
  }

  /** Four macro lines on named registers bring every register back to its own name. */
  lemma FourLines(i: nat, r: Regs, r4: Regs, w: Block16, k0: nat, k1: nat, k2: nat, k3: nat,
                  s0: nat, s1: nat, s2: nat, s3: nat)
    requires i + 3 < 64
    requires k0 == Index(i) && k1 == Index(i + 1) && k2 == Index(i + 2) && k3 == Index(i + 3)
    requires s0 == Amount(i) && s1 == Amount(i + 1) && s2 == Amount(i + 2) && s3 == Amount(i + 3)
    requires r4.a == Macro(i, r.a, r.b, r.c, r.d, w[k0], s0, MD5TAB[i])
    requires r4.d == Macro(i + 1, r.d, r4.a, r.b, r.c, w[k1], s1, MD5TAB[i + 1])
    requires r4.c == Macro(i + 2, r.c, r4.d, r4.a, r.b, w[k2], s2, MD5TAB[i + 2])
    requires r4.b == Macro(i + 3, r.b, r4.c, r4.d, r4.a, w[k3], s3, MD5TAB[i + 3])
    ensures Operation(i + 3, Operation(i + 2, Operation(i + 1, Operation(i, r, w), w), w), w) == r4
  {
    hide Macro, Operation, Index, Amount, MD5TAB;
    OneLine(i, r, w, k0, s0);
    OneLine(i + 1, Regs(r.d, r4.a, r.b, r.c), w, k1, s1);
    OneLine(i + 2, Regs(r.c, r4.d, r4.a, r.b), w, k2, s2);
    OneLine(i + 3, Regs(r.b, r4.c, r4.d, r4.a), w, k3, s3);
  }

  /** The same, for registers that are part way through a block. */
  lemma FourSteps(i: nat, start: Regs, r: Regs, r4: Regs, w: Block16, k0: nat, k1: nat, k2: nat, k3: nat,
                  s0: nat, s1: nat, s2: nat, s3: nat)
    requires i + 3 < 64 && r == Operations(i, start, w)
    requires k0 == Index(i) && k1 == Index(i + 1) && k2 == Index(i + 2) && k3 == Index(i + 3)
    requires s0 == Amount(i) && s1 == Amount(i + 1) && s2 == Amount(i + 2) && s3 == Amount(i + 3)
    requires r4.a == Macro(i, r.a, r.b, r.c, r.d, w[k0], s0, MD5TAB[i])
    requires r4.d == Macro(i + 1, r.d, r4.a, r.b, r.c, w[k1], s1, MD5TAB[i + 1])
    requires r4.c == Macro(i + 2, r.c, r4.d, r4.a, r.b, w[k2], s2, MD5TAB[i + 2])
    requires r4.b == Macro(i + 3, r.b, r4.c, r4.d, r4.a, w[k3], s3, MD5TAB[i + 3])
    ensures Operations(i + 4, start, w) == r4
  {
    hide Macro, Operation, Index, Amount, MD5TAB;
    FourLines(i, r, r4, w, k0, k1, k2, k3, s0, s1, s2, s3);
    OperationsNext(i, start, w);
  }

  lemma OperationsNext(n: nat, r: Regs, w: Block16)
    requires n + 4 <= 64
    ensures Operations(n + 4, r, w)
         == Operation(n + 3, Operation(n + 2, Operation(n + 1, Operation(n, Operations(n, r, w), w), w), w), w)
  {
    hide Operation;
    assert Operations(n + 1, r, w) == Operation(n, Operations(n, r, w), w);
    assert Operations(n + 2, r, w) == Operation(n + 1, Operations(n + 1, r, w), w);
    assert Operations(n + 3, r, w) == Operation(n + 2, Operations(n + 2, r, w), w);
  }

  /** Four lines of the first round. */
  method QuadF(r: Regs, w: Block16, i: nat, k0: nat, k1: nat, k2: nat, k3: nat, ghost start: Regs)
    returns (next: Regs)
    requires 0 <= i && i + 4 <= 16 && i % 4 == 0 && r == Operations(i, start, w)
    requires k0 == Index(i) && k1 == Index(i + 1) && k2 == Index(i + 2) && k3 == Index(i + 3)
    ensures next == Operations(i + 4, start, w)
  {
    var a, b, c, d := r.a, r.b, r.c, r.d;
    hide Index, Operation, Operations, FH, MD5TAB;
    a := FH(a, b, c, d, w[k0], 7, MD5TAB[i]);
    d := FH(d, a, b, c, w[k1], 12, MD5TAB[i + 1]);
    c := FH(c, d, a, b, w[k2], 17, MD5TAB[i + 2]);
    b := FH(b, c, d, a, w[k3], 22, MD5TAB[i + 3]);
    next := Regs(a, b, c, d);
    FourSteps(i, start, r, next, w, k0, k1, k2, k3, 7, 12, 17, 22);
  }

  /** Four lines of the second round. */
  method QuadG(r: Regs, w: Block16, i: nat, k0: nat, k1: nat, k2: nat, k3: nat, ghost start: Regs)
    returns (next: Regs)
    requires 16 <= i && i + 4 <= 32 && i % 4 == 0 && r == Operations(i, start, w)
    requires k0 == Index(i) && k1 == Index(i + 1) && k2 == Index(i + 2) && k3 == Index(i + 3)
    ensures next == Operations(i + 4, start, w)
  {
    var a, b, c, d := r.a, r.b, r.c, r.d;
    hide Index, Operation, Operations, GH, MD5TAB;
    a := GH(a, b, c, d, w[k0], 5, MD5TAB[i]);
    d := GH(d, a, b, c, w[k1], 9, MD5TAB[i + 1]);
    c := GH(c, d, a, b, w[k2], 14, MD5TAB[i + 2]);
    b := GH(b, c, d, a, w[k3], 20, MD5TAB[i + 3]);
    next := Regs(a, b, c, d);
    FourSteps(i, start, r, next, w, k0, k1, k2, k3, 5, 9, 14, 20);
  }

  /** Four lines of the third round. */
  method QuadH(r: Regs, w: Block16, i: nat, k0: nat, k1: nat, k2: nat, k3: nat, ghost start: Regs)
    returns (next: Regs)
    requires 32 <= i && i + 4 <= 48 && i % 4 == 0 && r == Operations(i, start, w)
    requires k0 == Index(i) && k1 == Index(i + 1) && k2 == Index(i + 2) && k3 == Index(i + 3)
    ensures next == Operations(i + 4, start, w)
  {
    var a, b, c, d := r.a, r.b, r.c, r.d;
    hide Index, Operation, Operations, HH, MD5TAB;
    a := HH(a, b, c, d, w[k0], 4, MD5TAB[i]);
    d := HH(d, a, b, c, w[k1], 11, MD5TAB[i + 1]);
    c := HH(c, d, a, b, w[k2], 16, MD5TAB[i + 2]);
    b := HH(b, c, d, a, w[k3], 23, MD5TAB[i + 3]);
    next := Regs(a, b, c, d);
    FourSteps(i, start, r, next, w, k0, k1, k2, k3, 4, 11, 16, 23);
  }

  /** Four lines of the last round. */
  method QuadI(r: Regs, w: Block16, i: nat, k0: nat, k1: nat, k2: nat, k3: nat, ghost start: Regs)
    returns (next: Regs)
    requires 48 <= i && i + 4 <= 64 && i % 4 == 0 && r == Operations(i, start, w)
    requires k0 == Index(i) && k1 == Index(i + 1) && k2 == Index(i + 2) && k3 == Index(i + 3)
    ensures next == Operations(i + 4, start, w)
  {
    var a, b, c, d := r.a, r.b, r.c, r.d;
    hide Index, Operation, Operations, IH, MD5TAB;
    a := IH(a, b, c, d, w[k0], 6, MD5TAB[i]);
    d := IH(d, a, b, c, w[k1], 10, MD5TAB[i + 1]);
    c := IH(c, d, a, b, w[k2], 15, MD5TAB[i + 2]);
    b := IH(b, c, d, a, w[k3], 21, MD5TAB[i + 3]);
    next := Regs(a, b, c, d);
    FourSteps(i, start, r, next, w, k0, k1, k2, k3, 6, 10, 15, 21);
  }

  method FirstRound(r: Regs, w: Block16, ghost start: Regs) returns (next: Regs)
    requires r == Operations(0, start, w)
    ensures next == Operations(16, start, w)
  {
    hide Operations;
    next := QuadF(r, w, 0, 0, 1, 2, 3, start);
    next := QuadF(next, w, 4, 4, 5, 6, 7, start);
    next := QuadF(next, w, 8, 8, 9, 10, 11, start);
    next := QuadF(next, w, 12, 12, 13, 14, 15, start);
  }

  method SecondRound(r: Regs, w: Block16, ghost start: Regs) returns (next: Regs)
    requires r == Operations(16, start, w)
    ensures next == Operations(32, start, w)
  {
    hide Operations;
    next := QuadG(r, w, 16, 1, 6, 11, 0, start);
    next := QuadG(next, w, 20, 5, 10, 15, 4, start);
    next := QuadG(next, w, 24, 9, 14, 3, 8, start);
    next := QuadG(next, w, 28, 13, 2, 7, 12, start);
  }

  method ThirdRound(r: Regs, w: Block16, ghost start: Regs) returns (next: Regs)
    requires r == Operations(32, start, w)
    ensures next == Operations(48, start, w)
  {
    hide Operations;
    next := QuadH(r, w, 32, 5, 8, 11, 14, start);
    next := QuadH(next, w, 36, 1, 4, 7, 10, start);
    next := QuadH(next, w, 40, 13, 0, 3, 6, start);
    next := QuadH(next, w, 44, 9, 12, 15, 2, start);
  }

  method LastRound(r: Regs, w: Block16, ghost start: Regs) returns (next: Regs)
    requires r == Operations(48, start, w)
    ensures next == Operations(64, start, w)
  {
    hide Operations;
    next := QuadI(r, w, 48, 0, 7, 14, 5, start);
    next := QuadI(next, w, 52, 12, 3, 10, 1, start);
    next := QuadI(next, w, 56, 8, 15, 6, 13, start);
    next := QuadI(next, w, 60, 4, 11, 2, 9, start);
  }

  method Compress(r: Regs, w: Block16) returns (next: Regs)
    ensures next == CompressWords(r, w)
  {
    StartOperations(r, w);
    hide Operations, PlusRegs;
    var t := FirstRound(r, w, r);
    t := SecondRound(t, w, r);
    t := ThirdRound(t, w, r);
    t := LastRound(t, w, r);
    next := PlusRegs(r, t);
  }

  lemma StartOperations(r: Regs, w: Block16)
    ensures Operations(0, r, w) == r
  {
  }
}
