/** What the Blue Burst definitions compute, stated apart from them. */
module BbReference {
  import opened Words
  import opened Feistel
  import opened CryptState
  import opened BbCrypt
  import opened BbSchedule

  // ---------------------------------------------------------------- the round function

  /** The round function of Blowfish: of the four box words that the bytes of x select, top byte
      first, the first two are added, the third xored in and the fourth added. */
  lemma RoundFunctionUndone(keys: seq<Word>, x: Word)
    requires |keys| == 1042
    ensures var s0, s1 := keys[18..274][ByteOf(x, 3) as int], keys[274..530][ByteOf(x, 2) as int];
            var s2, s3 := keys[530..786][ByteOf(x, 1) as int], keys[786..1042][ByteOf(x, 0) as int];
            Minus(Xor(Minus(BoxesOf(keys)(x), s3), s2), s1) == s0
  {
    hide Lane0, Lane1, Lane2, Lane3, Mix, Minus, Xor;
    MixUndone(keys[Lane3(x) as int + 18], keys[Lane2(x) as int + 274],
              keys[Lane1(x) as int + 530], keys[Lane0(x) as int + 786]);
  }

  lemma MixUndone(s0: Word, s1: Word, s2: Word, s3: Word)
    ensures Minus(Xor(Minus(Mix(s0, s1, s2, s3), s3), s2), s1) == s0
  {
    hide Plus, Minus, Xor;
    SumUndone(Xor(Plus(s0, s1), s2), s3);
    XorCancels(Plus(s0, s1), s2);
    SumUndone(s0, s1);
  }

  lemma SumUndone(a: Word, b: Word)
    ensures Minus(Plus(a, b), b) == a
  {
    hide Plus, Minus;
    PlusIs(a, b);
    RawSumUndone(a, b);
  }

  lemma RawSumUndone(a: Word, b: Word)
    ensures Minus(a + b, b) == a
  {
  }

  // ---------------------------------------------------------------- the schedule

  /** The key array the chain starts from: the first 576 fraction bits of pi, each word xored
      with four bytes of the salt read cyclically from the top, each byte of the salt being
      masked by its position modulo 3; then the table. */
  lemma StartWord(salt: seq<Byte>, table: seq<Word>, i: nat)
    requires |salt| == 48 && |table| == 1024 && i < 1042
    ensures i >= 18 ==> Start(salt, table)[i] == table[i - 18]
    ensures i < 18 ==>
              Start(salt, table)[i] == Xor(
                [0x243F6A88, 0x85A308D3, 0x13198A2E, 0x03707344, 0xA4093822, 0x299F31D0,
                 0x082EFA98, 0xEC4E6C89, 0x452821E6, 0x38D01377, 0xBE5466CF, 0x34E90C6C,
                 0xC0AC29B7, 0xC97C50DD, 0x3F84D5B5, 0xB5470917, 0x9216D5D9, 0x8979FB1B][i],
                FromBytes(Masked(salt, 4 * i + 3), Masked(salt, 4 * i + 2), Masked(salt, 4 * i + 1),
                          Masked(salt, 4 * i)))
  {
    hide Xor, FromBytes, XorByte;
    if i < 18 {
      MaskedAt(salt, 4 * i);
      MaskedAt(salt, 4 * i + 1);
      MaskedAt(salt, 4 * i + 2);
      MaskedAt(salt, 4 * i + 3);
    }
  }

  function Masked(salt: seq<Byte>, x: nat): Byte
    requires |salt| == 48
  {
    XorByte(salt[x % 48], [0x19, 0x16, 0x18][x % 3])
  }

  lemma MaskedAt(salt: seq<Byte>, x: nat)
    requires |salt| == 48
    ensures MaskedSalt(salt)[x % 48] == Masked(salt, x)
  {
    hide XorByte;
    RemainderIs(x % 48, 3, 16 - 16 + (x % 48) / 3, (x % 48) % 3);
    RemainderIs(x, 3, 16 * (x / 48) + (x % 48) / 3, (x % 48) % 3);
  }

  /** One link of the chain is sixteen rounds on keys 0 to 15, whitened with keys 16 and 17. */
  lemma EncipherTrace(keys: seq<Word>, b: Block) returns (l: seq<Word>, r: seq<Word>)
    requires |keys| == 1042
    ensures |l| == |r| == 17 && l[0] == b.0 && r[0] == b.1
    ensures forall i :: 0 <= i < 16 ==>
              l[i + 1] == Xor(r[i], BoxesOf(keys)(Xor(l[i], keys[i]))) && r[i + 1] == Xor(l[i], keys[i])
    ensures Encipher(keys, b) == (Xor(r[16], keys[17]), Xor(l[16], keys[16]))
  {
    hide Xor, BoxesOf, Network;
    l, r := NetworkTrace(BoxesOf(keys), keys[..P_WORDS], b);
  }

  // ---------------------------------------------------------------- one value

  /** Which words x selects. */
  lemma Selected(keys: seq<Word>, x: Word, b1: Byte, b0: Byte, i1: nat, i0: nat)
    requires |keys| == 1042 && Lane3(x) == 0 && Lane2(x) == 0 && Lane1(x) == b1 && Lane0(x) == b0
    requires b1 as int + 0x212 == i1 && b0 as int + 0x312 == i0 && i1 < 1042 && i0 < 1042
    ensures BoxesOf(keys)(x) == Mix(keys[0x12], keys[0x112], keys[i1], keys[i0])
  {
    hide Mix, Lane0, Lane1, Lane2, Lane3;
  }

  /** An array that holds its own indices wherever the zero block reads it. */
  ghost predicate Counting(keys: seq<Word>) {
    && |keys| == 1042 && EncryptKeys(keys) == [0, 1, 2, 3, 4, 5]
    && keys[0x12] == 0x12 && keys[0x112] == 0x112 && keys[0x212] == 0x212 && keys[0x218] == 0x218
    && keys[0x312] == 0x312 && keys[0x35B] == 0x35B && keys[0x3A7] == 0x3A7 && keys[0x3BB] == 0x3BB
    && keys[0x317] == 0x317 && keys[0x3A3] == 0x3A3 && keys[0x3A6] == 0x3A6
  }

  lemma CountingBox0(keys: seq<Word>)
    requires Counting(keys)
    ensures BoxesOf(keys)(0x0) == 0x648
  {
    hide BoxesOf;
    Selected(keys, 0x0, 0x0, 0x0, 0x212, 0x312);
  }

  lemma CountingBox649(keys: seq<Word>)
    requires Counting(keys)
    ensures BoxesOf(keys)(0x649) == 0x697
  {
    hide BoxesOf;
    Selected(keys, 0x649, 0x6, 0x49, 0x218, 0x35B);
  }

  lemma CountingBox695(keys: seq<Word>)
    requires Counting(keys)
    ensures BoxesOf(keys)(0x695) == 0x6E3
  {
    hide BoxesOf;
    Selected(keys, 0x695, 0x6, 0x95, 0x218, 0x3A7);
  }

  lemma CountingBoxA9(keys: seq<Word>)
    requires Counting(keys)
    ensures BoxesOf(keys)(0xA9) == 0x6F1
  {
    hide BoxesOf;
    Selected(keys, 0xA9, 0x0, 0xA9, 0x212, 0x3BB);
  }

  lemma CountingBox5(keys: seq<Word>)
    requires Counting(keys)
    ensures BoxesOf(keys)(0x5) == 0x64D
  {
    hide BoxesOf;
    Selected(keys, 0x5, 0x0, 0x5, 0x212, 0x317);
  }

  lemma CountingBox691(keys: seq<Word>)
    requires Counting(keys)
    ensures BoxesOf(keys)(0x691) == 0x6DF
  {
    hide BoxesOf;
    Selected(keys, 0x691, 0x6, 0x91, 0x218, 0x3A3);
  }

  lemma CountingBox94(keys: seq<Word>)
    requires Counting(keys)
    ensures BoxesOf(keys)(0x94) == 0x6DC
  {
    hide BoxesOf;
    Selected(keys, 0x94, 0x0, 0x94, 0x212, 0x3A6);
  }

  /** The zero block under such an array, encrypted and decrypted. */
  lemma CountingBlock(keys: seq<Word>)
    requires Counting(keys)
    ensures Network(BoxesOf(keys), [0, 1, 2, 3, 4, 5], (0, 0)) == (0xAC, 0x60)
    ensures Network(BoxesOf(keys), [5, 4, 3, 2, 1, 0], (0, 0)) == (0x94, 0x4C)
  {
    hide BoxesOf, Counting, Network;
    CountingBox0(keys);
    CountingBox649(keys);
    CountingBox695(keys);
    CountingBoxA9(keys);
    CountingBox5(keys);
    CountingBox691(keys);
    CountingBox94(keys);
    FourLiteralRounds(BoxesOf(keys), [0, 1, 2, 3, 4, 5], (0, 0));
    FourLiteralRounds(BoxesOf(keys), [5, 4, 3, 2, 1, 0], (0, 0));
  }

  lemma FourLiteralRounds(f: RoundFunction, ps: seq<Word>, b: Block)
    requires |ps| == 6
    ensures var l1 := Xor(b.1, f(Xor(b.0, ps[0])));
            var r1 := Xor(b.0, ps[0]);
            var l2, r2 := Xor(r1, f(Xor(l1, ps[1]))), Xor(l1, ps[1]);
            var l3, r3 := Xor(r2, f(Xor(l2, ps[2]))), Xor(l2, ps[2]);
            var l4, r4 := Xor(r3, f(Xor(l3, ps[3]))), Xor(l3, ps[3]);
            Network(f, ps, b) == (Xor(r4, ps[5]), Xor(l4, ps[4]))
  {
    hide Xor;
    hide Network;
    var l, r := NetworkTrace(f, ps, b);
    assert l[0 + 1] == Xor(r[0], f(Xor(l[0], ps[0]))) && r[0 + 1] == Xor(l[0], ps[0]);
    assert l[1 + 1] == Xor(r[1], f(Xor(l[1], ps[1]))) && r[1 + 1] == Xor(l[1], ps[1]);
    assert l[2 + 1] == Xor(r[2], f(Xor(l[2], ps[2]))) && r[2 + 1] == Xor(l[2], ps[2]);
    assert l[3 + 1] == Xor(r[3], f(Xor(l[3], ps[3]))) && r[3 + 1] == Xor(l[3], ps[3]);
  }
}
