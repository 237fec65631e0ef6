/** Blue Burst block cipher: four Blowfish rounds on an 18-word P array and four 256-word
    S boxes, all kept in one 1042-word key array. */
module BbCrypt {
  import opened Words
  import opened Feistel
  import opened CryptState

  /** The round function, with the S boxes read from the key array. */
  function F(keys: seq<Word>, x: Word): Word {
    if |keys| != KEY_WORDS then 0 else
      Mix(keys[Lane3(x) as int + 0x12], keys[Lane2(x) as int + 0x112],
          keys[Lane1(x) as int + 0x212], keys[Lane0(x) as int + 0x312])
  }

  function Mix(s0: Word, s1: Word, s2: Word, s3: Word): Word {
    Plus(Xor(Plus(s0, s1), s2), s3)
  }

  function BoxesOf(keys: seq<Word>): RoundFunction {
    x => F(keys, x)
  }

  method Substitute(keys: array<Word>, x: Word) returns (y: Word)
    requires keys.Length == KEY_WORDS
    ensures y == BoxesOf(keys[..])(x)
  {
    y := Mix(keys[Lane3(x) as int + 0x12], keys[Lane2(x) as int + 0x112],
             keys[Lane1(x) as int + 0x212], keys[Lane0(x) as int + 0x312]);
  }

  // ---------------------------------------------------------------- buffers of 8-byte blocks

  function LoadBlock(s: seq<Byte>): Block
    requires |s| >= 8
  {
    (Load(s, 0), Load(s, 4))
  }

  function BlockBytes(b: Block): (s: seq<Byte>)
    ensures |s| == 8
  {
    ToBytes(b.0) + ToBytes(b.1)
  }

  /** A network applied to each block of a buffer. */
  function Blocks(f: RoundFunction, ps: seq<Word>, data: seq<Byte>): (out: seq<Byte>)
    requires |ps| >= 2 && |data| % 8 == 0
    ensures |out| == |data|
  {
    if data == [] then [] else
      BlockBytes(Network(f, ps, LoadBlock(data[..8]))) + Blocks(f, ps, data[8..])
  }

  lemma {:induction false} BlocksSplit(f: RoundFunction, ps: seq<Word>, a: seq<Byte>, b: seq<Byte>)
    requires |ps| >= 2 && |a| % 8 == 0 && |b| % 8 == 0
    ensures Blocks(f, ps, a + b) == Blocks(f, ps, a) + Blocks(f, ps, b)
  {
    hide Network, BlockBytes, LoadBlock;
    if a == [] {
      assert a + b == b;
    } else {
      assert (a + b)[..8] == a[..8] && (a + b)[8..] == a[8..] + b;
      BlocksSplit(f, ps, a[8..], b);
    }
  }

  /** Block j of the output is the network of block j of the input. */
  lemma {:induction false} BlockAt(f: RoundFunction, ps: seq<Word>, data: seq<Byte>, j: nat)
    requires |ps| >= 2 && |data| % 8 == 0 && 8 * j + 8 <= |data|
    ensures Blocks(f, ps, data)[8 * j..8 * j + 8] == BlockBytes(Network(f, ps, LoadBlock(data[8 * j..8 * j + 8])))
    decreases j
  {
    hide Network, BlockBytes, LoadBlock;
    var first, rest := BlockBytes(Network(f, ps, LoadBlock(data[..8]))), data[8..];
    assert Blocks(f, ps, data) == first + Blocks(f, ps, rest);
    if j == 0 {
    } else {
      BlockAt(f, ps, rest, j - 1);
      assert data[8 * j..8 * j + 8] == rest[8 * (j - 1)..8 * (j - 1) + 8];
      assert Blocks(f, ps, data)[8 * j..8 * j + 8] == Blocks(f, ps, rest)[8 * (j - 1)..8 * (j - 1) + 8];
    }
  }

  lemma LoadBlockBytes(b: Block)
    ensures LoadBlock(BlockBytes(b)) == b
  {
    LoadOfBytes(b.0);
    LoadOfBytes(b.1);
    hide ByteOf, FromBytes;
  }

  lemma BytesLoadBlock(s: seq<Byte>)
    requires |s| == 8
    ensures BlockBytes(LoadBlock(s)) == s
  {
    BytesOfLoad(s[0], s[1], s[2], s[3]);
    BytesOfLoad(s[4], s[5], s[6], s[7]);
    hide ByteOf, FromBytes;
  }

  /** Reversed subkeys restore every buffer of whole blocks. */
  lemma {:induction false} BlocksInverse(f: RoundFunction, ps: seq<Word>, data: seq<Byte>)
    requires |ps| >= 2 && |data| % 8 == 0
    ensures Blocks(f, Reversed(ps), Blocks(f, ps, data)) == data
  {
    if data == [] {
    } else {
      BlocksInverse(f, ps, data[8..]);
      var b := LoadBlock(data[..8]);
      var out := Blocks(f, ps, data);
      assert out[..8] == BlockBytes(Network(f, ps, b)) && out[8..] == Blocks(f, ps, data[8..]);
      hide Network, LoadBlock, BlockBytes, Reversed;
      LoadBlockBytes(Network(f, ps, b));
      NetworkInverse(f, ps, b);
      BytesLoadBlock(data[..8]);
      assert data == data[..8] + data[8..];
    }
  }

  // ---------------------------------------------------------------- encryption and decryption

  const CIPHER_KEYS := 6

  /** The subkeys of the four-round cipher. */
  function EncryptKeys(keys: seq<Word>): seq<Word>
    requires |keys| == KEY_WORDS
  {
    keys[..CIPHER_KEYS]
  }

  /** What the unrolled body of Encrypt and, with the keys reversed, of Decrypt computes. */
  lemma FourRounds(f: RoundFunction, ps: seq<Word>, b: Block, l0: Word, l1: Word, l2: Word, l3: Word)
    requires |ps| == CIPHER_KEYS
    requires l0 == Xor(b.0, ps[0])
    requires l1 == Xor(Xor(f(l0), ps[1]), b.1)
    requires l2 == Xor(l0, Xor(f(l1), ps[2]))
    requires l3 == Xor(Xor(l1, f(l2)), ps[3])
    ensures Network(f, ps, b) == (Xor(l3, ps[5]), Xor(l2, Xor(f(l3), ps[4])))
  {
    hide Xor;
    assert Rounds(f, ps, 1, b) == (Xor(b.1, f(l0)), l0);
    XorRotate(f(l0), ps[1], b.1);
    assert Rounds(f, ps, 2, b) == (Xor(l0, f(l1)), l1);
    XorAssoc(l0, f(l1), ps[2]);
    assert Rounds(f, ps, 3, b) == (Xor(l1, f(l2)), l2);
    assert Rounds(f, ps, 4, b) == (Xor(l2, f(l3)), l3);
    XorAssoc(l2, f(l3), ps[4]);
  }

  lemma XorRotate(y: Word, p: Word, r: Word)
    ensures Xor(Xor(y, p), r) == Xor(Xor(r, y), p)
  {
    hide Xor;
    XorComm(Xor(y, p), r);
    XorAssoc(r, y, p);
  }

  /** A buffer with the block at i replaced. */
  function BlockDone(f: RoundFunction, ps: seq<Word>, s: seq<Byte>, i: nat): (r: seq<Byte>)
    requires |ps| >= 2 && i + 8 <= |s|
    ensures |r| == |s|
  {
    s[..i] + BlockBytes(Network(f, ps, LoadBlock(s[i..i + 8]))) + s[i + 8..]
  }

  /** A buffer whose first n blocks are done. */
  function Done(f: RoundFunction, ps: seq<Word>, s: seq<Byte>, n: nat): (r: seq<Byte>)
    requires |ps| >= 2 && 8 * n <= |s|
    ensures |r| == |s|
  {
    Blocks(f, ps, s[..8 * n]) + s[8 * n..]
  }

  lemma DoneBounds(f: RoundFunction, ps: seq<Word>, s: seq<Byte>, n: nat)
    requires |ps| >= 2 && 8 * n <= |s|
    ensures Done(f, ps, s, 0) == s
    ensures Done(f, ps, s, n) == Blocks(f, ps, s[..8 * n]) + s[8 * n..]
  {
  }

  lemma Cut<T>(s: seq<T>, n: nat, m: nat)
    requires n <= m <= |s|
    ensures s[n..] == s[n..m] + s[m..] && s[..m] == s[..n] + s[n..m]
  {
  }

  lemma OneBlock(f: RoundFunction, ps: seq<Word>, block: seq<Byte>)
    requires |ps| >= 2 && |block| == 8
    ensures Blocks(f, ps, block) == BlockBytes(Network(f, ps, LoadBlock(block)))
  {
    assert block[..8] == block && block[8..] == [];
    hide BlockBytes, Network, LoadBlock;
  }

  lemma DoneStep(f: RoundFunction, ps: seq<Word>, s: seq<Byte>, n: nat)
    requires |ps| >= 2 && 8 * n + 8 <= |s|
    ensures BlockDone(f, ps, Done(f, ps, s, n), 8 * n) == Done(f, ps, s, n + 1)
  {
    hide Network, BlockBytes, LoadBlock, Blocks;
    var i := 8 * n;
    var head, block, tail := s[..i], s[i..i + 8], s[i + 8..];
    Cut(s, i, i + 8);
    OneBlock(f, ps, block);
    BlocksSplit(f, ps, head, block);
    assert Done(f, ps, s, n) == Blocks(f, ps, head) + block + tail;
    assert Done(f, ps, s, n)[i..i + 8] == block;
  }

  lemma LoadHalves(s: seq<Byte>, i: nat)
    requires i + 8 <= |s|
    ensures LoadBlock(s[i..i + 8]) == (Load(s, i), Load(s, i + 4))
  {
    hide FromBytes;
  }

  lemma AnotherBlock(n: nat, length: nat)
    requires length % 8 == 0 && 8 * n < length
    ensures 8 * n + 8 <= length
  {
  }

  /** Part way through a buffer: n blocks of plain are done. */
  ghost predicate Progress(cs: CryptSetup, data: array<Byte>, keys: seq<Word>, f: RoundFunction, ps: seq<Word>,
                           plain: seq<Byte>, n: nat)
    reads cs.keys, data
  {
    |ps| >= 2 && 8 * n <= |plain| && cs.keys[..] == keys && data[..] == Done(f, ps, plain, n)
  }

  method StoreBlock(data: array<Byte>, i: nat, l: Word, r: Word)
    requires i + 8 <= data.Length
    modifies data
    ensures data[..] == old(data[..i]) + BlockBytes((l, r)) + old(data[i + 8..])
  {
    hide ToBytes;
    Store32(data, i, l);
    Store32(data, i + 4, r);
  }

  /** One block: four unrolled rounds with the subkeys in order. */
  method EncryptBlock(cs: CryptSetup, data: array<Byte>, edx: nat)
    requires cs.keys.Length == KEY_WORDS && edx + 8 <= data.Length
    modifies data
    ensures data[..] == BlockDone(BoxesOf(cs.keys[..]), EncryptKeys(cs.keys[..]), old(data[..]), edx)
  {
    ghost var f, ps, b := BoxesOf(cs.keys[..]), EncryptKeys(cs.keys[..]), LoadBlock(data[edx..edx + 8]);
    hide Network, Rounds, F, BoxesOf, Load, Xor, LoadBlock;
    LoadHalves(data[..], edx);
    var ebx := Load32(data, edx);
    ebx := Xor(ebx, cs.keys[0]);
    ghost var l0 := ebx;
    var ebp := Substitute(cs.keys, ebx);
    ebp := Xor(ebp, cs.keys[1]);
    var tmp := Load32(data, edx + 4);
    ebp := Xor(ebp, tmp);
    ghost var l1 := ebp;
    var edi := Substitute(cs.keys, ebp);
    edi := Xor(edi, cs.keys[2]);
    ebx := Xor(ebx, edi);
    var esi := Substitute(cs.keys, ebx);
    ebp := Xor(Xor(ebp, esi), cs.keys[3]);
    FourRounds(f, ps, b, l0, l1, ebx, ebp);
    edi := Substitute(cs.keys, ebp);
    edi := Xor(edi, cs.keys[4]);
    ebp := Xor(ebp, cs.keys[5]);
    ebx := Xor(ebx, edi);
    StoreBlock(data, edx, ebp, ebx);
  }

  method Encrypt(cs: CryptSetup, data: array<Byte>, length: nat)
    requires cs.keys.Length == KEY_WORDS
    requires length <= data.Length && length % 8 == 0 && length < 0x1_0000_0000
    modifies data
    ensures data[..] == Blocks(BoxesOf(cs.keys[..]), EncryptKeys(cs.keys[..]), old(data[..length]))
                      + old(data[length..])
  {
    ghost var keys, plain := cs.keys[..], data[..];
    ghost var f, ps := BoxesOf(keys), EncryptKeys(keys);
    assert plain[..length] == data[..length] && plain[length..] == data[length..];
    DoneBounds(f, ps, plain, length / 8);
    var edx := 0;
    ghost var n := 0;
    assert Progress(cs, data, keys, f, ps, plain, n);
    while edx < length
      invariant edx == 8 * n && edx <= length && |plain| == data.Length
      invariant Progress(cs, data, keys, f, ps, plain, n)
    {
      AnotherBlock(n, length);
      DoneStep(f, ps, plain, n);
      hide BlockDone, Done, Blocks, BoxesOf, EncryptKeys, Reversed;
      EncryptBlock(cs, data, edx);
      edx := edx + 8;
      n := n + 1;
    }
  }

  /** One block: the same rounds with the subkeys in reverse order. */
  method DecryptBlock(cs: CryptSetup, data: array<Byte>, edx: nat)
    requires cs.keys.Length == KEY_WORDS && edx + 8 <= data.Length
    modifies data
    ensures data[..] == BlockDone(BoxesOf(cs.keys[..]), Reversed(EncryptKeys(cs.keys[..])), old(data[..]), edx)
  {
    ghost var f, ps, b := BoxesOf(cs.keys[..]), Reversed(EncryptKeys(cs.keys[..])), LoadBlock(data[edx..edx + 8]);
    hide Network, Rounds, F, BoxesOf, Load, Xor, LoadBlock;
    LoadHalves(data[..], edx);
    var ebx := Load32(data, edx);
    ebx := Xor(ebx, cs.keys[5]);
    ghost var l0 := ebx;
    var ebp := Substitute(cs.keys, ebx);
    ebp := Xor(ebp, cs.keys[4]);
    var tmp := Load32(data, edx + 4);
    ebp := Xor(ebp, tmp);
    ghost var l1 := ebp;
    var edi := Substitute(cs.keys, ebp);
    edi := Xor(edi, cs.keys[3]);
    ebx := Xor(ebx, edi);
    var esi := Substitute(cs.keys, ebx);
    ebp := Xor(Xor(ebp, esi), cs.keys[2]);
    FourRounds(f, ps, b, l0, l1, ebx, ebp);
    edi := Substitute(cs.keys, ebp);
    edi := Xor(edi, cs.keys[1]);
    ebp := Xor(ebp, cs.keys[0]);
    ebx := Xor(ebx, edi);
    StoreBlock(data, edx, ebp, ebx);
  }

  method Decrypt(cs: CryptSetup, data: array<Byte>, length: nat)
    requires cs.keys.Length == KEY_WORDS
    requires length <= data.Length && length % 8 == 0 && length < 0x1_0000_0000
    modifies data
    ensures data[..] == Blocks(BoxesOf(cs.keys[..]), Reversed(EncryptKeys(cs.keys[..])), old(data[..length]))
                      + old(data[length..])
  {
    ghost var keys, plain := cs.keys[..], data[..];
    ghost var f, ps := BoxesOf(keys), Reversed(EncryptKeys(keys));
    assert plain[..length] == data[..length] && plain[length..] == data[length..];
    DoneBounds(f, ps, plain, length / 8);
    var edx := 0;
    ghost var n := 0;
    assert Progress(cs, data, keys, f, ps, plain, n);
    while edx < length
      invariant edx == 8 * n && edx <= length && |plain| == data.Length
      invariant Progress(cs, data, keys, f, ps, plain, n)
    {
      AnotherBlock(n, length);
      DoneStep(f, ps, plain, n);
      hide BlockDone, Done, Blocks, BoxesOf, EncryptKeys, Reversed;
      DecryptBlock(cs, data, edx);
      edx := edx + 8;
      n := n + 1;
    }
  }
}
