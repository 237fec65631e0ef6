/** Blue Burst key schedule: Blowfish's subkey generation over a salted P array. */
module BbSchedule {
  import opened Words
  import opened Feistel
  import opened CryptState
  import opened BbCrypt

  const SALT_BYTES := 48
  const P_WORDS := 18
  const TABLE_WORDS := 1024
  const CHAINED := 521

  /** The initial P array, before the salt. */
  const INITIAL_P: seq<Word> :=
    [0x243F6A88, 0x85A308D3, 0x13198A2E, 0x03707344, 0xA4093822, 0x299F31D0,
     0x082EFA98, 0xEC4E6C89, 0x452821E6, 0x38D01377, 0xBE5466CF, 0x34E90C6C,
     0xC0AC29B7, 0xC97C50DD, 0x3F84D5B5, 0xB5470917, 0x9216D5D9, 0x8979FB1B]

  // ---------------------------------------------------------------- the salt

  function SaltMask(x: nat): Byte {
    if x % 3 == 0 then 0x19 else if x % 3 == 1 then 0x16 else 0x18
  }

  function MaskedSalt(salt: seq<Byte>): (s: seq<Byte>)
    ensures |s| == |salt|
  {
    seq(|salt|, x requires 0 <= x < |salt| => XorByte(salt[x], SaltMask(x)))
  }

  method InitKey(data: array<Byte>)
    requires data.Length == SALT_BYTES
    modifies data
    ensures data[..] == MaskedSalt(old(data[..]))
  {
    hide XorByte;
    var x := 0;
    while x < 48
      invariant x <= 48 && x % 3 == 0
      invariant forall i :: 0 <= i < 48 ==>
                  data[i] == if i < x then XorByte(old(data[i]), SaltMask(i)) else old(data[i])
    {
      assert SaltMask(x) == 0x19 && SaltMask(x + 1) == 0x16 && SaltMask(x + 2) == 0x18;
      data[x] := XorByte(data[x], 0x19);
      data[x + 1] := XorByte(data[x + 1], 0x16);
      data[x + 2] := XorByte(data[x + 2], 0x18);
      x := x + 3;
    }
  }

  /** Word i of the salt read cyclically, most significant byte first. */
  function SaltWord(s: seq<Byte>, i: nat): Word
    requires |s| == SALT_BYTES
  {
    FromBytes(s[(4 * i + 3) % 48], s[(4 * i + 2) % 48], s[(4 * i + 1) % 48], s[4 * i % 48])
  }

  /** The masked shifts that assemble one salt word. */
  function Assemble(b0: Byte, b1: Byte, b2: Byte, b3: Byte): Word {
    var ebp := (b0 as Word) << 24;
    var ebp := (ebp | (((b1 as Word) << 16) & 0xFF0000)) & 0xFFFF00FF;
    var ebp := (ebp | (((b2 as Word) << 8) & 0xFF00)) & 0xFFFFFF00;
    ebp | (b3 as Word)
  }

  lemma AssembleIsBigEndian(b0: Byte, b1: Byte, b2: Byte, b3: Byte)
    ensures Assemble(b0, b1, b2, b3) == FromBytes(b3, b2, b1, b0)
  {
  }

  // ---------------------------------------------------------------- the chain

  function Salted(p: seq<Word>, s: seq<Byte>): (r: seq<Word>)
    requires |s| == SALT_BYTES
    ensures |r| == |p|
  {
    seq(|p|, i requires 0 <= i < |p| => Xor(p[i], SaltWord(s, i)))
  }

  /** P xored with the cyclic words of the masked salt, then the table as S boxes. */
  function Start(salt: seq<Byte>, table: seq<Word>): (keys: seq<Word>)
    requires |salt| == SALT_BYTES && |table| == TABLE_WORDS
    ensures |keys| == KEY_WORDS
  {
    Salted(INITIAL_P, MaskedSalt(salt)) + table
  }

  datatype Link = Link(keys: seq<Word>, block: Block)

  /** The 16-round network of the current key array. */
  function Encipher(keys: seq<Word>, b: Block): Block
    requires |keys| == KEY_WORDS
  {
    Network(BoxesOf(keys), keys[..P_WORDS], b)
  }

  /** n chained encryptions from (0, 0): block k overwrites words 2k and 2k + 1 and is both
      input and key material of block k + 1. */
  function Chain(keys: seq<Word>, n: nat): (c: Link)
    requires |keys| == KEY_WORDS && n <= CHAINED
    ensures |c.keys| == KEY_WORDS
  {
    if n == 0 then Link(keys, (0, 0)) else
      var c := Chain(keys, n - 1);
      var b := Encipher(c.keys, c.block);
      Link(c.keys[2 * n - 2 := b.0][2 * n - 1 := b.1], b)
  }

  /** The words block n leaves behind are never touched again. */
  lemma {:induction false} ChainKeeps(keys: seq<Word>, n: nat, i: nat)
    requires |keys| == KEY_WORDS && n <= CHAINED && i < KEY_WORDS
    ensures Chain(keys, n).keys[i]
         == if i < 2 * n then (if i % 2 == 0 then Chain(keys, i / 2 + 1).block.0 else Chain(keys, i / 2 + 1).block.1)
            else keys[i]
  {
    hide Encipher;
    if n == 0 {
    } else {
      ChainKeeps(keys, n - 1, i);
    }
  }

  /** Every word of the finished array is written exactly once, in order: words 2k and
      2k + 1 are the encryption of block k under the array whose first 2k words are new. */
  lemma EveryWordOnce(keys: seq<Word>, k: nat)
    requires |keys| == KEY_WORDS && k < 521
    ensures var final := Chain(keys, 521).keys;
            var before := final[..2 * k] + keys[2 * k..];
            var input := if k == 0 then (0, 0) else (final[2 * k - 2], final[2 * k - 1]);
            Encipher(before, input) == (final[2 * k], final[2 * k + 1])
  {
    hide Chain, Encipher;
    var final := Chain(keys, CHAINED).keys;
    ChainStep(keys, k);
    ChainPrefix(keys, k);
    ChainBlock(keys, k + 1);
    if k > 0 {
      ChainBlock(keys, k);
    }
  }

  lemma ChainStep(keys: seq<Word>, k: nat)
    requires |keys| == KEY_WORDS && k < CHAINED
    ensures Chain(keys, k + 1).block == Encipher(Chain(keys, k).keys, Chain(keys, k).block)
    ensures Chain(keys, 0).block == (0, 0)
  {
  }

  lemma ChainPrefix(keys: seq<Word>, k: nat)
    requires |keys| == KEY_WORDS && k <= CHAINED
    ensures Chain(keys, k).keys == Chain(keys, CHAINED).keys[..2 * k] + keys[2 * k..]
  {
    hide Chain;
    forall i: nat | i < KEY_WORDS
      ensures Chain(keys, k).keys[i] == if i < 2 * k then Chain(keys, CHAINED).keys[i] else keys[i]
    {
      ChainKeeps(keys, k, i);
      ChainKeeps(keys, CHAINED, i);
    }
  }

  lemma ChainBlock(keys: seq<Word>, k: nat)
    requires |keys| == KEY_WORDS && 0 < k <= CHAINED
    ensures var final := Chain(keys, CHAINED).keys;
            Chain(keys, k).block == (final[2 * k - 2], final[2 * k - 1])
  {
    hide Chain;
    ChainKeeps(keys, CHAINED, 2 * k - 2);
    ChainKeeps(keys, CHAINED, 2 * k - 1);
    assert (2 * k - 2) / 2 + 1 == k && (2 * k - 1) / 2 + 1 == k;
  }

  // ---------------------------------------------------------------- the unrolled rounds

  /** The halves at the head of the inner loop, which runs rounds 2x + 2 and 2x + 3. */
  ghost predicate MidRound(f: RoundFunction, ps: seq<Word>, b: Block, i: nat, esi: Word, ecx: Word, ebx: Word)
    requires i <= |ps|
  {
    ebx == f(ecx) && Rounds(f, ps, i, b) == (Xor(esi, ebx), ecx)
  }

  lemma FirstRounds(f: RoundFunction, ps: seq<Word>, b: Block, esi: Word, ecx: Word)
    requires |ps| == P_WORDS
    requires esi == Xor(b.0, ps[0]) && ecx == Xor(b.1, Xor(f(esi), ps[1]))
    ensures MidRound(f, ps, b, 2, esi, ecx, f(ecx))
  {
    assert Rounds(f, ps, 1, b) == (Xor(b.1, f(esi)), esi);
    XorAssoc(b.1, f(esi), ps[1]);
    hide Xor;
  }

  lemma OneRound(f: RoundFunction, ps: seq<Word>, b: Block, i: nat, esi: Word, ecx: Word, ebx: Word)
    requires i < |ps| && MidRound(f, ps, b, i, esi, ecx, ebx)
    ensures var esi' := Xor(esi, Xor(ebx, ps[i])); MidRound(f, ps, b, i + 1, ecx, esi', f(esi'))
  {
    XorAssoc(esi, ebx, ps[i]);
    hide Xor;
  }

  lemma LastRound(f: RoundFunction, ps: seq<Word>, b: Block, esi: Word, eax: Word)
    requires |ps| == P_WORDS && MidRound(f, ps, b, 16, esi, eax, f(eax))
    ensures Network(f, ps, b) == (Xor(ps[17], eax), Xor(Xor(f(eax), ps[16]), esi))
  {
    XorComm(ps[17], eax);
    XorRotate(f(eax), ps[16], esi);
    hide Xor, Rounds;
  }

  /** One pass of the inner loop: rounds k and k + 1. */
  method TwoRounds(cs: CryptSetup, k: nat, esi0: Word, ecx0: Word, ebx0: Word, ghost b: Block)
    returns (esi: Word, ecx: Word, ebx: Word)
    requires cs.keys.Length == KEY_WORDS && k + 2 <= P_WORDS
    requires MidRound(BoxesOf(cs.keys[..]), cs.keys[..P_WORDS], b, k, esi0, ecx0, ebx0)
    ensures MidRound(BoxesOf(cs.keys[..]), cs.keys[..P_WORDS], b, k + 2, esi, ecx, ebx)
  {
    ghost var f, ps := BoxesOf(cs.keys[..]), cs.keys[..P_WORDS];
    hide Xor, BoxesOf, MidRound;
    esi, ecx, ebx := esi0, ecx0, ebx0;
    OneRound(f, ps, b, k, esi, ecx, ebx);
    ebx := Xor(ebx, cs.keys[k]);
    esi := Xor(esi, ebx);
    ebx := Substitute(cs.keys, esi);
    OneRound(f, ps, b, k + 1, ecx, esi, ebx);
    ebx := Xor(ebx, cs.keys[k + 1]);
    ecx := Xor(ecx, ebx);
    ebx := Substitute(cs.keys, ecx);
  }

  /** The body both schedule loops share: sixteen rounds, two of them in each pass of x. */
  method NextBlock(cs: CryptSetup, esi0: Word, ecx0: Word) returns (esi: Word, ecx: Word)
    requires cs.keys.Length == KEY_WORDS
    ensures (esi, ecx) == Encipher(cs.keys[..], (esi0, ecx0))
  {
    ghost var f, ps, b := BoxesOf(cs.keys[..]), cs.keys[..P_WORDS], (esi0, ecx0);
    hide Xor, BoxesOf, Network, MidRound;
    esi, ecx := esi0, ecx0;
    esi := Xor(esi, cs.keys[0]);
    var eax := Substitute(cs.keys, esi);
    eax := Xor(eax, cs.keys[1]);
    ecx := Xor(ecx, eax);
    var ebx := Substitute(cs.keys, ecx);
    FirstRounds(f, ps, b, esi, ecx);
    for x := 0 to 6
      invariant MidRound(f, ps, b, x * 2 + 2, esi, ecx, ebx)
    {
      esi, ecx, ebx := TwoRounds(cs, x * 2 + 2, esi, ecx, ebx, b);
    }
    OneRound(f, ps, b, 14, esi, ecx, ebx);
    ebx := Xor(ebx, cs.keys[14]);
    esi := Xor(esi, ebx);
    eax := Substitute(cs.keys, esi);
    OneRound(f, ps, b, 15, ecx, esi, eax);
    eax := Xor(eax, cs.keys[15]);
    eax := Xor(ecx, eax);
    LastRound(f, ps, b, esi, eax);
    ecx := Substitute(cs.keys, eax);
    ecx := Xor(ecx, cs.keys[16]);
    ecx := Xor(ecx, esi);
    esi := cs.keys[17];
    esi := Xor(esi, eax);
  }

  // ---------------------------------------------------------------- the whole schedule

  method CreateKeys(cs: CryptSetup, salt: seq<Byte>, bbtable: seq<Word>)
    requires cs.keys.Length == KEY_WORDS && |salt| == SALT_BYTES && |bbtable| == TABLE_WORDS
    modifies cs`bbPosn, cs`bbSeed, cs.keys
    ensures cs.bbPosn == 0 && cs.bbSeed == salt
    ensures cs.keys[..] == Chain(Start(salt, bbtable), CHAINED).keys
  {
    cs.bbPosn := 0;
    cs.bbSeed := salt;
    LoadKeys(cs, salt, bbtable);
    ghost var start := Start(salt, bbtable);
    ChainEmpty(start);
    hide Chain, Start;
    var esi, ecx := ChainP(cs, start);
    esi, ecx := ChainBoxes(cs, esi, ecx, start);
  }

  /** The nine blocks that renew P. */
  method ChainP(cs: CryptSetup, ghost start: seq<Word>) returns (esi: Word, ecx: Word)
    requires cs.keys.Length == KEY_WORDS && |start| == KEY_WORDS && Linked(cs, start, 0, 0, 0)
    modifies cs.keys
    ensures Linked(cs, start, 9, esi, ecx)
  {
    hide Linked;
    esi, ecx := 0, 0;
    var edi := 0;
    ghost var n := 0;
    while edi < 0x48
      invariant edi == 8 * n && n <= 9
      invariant Linked(cs, start, n, esi, ecx)
    {
      esi, ecx := ChainBlockAt(cs, edi / 4, esi, ecx, start, n);
      edi := edi + 8;
      n := n + 1;
    }
  }

  /** The 512 blocks that renew the four S boxes. */
  method ChainBoxes(cs: CryptSetup, esi0: Word, ecx0: Word, ghost start: seq<Word>) returns (esi: Word, ecx: Word)
    requires cs.keys.Length == KEY_WORDS && |start| == KEY_WORDS && Linked(cs, start, 9, esi0, ecx0)
    modifies cs.keys
    ensures Linked(cs, start, CHAINED, esi, ecx)
  {
    hide Linked;
    esi, ecx := esi0, ecx0;
    var ou := 0;
    ghost var n, box := 9, 0;
    while ou < 0x1000
      invariant ou == 0x400 * box && box <= 4 && 8 * n == 0x48 + ou
      invariant n <= CHAINED && Linked(cs, start, n, esi, ecx)
    {
      var edi := 0x48;
      while edi < 0x448
        invariant edi <= 0x448 && 8 * n == ou + edi
        invariant n <= CHAINED && Linked(cs, start, n, esi, ecx)
      {
        esi, ecx := ChainBlockAt(cs, ou / 4 + edi / 4, esi, ecx, start, n);
        edi := edi + 8;
        n := n + 1;
      }
      ou := ou + 0x400;
      box := box + 1;
    }
  }

  ghost predicate Linked(cs: CryptSetup, start: seq<Word>, n: nat, esi: Word, ecx: Word)
    requires |start| == KEY_WORDS && n <= CHAINED
    reads cs, cs.keys
  {
    Link(cs.keys[..], (esi, ecx)) == Chain(start, n)
  }

  /** One pass of a schedule loop: encipher the running block and store it at the slot. */
  method ChainBlockAt(cs: CryptSetup, slot: nat, esi0: Word, ecx0: Word, ghost start: seq<Word>, ghost n: nat)
    returns (esi: Word, ecx: Word)
    requires cs.keys.Length == KEY_WORDS && |start| == KEY_WORDS && n < CHAINED && slot == 2 * n
    requires Linked(cs, start, n, esi0, ecx0)
    modifies cs.keys
    ensures Linked(cs, start, n + 1, esi, ecx)
  {
    ChainNext(start, n);
    hide Chain, Encipher;
    esi, ecx := NextBlock(cs, esi0, ecx0);
    cs.keys[slot] := esi;
    cs.keys[slot + 1] := ecx;
  }

  lemma ChainEmpty(keys: seq<Word>)
    requires |keys| == KEY_WORDS
    ensures Chain(keys, 0) == Link(keys, (0, 0))
  {
  }

  lemma ChainNext(keys: seq<Word>, n: nat)
    requires |keys| == KEY_WORDS && n < CHAINED
    ensures var c := Chain(keys, n);
            var b := Encipher(c.keys, c.block);
            Chain(keys, n + 1) == Link(c.keys[2 * n := b.0][2 * n + 1 := b.1], b)
  {
    hide Encipher;
  }

  /** P with the salt folded in, and the S boxes. */
  method LoadKeys(cs: CryptSetup, salt: seq<Byte>, bbtable: seq<Word>)
    requires cs.keys.Length == KEY_WORDS && |salt| == SALT_BYTES && |bbtable| == TABLE_WORDS
    modifies cs.keys
    ensures cs.keys[..] == Start(salt, bbtable)
  {
    hide Xor, XorByte;
    var s := new Byte[SALT_BYTES](i requires 0 <= i < SALT_BYTES => salt[i]);
    assert s[..] == salt;
    InitKey(s);
    CopyKeys(cs, bbtable);
    FoldSalt(cs, s, INITIAL_P, bbtable);
  }

  method CopyKeys(cs: CryptSetup, bbtable: seq<Word>)
    requires cs.keys.Length == KEY_WORDS && |bbtable| == TABLE_WORDS
    modifies cs.keys
    ensures cs.keys[..P_WORDS] == INITIAL_P && cs.keys[P_WORDS..] == bbtable
  {
    for i := 0 to P_WORDS
      invariant cs.keys[..i] == INITIAL_P[..i]
    {
      cs.keys[i] := INITIAL_P[i];
    }
    assert INITIAL_P[..P_WORDS] == INITIAL_P;
    for i := 0 to TABLE_WORDS
      invariant cs.keys[..P_WORDS] == INITIAL_P
      invariant cs.keys[P_WORDS..P_WORDS + i] == bbtable[..i]
    {
      cs.keys[P_WORDS + i] := bbtable[i];
    }
    assert cs.keys[P_WORDS..] == cs.keys[P_WORDS..P_WORDS + TABLE_WORDS] == bbtable[..TABLE_WORDS] == bbtable;
  }

  method FoldSalt(cs: CryptSetup, s: array<Byte>, ghost p: seq<Word>, ghost bbtable: seq<Word>)
    requires cs.keys.Length == KEY_WORDS && s.Length == SALT_BYTES && |p| == P_WORDS
    requires cs.keys[..P_WORDS] == p && cs.keys[P_WORDS..] == bbtable
    modifies cs.keys
    ensures cs.keys[..] == Salted(p, s[..]) + bbtable
  {
    hide Xor, SaltWord, Assemble, Folded, Salted;
    FoldedBounds(p, s[..]);
    var ecx, ebx := 0, 0;
    while ebx < 0x12
      invariant ebx <= P_WORDS && ecx == 4 * ebx % 48
      invariant cs.keys[..P_WORDS] == Folded(p, s[..], ebx)
      invariant cs.keys[P_WORDS..] == bbtable
    {
      SaltWordAt(s[..], ebx, ecx);
      FoldedStep(p, s[..], ebx);
      var ebp := Assemble(s[ecx], s[(ecx + 1) % 48], s[(ecx + 2) % 48], s[(ecx + 3) % 48]);
      cs.keys[ebx] := Xor(cs.keys[ebx], ebp);
      ecx := (ecx + 4) % 48;
      ebx := ebx + 1;
    }
  }

  /** P with the salt folded into its first n words. */
  function Folded(p: seq<Word>, s: seq<Byte>, n: nat): (r: seq<Word>)
    requires |s| == SALT_BYTES && n <= |p|
    ensures |r| == |p|
  {
    Salted(p, s)[..n] + p[n..]
  }

  lemma FoldedBounds(p: seq<Word>, s: seq<Byte>)
    requires |s| == SALT_BYTES
    ensures Folded(p, s, 0) == p && Folded(p, s, |p|) == Salted(p, s)
  {
    hide Xor, SaltWord;
  }

  lemma FoldedStep(p: seq<Word>, s: seq<Byte>, n: nat)
    requires |s| == SALT_BYTES && n < |p|
    ensures Folded(p, s, n)[n := Xor(Folded(p, s, n)[n], SaltWord(s, n))] == Folded(p, s, n + 1)
  {
    hide Xor, SaltWord;
  }

  /** The salt length is a multiple of four, so a cyclic word never straddles its end. */
  lemma SaltWordAt(s: seq<Byte>, i: nat, ecx: nat)
    requires |s| == SALT_BYTES && ecx == 4 * i % 48
    ensures ecx + 3 < 48 && (ecx + 4) % 48 == 4 * (i + 1) % 48
    ensures Assemble(s[ecx], s[(ecx + 1) % 48], s[(ecx + 2) % 48], s[(ecx + 3) % 48]) == SaltWord(s, i)
  {
    SaltIndex(i, ecx);
    AssembleIsBigEndian(s[ecx], s[ecx + 1], s[ecx + 2], s[ecx + 3]);
    hide Assemble, FromBytes;
  }

  lemma SaltIndex(i: nat, ecx: nat)
    requires ecx == 4 * i % 48
    ensures ecx + 3 < 48 && (ecx + 4) % 48 == 4 * (i + 1) % 48
    ensures (4 * i + 1) % 48 == ecx + 1 && (4 * i + 2) % 48 == ecx + 2 && (4 * i + 3) % 48 == ecx + 3
    ensures (ecx + 1) % 48 == ecx + 1 && (ecx + 2) % 48 == ecx + 2 && (ecx + 3) % 48 == ecx + 3
  {
    var q := i / 12;
    assert 4 * i == 48 * q + 4 * (i - 12 * q);
    RemainderIs(4 * i, 48, q, 4 * (i - 12 * q));
    RemainderIs(4 * i + 1, 48, q, 4 * (i - 12 * q) + 1);
    RemainderIs(4 * i + 2, 48, q, 4 * (i - 12 * q) + 2);
    RemainderIs(4 * i + 3, 48, q, 4 * (i - 12 * q) + 3);
    if ecx == 44 {
      RemainderIs(4 * i + 4, 48, q + 1, 0);
    } else {
      RemainderIs(4 * i + 4, 48, q, ecx + 4);
    }
  }
}
