/** The cipher front end: one setup structure, three schemes, any sequence of packets. */
module Encryption {
  import opened Words
  import opened Lagged
  import opened KeyStream
  import opened Feistel
  import opened CryptState
  import GC = GcCrypt
  import PC = PcCrypt
  import BB = BbCrypt
  import Schedule = BbSchedule
  import BbReference
  import GcRecurrence
  import PcRecurrence

  const CRYPT_GAMECUBE: Byte := 0
  const CRYPT_BLUEBURST: Byte := 1
  const CRYPT_PC: Byte := 2

  // ---------------------------------------------------------------- what a setup means

  datatype Cipher =
    | Gamecube(gc: Feed<Word>)
    | Pc(pc: Feed<Word>)
    | BlueBurst(keys: seq<Word>)
    | Unknown
  {
    ghost predicate Valid() {
      match this
      case Gamecube(s) => s.Valid()
      case Pc(s) => s.Valid()
      case BlueBurst(keys) => |keys| == KEY_WORDS
      case Unknown => true
    }

    /** The boundary on which the scheme's byte stream may be cut. */
    function Unit(): (n: nat)
      ensures n > 0
    {
      match this
      case Gamecube(_) => 4
      case Pc(_) => 4
      case BlueBurst(_) => 8
      case Unknown => 1
    }

    /** data processed as one packet, and the cipher afterwards. */
    ghost function Apply(data: seq<Byte>, encrypting: bool): (r: (seq<Byte>, Cipher))
      requires Valid() && |data| % Unit() == 0
      ensures |r.0| == |data| && r.1.Valid() && r.1.Unit() == Unit()
    {
      match this
      case Gamecube(s) => (Mask(GC.Next, s, data), Gamecube(After(GC.Next, s, |data| / 4)))
      case Pc(s) => (Mask(PC.Next, s, data), Pc(After(PC.Next, s, |data| / 4)))
      case BlueBurst(keys) =>
        var ps := if encrypting then BB.EncryptKeys(keys) else Reversed(BB.EncryptKeys(keys));
        (BB.Blocks(BB.BoxesOf(keys), ps, data), this)
      case Unknown => (data, this)
    }
  }

  /** The cipher a key of each kind starts. */
  ghost function Fresh(key: seq<Byte>, kind: Byte, bbtable: seq<Word>): Cipher
    requires |key| >= KeyBytes(kind) && |bbtable| == Schedule.TABLE_WORDS
  {
    if kind == CRYPT_GAMECUBE then Gamecube(Feed(Run(GC.Next, GC.Fill(Load(key, 0)), 3 * GC.N), GC.N))
    else if kind == CRYPT_PC then Pc(Feed(Run(PC.Next, PC.Fill(Load(key, 0)), 4 * PC.N), PC.N))
    else if kind == CRYPT_BLUEBURST then
      BlueBurst(Schedule.Chain(Schedule.Start(key[..48], bbtable), Schedule.CHAINED).keys)
    else Unknown
  }

  function KeyBytes(kind: Byte): nat {
    if kind == CRYPT_GAMECUBE || kind == CRYPT_PC then 4 else if kind == CRYPT_BLUEBURST then 48 else 0
  }

  ghost predicate Ready(cs: CryptSetup)
    reads cs, cs.keys
  {
    && cs.keys.Length == KEY_WORDS
    && (cs.kind == CRYPT_GAMECUBE as Word ==> GC.Ready(cs) && cs.gcBlockPtr < GC.N)
    && (cs.kind == CRYPT_PC as Word ==> PC.Ready(cs))
  }

  ghost function Meaning(cs: CryptSetup): (c: Cipher)
    requires Ready(cs)
    reads cs, cs.keys
    ensures c.Valid()
  {
    if cs.kind == CRYPT_GAMECUBE as Word then Gamecube(GC.State(cs))
    else if cs.kind == CRYPT_PC as Word then Pc(PC.State(cs))
    else if cs.kind == CRYPT_BLUEBURST as Word then BlueBurst(cs.keys[..])
    else Unknown
  }

  // ---------------------------------------------------------------- the two entry points

  method Clear(cs: CryptSetup)
    modifies cs, cs.keys
    ensures cs.kind == 0 && cs.pcPosn == 0 && cs.gcBlockPtr == 0 && cs.gcBlockEndPtr == 0
    ensures cs.gcSeed == 0 && cs.bbPosn == 0 && cs.bbSeed == seq(48, _ => 0)
    ensures forall i :: 0 <= i < cs.keys.Length ==> cs.keys[i] == 0
  {
    cs.kind, cs.pcPosn, cs.gcBlockPtr, cs.gcBlockEndPtr := 0, 0, 0, 0;
    cs.gcSeed, cs.bbPosn, cs.bbSeed := 0, 0, seq(48, _ => 0);
    forall i | 0 <= i < cs.keys.Length {
      cs.keys[i] := 0;
    }
  }

  /** What the cipher in use does not set is zero. */
  ghost predicate OthersClear(cs: CryptSetup, key: seq<Byte>)
    requires cs.keys.Length == KEY_WORDS
    reads cs, cs.keys
  {
    var gc, pc := cs.kind == CRYPT_GAMECUBE as Word, cs.kind == CRYPT_PC as Word;
    var bb := cs.kind == CRYPT_BLUEBURST as Word;
    && (gc || pc ==> |key| >= 4) && (bb ==> |key| >= 48)
    && cs.pcPosn == (if pc then PC.N + 1 else 0)
    && cs.gcBlockPtr == (if gc then GC.N - 1 else 0) && cs.gcBlockEndPtr == (if gc then GC.N else 0)
    && cs.gcSeed == (if gc then Load(key, 0) else 0)
    && cs.bbPosn == 0 && cs.bbSeed == (if bb then key[..48] else seq(48, _ => 0))
    && (gc ==> cs.keys[GC.N..] == ZeroWords(KEY_WORDS - GC.N))
    && (pc ==> PC.Rest(cs) == (0, [Load(key, 0)] + ZeroWords(KEY_WORDS - PC.N - 2)))
    && (!gc && !pc && !bb ==> cs.keys[..] == ZeroWords(KEY_WORDS))
  }

  method CreateKeys(cs: CryptSetup, key: seq<Byte>, kind: Byte, bbtable: seq<Word>) returns (ok: int)
    requires cs.keys.Length == KEY_WORDS
    requires |key| >= KeyBytes(kind) && |bbtable| == Schedule.TABLE_WORDS
    modifies cs, cs.keys
    ensures Ready(cs) && cs.kind == kind as Word
    ensures ok == if kind == CRYPT_PC || kind == CRYPT_GAMECUBE || kind == CRYPT_BLUEBURST then 1 else 0
    ensures Meaning(cs) == Fresh(key, kind, bbtable) && OthersClear(cs, key)
  {
    hide GC.Fill, PC.Fill, Schedule.Start, Schedule.Chain, Run, Load, FromBytes;
    Clear(cs);
    ZeroTails(cs.keys[..]);
    cs.kind := kind as Word;
    if cs.kind == CRYPT_PC as Word {
      PC.CreateKeys(cs, Load(key, 0));
    } else if cs.kind == CRYPT_GAMECUBE as Word {
      GC.CreateKeys(cs, Load(key, 0));
    } else if cs.kind == CRYPT_BLUEBURST as Word {
      Schedule.CreateKeys(cs, key[..48], bbtable);
    } else {
      return 0;
    }
    return 1;
  }

  lemma ZeroTails(keys: seq<Word>)
    requires |keys| == KEY_WORDS && forall i :: 0 <= i < |keys| ==> keys[i] == 0
    ensures keys == ZeroWords(KEY_WORDS) && keys[GC.N..] == ZeroWords(KEY_WORDS - GC.N)
    ensures keys[PC.N + 2..] == ZeroWords(KEY_WORDS - PC.N - 2)
  {
  }

  method CryptData(cs: CryptSetup, data: array<Byte>, size: nat, encrypting: bool) returns (ok: int)
    requires Ready(cs) && size <= data.Length && size % Meaning(cs).Unit() == 0
    requires Meaning(cs).Pc? || Meaning(cs).BlueBurst? ==> size < 0x1_0000_0000
    modifies cs`pcPosn, cs`gcBlockPtr, cs.keys, data
    ensures Ready(cs) && cs.kind == old(cs.kind)
    ensures ok == if Meaning(cs).Unknown? then 0 else 1
    ensures (data[..size], Meaning(cs)) == old(Meaning(cs)).Apply(old(data[..size]), encrypting)
    ensures data[size..] == old(data[size..])
  {
    ghost var c := Meaning(cs);
    if cs.kind == CRYPT_PC as Word {
      PC.CryptData(cs, data, size);
    } else if cs.kind == CRYPT_GAMECUBE as Word {
      GC.CryptData(cs, data, size);
    } else if cs.kind == CRYPT_BLUEBURST as Word {
      if encrypting {
        BB.Encrypt(cs, data, size);
      } else {
        BB.Decrypt(cs, data, size);
      }
    } else {
      return 0;
    }
    return 1;
  }

  // ---------------------------------------------------------------- sessions

  /** The packets of a session processed in order. */
  ghost function Session(c: Cipher, packets: seq<seq<Byte>>, encrypting: bool): (r: (seq<seq<Byte>>, Cipher))
    requires c.Valid() && Whole(packets, c.Unit())
    ensures |r.0| == |packets| && Whole(r.0, c.Unit()) && r.1.Valid() && r.1.Unit() == c.Unit()
    decreases |packets|
  {
    if packets == [] then ([], c) else
      var (first, c') := c.Apply(packets[0], encrypting);
      var (rest, c'') := Session(c', packets[1..], encrypting);
      ([first] + rest, c'')
  }

  ghost predicate Whole(packets: seq<seq<Byte>>, unit: nat)
    requires unit > 0
  {
    forall p :: p in packets ==> |p| % unit == 0
  }

  /** One packet there and back. */
  lemma Recovered(c: Cipher, data: seq<Byte>)
    requires c.Valid() && |data| % c.Unit() == 0
    ensures c.Apply(c.Apply(data, true).0, false) == (data, c.Apply(data, true).1)
    ensures c.Apply(c.Apply(data, false).0, true) == (data, c.Apply(data, false).1)
  {
    match c
    case Gamecube(s) => MaskTwice(GC.Next, s, data);
    case Pc(s) => MaskTwice(PC.Next, s, data);
    case BlueBurst(keys) =>
      var f, ps := BB.BoxesOf(keys), BB.EncryptKeys(keys);
      BB.BlocksInverse(f, ps, data);
      BB.BlocksInverse(f, Reversed(ps), data);
      ReversedTwice(ps);
    case Unknown =>
  }

  /** Two setups that start equal, one encrypting and one decrypting, recover every packet
      and end equal. */
  lemma {:induction false} Lockstep(c: Cipher, packets: seq<seq<Byte>>)
    requires c.Valid() && Whole(packets, c.Unit())
    ensures var (sent, c') := Session(c, packets, true);
            Session(c, sent, false) == (packets, c')
    decreases |packets|
  {
    hide Cipher.Apply;
    if packets == [] {
    } else {
      Recovered(c, packets[0]);
      Lockstep(c.Apply(packets[0], true).1, packets[1..]);
      var (sent, _) := Session(c, packets, true);
      assert sent[1..] == Session(c.Apply(packets[0], true).1, packets[1..], true).0;
      assert packets == [packets[0]] + packets[1..];
    }
  }

  lemma StreamSplit(f: Rule, s: Feed<Word>, a: seq<Byte>, b: seq<Byte>)
    requires s.Valid() && |a| % 4 == 0 && |b| % 4 == 0
    ensures |a + b| / 4 == |a| / 4 + |b| / 4
    ensures var t := After(f, s, |a| / 4);
            Mask(f, s, a + b) == Mask(f, s, a) + Mask(f, t, b)
            && After(f, s, |a + b| / 4) == After(f, t, |b| / 4)
  {
    hide Mask, After;
    SumOfFours(|a|, |b|);
    MaskSplit(f, s, a, b, |a| / 4);
    AfterAdd(f, s, |a| / 4, |b| / 4);
  }

  ghost predicate Splits(c: Cipher, a: seq<Byte>, b: seq<Byte>, encrypting: bool)
    requires c.Valid() && |a| % c.Unit() == 0 && |b| % c.Unit() == 0 && |a + b| % c.Unit() == 0
  {
    var (x, c') := c.Apply(a, encrypting);
    var (y, c'') := c'.Apply(b, encrypting);
    c.Apply(a + b, encrypting) == (x + y, c'')
  }

  lemma StreamsSplit(c: Cipher, a: seq<Byte>, b: seq<Byte>, encrypting: bool)
    requires (c.Gamecube? || c.Pc?) && c.Valid() && |a| % 4 == 0 && |b| % 4 == 0 && |a + b| % 4 == 0
    ensures Splits(c, a, b, encrypting)
  {
    hide Mask, After;
    if c.Gamecube? {
      StreamSplit(GC.Next, c.gc, a, b);
    } else {
      StreamSplit(PC.Next, c.pc, a, b);
    }
  }

  lemma BlocksSplit(c: Cipher, a: seq<Byte>, b: seq<Byte>, encrypting: bool)
    requires c.BlueBurst? && c.Valid() && |a| % 8 == 0 && |b| % 8 == 0 && |a + b| % 8 == 0
    ensures Splits(c, a, b, encrypting)
  {
    hide BB.Blocks, Reversed;
    BB.BlocksSplit(BB.BoxesOf(c.keys), BB.EncryptKeys(c.keys), a, b);
    BB.BlocksSplit(BB.BoxesOf(c.keys), Reversed(BB.EncryptKeys(c.keys)), a, b);
  }

  /** Processing two pieces in turn is processing their concatenation. */
  lemma ApplySplit(c: Cipher, a: seq<Byte>, b: seq<Byte>, encrypting: bool)
    requires c.Valid() && |a| % c.Unit() == 0 && |b| % c.Unit() == 0
    ensures |a + b| % c.Unit() == 0
    ensures Splits(c, a, b, encrypting)
  {
    SumWhole(|a|, |b|, c.Unit());
    if c.Gamecube? || c.Pc? {
      hide Splits;
      StreamsSplit(c, a, b, encrypting);
    } else if c.BlueBurst? {
      hide Splits;
      BlocksSplit(c, a, b, encrypting);
    }
  }

  lemma {:induction false} JoinedWhole(packets: seq<seq<Byte>>, unit: nat)
    requires (unit == 1 || unit == 4 || unit == 8) && Whole(packets, unit)
    ensures |Joined(packets)| % unit == 0
  {
    if packets == [] {
    } else {
      assert packets[0] in packets;
      JoinedWhole(packets[1..], unit);
      SumWhole(|packets[0]|, |Joined(packets[1..])|, unit);
    }
  }

  lemma SumWhole(a: nat, b: nat, unit: nat)
    requires (unit == 1 || unit == 4 || unit == 8) && a % unit == 0 && b % unit == 0
    ensures (a + b) % unit == 0
  {
    SumOfFours(a, b);
    SumOfEights(a, b);
  }

  lemma SumOfFours(a: nat, b: nat)
    ensures a % 4 == 0 && b % 4 == 0 ==> (a + b) % 4 == 0 && (a + b) / 4 == a / 4 + b / 4
  {
  }

  lemma SumOfEights(a: nat, b: nat)
    ensures a % 8 == 0 && b % 8 == 0 ==> (a + b) % 8 == 0
  {
  }

  /** How a byte stream is cut into whole units does not matter. */
  lemma {:induction false} CutsAreInvisible(c: Cipher, packets: seq<seq<Byte>>, encrypting: bool)
    requires c.Valid() && Whole(packets, c.Unit())
    ensures |Joined(packets)| % c.Unit() == 0
    ensures var (out, c') := Session(c, packets, encrypting);
            c.Apply(Joined(packets), encrypting) == (Joined(out), c')
    decreases |packets|
  {
    JoinedWhole(packets, c.Unit());
    if packets == [] {
      ApplyNothing(c, encrypting);
    } else {
      var (first, c') := c.Apply(packets[0], encrypting);
      CutsAreInvisible(c', packets[1..], encrypting);
      ApplySplit(c, packets[0], Joined(packets[1..]), encrypting);
      var out := Session(c, packets, encrypting).0;
      assert out[1..] == Session(c', packets[1..], encrypting).0;
    }
  }

  lemma ApplyNothing(c: Cipher, encrypting: bool)
    requires c.Valid()
    ensures c.Apply([], encrypting) == ([], c)
  {
  }

  /** A receiver that cuts the ciphertext elsewhere still recovers the plaintext stream and
      ends in the sender's state. */
  lemma RecutSession(c: Cipher, packets: seq<seq<Byte>>, pieces: seq<seq<Byte>>)
    requires c.Valid() && Whole(packets, c.Unit()) && Whole(pieces, c.Unit())
    requires Joined(pieces) == Joined(Session(c, packets, true).0)
    ensures Joined(Session(c, pieces, false).0) == Joined(packets)
    ensures Session(c, pieces, false).1 == Session(c, packets, true).1
  {
    CutsAreInvisible(c, packets, true);
    CutsAreInvisible(c, pieces, false);
    Recovered(c, Joined(packets));
  }

  // ---------------------------------------------------------------- key streams end to end

  /** Byte i of a GameCube session depends on the key and i alone: it is xored with a byte of
      word 4 * 521 + i / 4 of the linear key sequence. */
  lemma GamecubeByte(key: seq<Byte>, table: seq<Word>, data: seq<Byte>, encrypting: bool, i: nat)
    requires |key| >= 4 && |table| == Schedule.TABLE_WORDS && |data| % 4 == 0 && i < |data|
    ensures Fresh(key, 0, table).Apply(data, encrypting).0[i]
         == XorByte(data[i], ByteOf(GcRecurrence.KeyWord(Load(key, 0), 2084 + i / 4), i % 4))
  {
    hide Load, XorByte, ByteOf, GC.Next, GC.Fill;
    var seed := Load(key, 0);
    var s := Feed(Run(GC.Next, GC.Fill(seed), 3 * GC.N), GC.N);
    MaskIsPositional(GC.Next, s, data, i);
    OutputIsStream(GC.Next, s, i / 4);
    GcRecurrence.OutputAfterCreate(seed, i / 4);
  }

  /** The same for a PC session: word 5 * 55 + i / 4 of the subtractive sequence. */
  lemma PcByte(key: seq<Byte>, table: seq<Word>, data: seq<Byte>, encrypting: bool, i: nat)
    requires |key| >= 4 && |table| == Schedule.TABLE_WORDS && |data| % 4 == 0 && i < |data|
    ensures Fresh(key, 2, table).Apply(data, encrypting).0[i]
         == XorByte(data[i], ByteOf(PcRecurrence.KeyWord(Load(key, 0), 275 + i / 4), i % 4))
  {
    hide Load, XorByte, ByteOf, PC.Next, PC.Fill;
    var seed := Load(key, 0);
    var s := Feed(Run(PC.Next, PC.Fill(seed), 4 * PC.N), PC.N);
    MaskIsPositional(PC.Next, s, data, i);
    OutputIsStream(PC.Next, s, i / 4);
    PcRecurrence.OutputAfterCreate(seed, i / 4);
  }

  /** Block j of a Blue Burst session depends on the scheduled keys and block j alone: four rounds
      with keys 0 to 5 in that order when encrypting, in the reverse order when decrypting. */
  lemma BlueBurstBlock(key: seq<Byte>, table: seq<Word>, data: seq<Byte>, j: nat)
    requires |key| >= 48 && |table| == 1024 && |data| % 8 == 0 && 8 * j + 8 <= |data|
    ensures var k := Schedule.Chain(Schedule.Start(key[..48], table), 521).keys;
            var block, f := BB.LoadBlock(data[8 * j..8 * j + 8]), BB.BoxesOf(k);
            && Fresh(key, 1, table).Apply(data, true).0[8 * j..8 * j + 8]
               == BB.BlockBytes(Network(f, [k[0], k[1], k[2], k[3], k[4], k[5]], block))
            && Fresh(key, 1, table).Apply(data, false).0[8 * j..8 * j + 8]
               == BB.BlockBytes(Network(f, [k[5], k[4], k[3], k[2], k[1], k[0]], block))
  {
    hide Schedule.Chain, Schedule.Start, BB.BoxesOf, BB.LoadBlock, BB.BlockBytes, BB.Blocks, Network;
    var k := Schedule.Chain(Schedule.Start(key[..48], table), 521).keys;
    assert BB.EncryptKeys(k) == [k[0], k[1], k[2], k[3], k[4], k[5]];
    assert Reversed(BB.EncryptKeys(k)) == [k[5], k[4], k[3], k[2], k[1], k[0]];
    BB.BlockAt(BB.BoxesOf(k), BB.EncryptKeys(k), data, j);
    BB.BlockAt(BB.BoxesOf(k), Reversed(BB.EncryptKeys(k)), data, j);
  }

  /** One value: eight zero bytes under an array that holds its own indices. */
  lemma BlueBurstValue(keys: seq<Word>)
    requires BbReference.Counting(keys)
    ensures BlueBurst(keys).Apply([0, 0, 0, 0, 0, 0, 0, 0], true).0 == [0xAC, 0, 0, 0, 0x60, 0, 0, 0]
    ensures BlueBurst(keys).Apply([0, 0, 0, 0, 0, 0, 0, 0], false).0 == [0x94, 0, 0, 0, 0x4C, 0, 0, 0]
  {
    var zeros: seq<Byte> := [0, 0, 0, 0, 0, 0, 0, 0];
    ZeroBlock();
    hide BB.BoxesOf, BB.LoadBlock, BB.BlockBytes, Network;
    assert Reversed(BB.EncryptKeys(keys)) == [5, 4, 3, 2, 1, 0];
    BbReference.CountingBlock(keys);
    BB.OneBlock(BB.BoxesOf(keys), BB.EncryptKeys(keys), zeros);
    BB.OneBlock(BB.BoxesOf(keys), Reversed(BB.EncryptKeys(keys)), zeros);
  }

  lemma ZeroBlock()
    ensures BB.LoadBlock([0, 0, 0, 0, 0, 0, 0, 0]) == (0, 0)
    ensures BB.BlockBytes((0xAC, 0x60)) == [0xAC, 0, 0, 0, 0x60, 0, 0, 0]
    ensures BB.BlockBytes((0x94, 0x4C)) == [0x94, 0, 0, 0, 0x4C, 0, 0, 0]
  {
  }
}
