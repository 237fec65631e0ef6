/** The legality checkers: find the first limits record for an item and test it. */
module ItemChecks {
  import opened Words
  import opened Items
  import opened ItemPercents
  import opened MagBlasts

  // ---------------------------------------------------------------- finding a record

  predicate Matches(e: Entry, ic: Word, version: Word) {
    e.base.code == ic && Covers(e.base.versions, version)
  }

  predicate Covers(versions: Word, version: Word) { versions & version == version }

  datatype Found = Missing | Hit(e: Entry)

  /** The first record with this code that covers this version. */
  function Find(list: seq<Entry>, ic: Word, version: Word): Found {
    if list == [] then Missing
    else if Matches(list[0], ic, version) then Hit(list[0])
    else Find(list[1..], ic, version)
  }

  lemma {:induction false} FindSkips(a: seq<Entry>, b: seq<Entry>, ic: Word, version: Word)
    requires forall e :: e in a ==> !Matches(e, ic, version)
    ensures Find(a + b, ic, version) == Find(b, ic, version)
  {
    hide Matches;
    if a == [] {
      assert a + b == b;
    } else {
      assert (a + b)[0] == a[0] && (a + b)[1..] == a[1..] + b;
      FindSkips(a[1..], b, ic, version);
    }
  }

  /** The scan at slot j, when nothing before it matched. */
  lemma FindHere(list: seq<Entry>, j: nat, ic: Word, version: Word)
    requires j < |list| && forall e :: e in list[..j] ==> !Matches(e, ic, version)
    ensures Matches(list[j], ic, version) ==> Find(list, ic, version) == Hit(list[j])
    ensures !Matches(list[j], ic, version) ==> forall e :: e in list[..j + 1] ==> !Matches(e, ic, version)
  {
    hide Matches;
    FindSkips(list[..j], list[j..], ic, version);
    assert list == list[..j] + list[j..] && list[..j + 1] == list[..j] + [list[j]];
  }

  lemma FindNone(list: seq<Entry>, ic: Word, version: Word)
    requires forall e :: e in list ==> !Matches(e, ic, version)
    ensures Find(list, ic, version) == Missing
  {
    hide Matches;
    FindSkips(list, [], ic, version);
    assert list + [] == list;
  }

  lemma {:induction false} FoundIsListed(list: seq<Entry>, ic: Word, version: Word)
    ensures Find(list, ic, version).Hit? ==>
              Find(list, ic, version).e in list && Matches(Find(list, ic, version).e, ic, version)
  {
    hide Matches;
    if list == [] {
    } else {
      FoundIsListed(list[1..], ic, version);
    }
  }

  /** Scan a list for the record to test. */
  method Scan(list: seq<Entry>, ic: Word, version: Word) returns (r: Found)
    ensures r == Find(list, ic, version)
  {
    hide Find, Covers;
    var j := 0;
    while j < |list|
      invariant j <= |list| && forall e :: e in list[..j] ==> !Matches(e, ic, version)
    {
      FindHere(list, j, ic, version);
      if list[j].base.code == ic && Covers(list[j].base.versions, version) {
        return Hit(list[j]);
      }
      j := j + 1;
    }
    assert list[..j] == list;
    FindNone(list, ic, version);
    return Missing;
  }

  // ---------------------------------------------------------------- shared pieces

  /** A value within optional bounds; -1 is no bound. */
  predicate InRange(v: int, min: int, max: int) {
    (max != -1 ==> v <= max) && (min != -1 ==> v >= min)
  }

  /** The test as the code writes it. */
  predicate Outside(v: int, min: int, max: int) {
    (max != -1 && v > max) || (min != -1 && v < min)
  }

  lemma OutsideIs(v: int, min: int, max: int)
    ensures Outside(v, min, max) == !InRange(v, min, max)
  {
  }

  /** A two-byte little-endian quantity. */
  function Pair(low: Byte, high: Byte): (v: nat) {
    low as int + 256 * (high as int)
  }

  predicate PaperLegit(s: Settings, paper: Byte) {
    paper <= 0x0A && !(s.checkWrap >= 2 && paper == 0x05)
  }

  predicate Judged(version: Word, s: Settings) {
    version >= VERSION_GC && s.checkWrap != 0
  }

  // ---------------------------------------------------------------- tools

  function ToolCode(i: IItem, version: Word, ic: Word): Word
    requires i.Valid()
  {
    if version < VERSION_GC && ic == 0x060D03 && i.b[3] != 0 then 0x000E03 | (((i.b[3] - 1) as Word) << 16) else ic
  }

  predicate ToolLegit(e: Entry, i: IItem)
    requires e.Tool? && i.Valid()
  {
    InRange(i.b[5] as int, e.minStack, e.maxStack)
  }

  function ToolVerdict(list: seq<Entry>, s: Settings, i: IItem, version: Word, ic: Word): int
    requires i.Valid()
  {
    match Find(list, ToolCode(i, version, ic), version)
    case Missing => s.defaultBehavior
    case Hit(e) => if e.Tool? && !e.base.autoReject && ToolLegit(e, i) then 1 else 0
  }

  method TestStack(t: Entry, i: IItem) returns (ok: bool)
    requires t.Tool? && i.Valid()
    ensures ok == ToolLegit(t, i)
  {
    ok := !((t.maxStack != -1 && i.b[5] as int > t.maxStack) || (t.minStack != -1 && (i.b[5] as int) < t.minStack));
  }

  method CheckTool(l: Limits, i: IItem, version: Word, ic0: Word) returns (r: int)
    requires i.Valid() && Sorted(l.AllLists())
    ensures r == ToolVerdict(l.tools, l.settings, i, version, ic0)
  {
    var ic := ToolCode(i, version, ic0);
    hide Find, Matches, ToolCode, Sorted, ToolLegit;
    FoundIsListed(l.tools, ic, version);
    var found := Scan(l.tools, ic, version);
    if found.Hit? {
      Downcasts(l.AllLists(), found.e);
      if found.e.base.autoReject {
        return 0;
      }
      var ok := TestStack(found.e, i);
      return if ok then 1 else 0;
    }
    return l.settings.defaultBehavior;
  }

  /** Every record of a list has the kind its list is for. */
  lemma Downcasts(l: Lists, e: Entry)
    requires Sorted(l)
    ensures e in l.weapons ==> e.Weapon?
    ensures e in l.guards ==> Tagged(e) && (e.Frame? || e.Barrier? || e.Unit?)
    ensures e in l.mags ==> e.Mag?
    ensures e in l.tools ==> e.Tool?
  {
    hide Tagged;
  }

  // ---------------------------------------------------------------- frames, barriers, units

  function GuardType(ic: Word): Word { (ic >> 8) & 0x03 }

  function GuardCode(i: IItem, version: Word, ic: Word): Word
    requires i.Valid()
  {
    if version < VERSION_GC && GuardType(ic) != 3 && i.b[3] != 0 then ic | ((i.b[3] as Word) << 16) else ic
  }

  /** The signed 16-bit plus of a unit. */
  function S16(v: nat): int
    requires v < 0x1_0000
  {
    if v >= 0x8000 then v - 0x1_0000 else v
  }

  predicate GuardWrapLegit(s: Settings, i: IItem, version: Word)
    requires i.Valid()
  {
    Judged(version, s) && i.b[4] & 0x40 != 0 ==> PaperLegit(s, i.b[4] & 0x0F)
  }

  predicate GuardLegit(s: Settings, e: Entry, i: IItem, version: Word)
    requires i.Valid()
  {
    var dfp, evp := Pair(i.b[6], i.b[7]), Pair(i.b[8], i.b[9]);
    match e
    case Frame(base, maxSlots, minSlots, maxDfp, minDfp, maxEvp, minEvp) =>
      && InRange(i.b[5] as int, minSlots, maxSlots) && InRange(dfp, minDfp, maxDfp) && InRange(evp, minEvp, maxEvp)
      && !(base.rejectMax && dfp == maxDfp && evp == maxEvp)
      && GuardWrapLegit(s, i, version)
    case Barrier(base, maxDfp, minDfp, maxEvp, minEvp) =>
      && InRange(dfp, minDfp, maxDfp) && InRange(evp, minEvp, maxEvp)
      && !(base.rejectMax && dfp == maxDfp && evp == maxEvp)
      && GuardWrapLegit(s, i, version)
    case Unit(_, maxPlus, minPlus) =>
      && (maxPlus != INT_MIN ==> S16(dfp) <= maxPlus)
      && (minPlus != INT_MIN ==> S16(dfp) >= minPlus)
    case _ => false
  }

  function GuardVerdict(list: seq<Entry>, s: Settings, i: IItem, version: Word, ic: Word): int
    requires i.Valid()
  {
    match Find(list, GuardCode(i, version, ic), version)
    case Missing => s.defaultBehavior
    case Hit(e) => if !e.base.autoReject && GuardLegit(s, e, i, version) then 1 else 0
  }

  /** A matching guard record has the kind that the item's own type bits name. */
  lemma GuardDowncast(i: IItem, e: Entry, version: Word, ic: Word)
    requires i.Valid() && Tagged(e) && (e.Frame? || e.Barrier? || e.Unit?)
    requires e.base.code == GuardCode(i, version, ic)
    ensures GuardType(ic) == 1 <==> e.Frame?
    ensures GuardType(ic) == 2 <==> e.Barrier?
    ensures GuardType(ic) == 3 <==> e.Unit?
  {
    GuardBits(i.b[3], ic);
  }

  lemma GuardBits(x: Byte, ic: Word)
    ensures ((ic | ((x as Word) << 16)) >> 8) & 0xFF == (ic >> 8) & 0xFF
    ensures (ic | ((x as Word) << 16)) & 0xFF == ic & 0xFF
    ensures (ic >> 8) & 0xFF == 1 ==> GuardType(ic) == 1
    ensures (ic >> 8) & 0xFF == 2 ==> GuardType(ic) == 2
    ensures (ic >> 8) & 0xFF == 3 ==> GuardType(ic) == 3
  {
  }

  method GuardWraps(s: Settings, i: IItem, version: Word) returns (ok: bool)
    requires i.Valid()
    ensures ok == GuardWrapLegit(s, i, version)
  {
    if version >= VERSION_GC && s.checkWrap != 0 {
      if i.b[4] & 0x40 != 0 {
        var wrapping := i.b[4] & 0x0F;
        if wrapping > 0x0A {
          return false;
        } else if s.checkWrap >= 2 && wrapping == 5 {
          return false;
        }
      }
    }
    return true;
  }

  method CheckFrame(s: Settings, f: Entry, i: IItem, version: Word) returns (ok: bool)
    requires i.Valid() && f.Frame?
    ensures ok == GuardLegit(s, f, i, version)
  {
    hide Pair, GuardWrapLegit;
    if (f.maxSlots != -1 && i.b[5] as int > f.maxSlots) || (f.minSlots != -1 && (i.b[5] as int) < f.minSlots) {
      return false;
    }
    var dfp := Pair(i.b[6], i.b[7]);
    if (f.maxDfp != -1 && dfp > f.maxDfp) || (f.minDfp != -1 && dfp < f.minDfp) {
      return false;
    }
    var evp := Pair(i.b[8], i.b[9]);
    if (f.maxEvp != -1 && evp > f.maxEvp) || (f.minEvp != -1 && evp < f.minEvp) {
      return false;
    }
    if f.base.rejectMax && dfp == f.maxDfp && evp == f.maxEvp {
      return false;
    }
    ok := GuardWraps(s, i, version);
  }

  method CheckBarrier(s: Settings, b: Entry, i: IItem, version: Word) returns (ok: bool)
    requires i.Valid() && b.Barrier?
    ensures ok == GuardLegit(s, b, i, version)
  {
    hide Pair, GuardWrapLegit;
    var dfp := Pair(i.b[6], i.b[7]);
    if (b.maxDfp != -1 && dfp > b.maxDfp) || (b.minDfp != -1 && dfp < b.minDfp) {
      return false;
    }
    var evp := Pair(i.b[8], i.b[9]);
    if (b.maxEvp != -1 && evp > b.maxEvp) || (b.minEvp != -1 && evp < b.minEvp) {
      return false;
    }
    if b.base.rejectMax && dfp == b.maxDfp && evp == b.maxEvp {
      return false;
    }
    ok := GuardWraps(s, i, version);
  }

  method CheckUnit(s: Settings, u: Entry, i: IItem, version: Word) returns (ok: bool)
    requires i.Valid() && u.Unit?
    ensures ok == GuardLegit(s, u, i, version)
  {
    var plus := S16(Pair(i.b[6], i.b[7]));
    ok := !((u.maxPlus != INT_MIN && plus > u.maxPlus) || (u.minPlus != INT_MIN && plus < u.minPlus));
  }

  method CheckGuard(l: Limits, i: IItem, version: Word, ic0: Word) returns (r: int)
    requires i.Valid() && Sorted(l.AllLists())
    ensures r == GuardVerdict(l.guards, l.settings, i, version, ic0)
  {
    var type0 := GuardType(ic0);
    var ic := GuardCode(i, version, ic0);
    hide Find, Matches, Sorted, Tagged, GuardLegit, GuardCode, GuardType;
    FoundIsListed(l.guards, ic, version);
    var found := Scan(l.guards, ic, version);
    if found.Hit? {
      var e := found.e;
      MatchCode(e, ic, version);
      Downcasts(l.AllLists(), e);
      GuardDowncast(i, e, version, ic0);
      if e.base.autoReject {
        return 0;
      }
      var ok := true;
      if type0 == 1 {
        ok := CheckFrame(l.settings, e, i, version);
      } else if type0 == 2 {
        ok := CheckBarrier(l.settings, e, i, version);
      } else if type0 == 3 {
        ok := CheckUnit(l.settings, e, i, version);
      }
      return if ok then 1 else 0;
    }
    return l.settings.defaultBehavior;
  }

  lemma MatchCode(e: Entry, ic: Word, version: Word)
    requires Matches(e, ic, version)
    ensures e.base.code == ic
  {
  }

  // ---------------------------------------------------------------- mags

  /** What the checker reads off a mag's bytes. */
  datatype MagReading = MagReading(cpb: nat, rpb: nat, lpb: nat, hasCpb: bool, hasRpb: bool, hasLpb: bool,
                                   def: nat, pow: nat, dex: nat, mind: nat, iq: nat, synchro: nat, color: nat)

  function MaskedPair(low: Byte, high: Byte, mask: Word): nat {
    (((low as Word) | ((high as Word) << 8)) & mask) as int
  }

  /** A statistic in whole levels: hundredths under a mask. */
  function Stat(low: Byte, high: Byte, mask: Word): nat {
    MaskedPair(low, high, mask) / 100
  }

  /** The three photon blasts packed in a byte. */
  function Center(x: Byte): (n: nat)
    ensures n < 8
  {
    Small(x & 0x07, 8);
    (x & 0x07) as int
  }

  function Right(x: Byte): (n: nat)
    ensures n < 8
  {
    Small((x >> 3) & 0x07, 8);
    ((x >> 3) & 0x07) as int
  }

  function Left(x: Byte): (n: nat)
    ensures n < 4
  {
    Small((x >> 6) & 0x03, 4);
    ((x >> 6) & 0x03) as int
  }

  /** A version 2 colour: the low bits of the four statistics. */
  function Color(a: Byte, b: Byte, c: Byte, d: Byte): (n: nat)
    ensures n < 16
  {
    var bits := (a & 0x01) | ((b & 0x01) << 1) | ((c & 0x01) << 2) | ((d & 0x01) << 3);
    Small(bits, 16);
    bits as int
  }

  lemma Small(x: Byte, n: Byte)
    requires x < n
    ensures (x as int) < n as int
  {
  }

  function ReadV3(i: IItem, version: Word): MagReading
    requires i.Valid()
  {
    var item2 := if version == VERSION_XBOX then [i.b2[3], i.b2[2], i.b2[1], i.b2[0]] else i.b2;
    MagReading(Center(i.b[3]), Right(i.b[3]), Left(i.b[3]),
               item2[1] & 0x01 != 0, item2[1] & 0x02 != 0, item2[1] & 0x04 != 0,
               Stat(i.b[4], i.b[5], 0x7FFF), Stat(i.b[6], i.b[7], 0x7FFF),
               Stat(i.b[8], i.b[9], 0x7FFF), Stat(i.b[10], i.b[11], 0x7FFF),
               item2[2] as int, item2[3] as int, item2[0] as int)
  }

  function ReadV2(i: IItem): MagReading
    requires i.Valid()
  {
    MagReading(Center(i.b[3]), Right(i.b[3]), Left(i.b[3]),
               i.b2[3] & 0x80 != 0, i.b[5] & 0x80 != 0, i.b[7] & 0x80 != 0,
               Stat(i.b[4], i.b[5], 0x7FFE), Stat(i.b[6], i.b[7], 0x7FFE),
               Stat(i.b[8], i.b[9], 0x7FFE), Stat(i.b[10], i.b[11], 0x7FFE),
               Pair(i.b2[0], i.b2[1]),
               Pair(i.b2[2], i.b2[3] & 0x7F),
               Color(i.b[4], i.b[6], i.b[8], i.b[10]))
  }

  function MagCode(i: IItem, version: Word, ic: Word): Word
    requires i.Valid()
  {
    if version >= VERSION_GC then ic & 0xFFFF
    else if i.b[1] == 0x00 && i.b[2] >= 0xC9 then 0x02 | ((((i.b[2] - 0xC9) + 0x2C) as Word) << 8)
    else 0x02 | ((i.b[1] as Word) << 8)
  }

  function Widen(x: Byte): Word { x as Word }

  function OneBit(n: nat): Word
    requires n < 31
  {
    (1 as Word) << n
  }

  predicate HasBit(mask: Word, n: nat)
    requires n < 31
  {
    And(mask, OneBit(n)) != 0
  }

  /** Blasts that no client could have produced. */
  predicate BlastsPossible(s: Settings, m: MagReading) {
    s.checkPbs ==> m.cpb <= 5 && m.rpb <= 5 && !(m.hasCpb && m.hasRpb && m.cpb == m.rpb)
  }

  predicate StatsLegit(q: MagLimits, m: MagReading) {
    && InRange(m.def, q.minDef, q.maxDef) && InRange(m.pow, q.minPow, q.maxPow)
    && InRange(m.dex, q.minDex, q.maxDex) && InRange(m.mind, q.minMind, q.maxMind)
    && InRange(m.def + m.pow + m.dex + m.mind, q.minLevel, q.maxLevel)
    && InRange(m.iq, q.minIq, q.maxIq) && InRange(m.synchro, q.minSynchro, q.maxSynchro)
  }

  predicate Readable(m: MagReading) {
    m.cpb < 8 && m.rpb < 8 && m.lpb < 4
  }

  function ReadMag(i: IItem, version: Word): (m: MagReading)
    requires i.Valid()
    ensures Readable(m)
    ensures version < VERSION_GC ==> m.color < 16
  {
    if version >= VERSION_GC then ReadV3(i, version) else ReadV2(i)
  }

  predicate BlastsAllowed(e: Entry, m: MagReading)
    requires e.Mag? && Readable(m)
  {
    && (m.hasCpb ==> HasBit(Widen(e.allowedCpb), m.cpb))
    && (m.hasRpb ==> HasBit(Widen(e.allowedRpb), m.rpb))
    && (m.hasLpb ==> HasBit(Widen(e.allowedLpb), LeftBlast(m.cpb, m.rpb, m.lpb)))
  }

  /** The colour test comes last and shifts a 32-bit one, so C defines it below 31 only. */
  predicate BlastsLegit(e: Entry, m: MagReading)
    requires e.Mag? && Readable(m) && (BlastsAllowed(e, m) ==> m.color < 31)
  {
    BlastsAllowed(e, m) && HasBit(e.allowedColors, m.color)
  }

  /** The record rejects nothing before the colour test. */
  predicate ReachesColor(e: Entry, m: MagReading)
    requires e.Mag? && Readable(m)
  {
    !e.base.autoReject && StatsLegit(e.stats, m) && BlastsAllowed(e, m)
  }

  predicate MagLegit(e: Entry, m: MagReading)
    requires e.Mag? && Readable(m) && (ReachesColor(e, m) ==> m.color < 31)
  {
    ReachesColor(e, m) && HasBit(e.allowedColors, m.color)
  }

  /** If the colour test is reached, C defines it. */
  predicate MagDefined(list: seq<Entry>, s: Settings, i: IItem, version: Word, ic: Word)
    requires i.Valid()
  {
    var m := ReadMag(i, version);
    BlastsPossible(s, m) ==>
      match Find(list, MagCode(i, version, ic), version)
      case Missing => true
      case Hit(e) => e.Mag? && ReachesColor(e, m) ==> m.color < 31
  }

  function MagVerdict(list: seq<Entry>, s: Settings, i: IItem, version: Word, ic: Word): int
    requires i.Valid() && MagDefined(list, s, i, version, ic)
  {
    var m := ReadMag(i, version);
    if !BlastsPossible(s, m) then 0 else
      match Find(list, MagCode(i, version, ic), version)
      case Missing => s.defaultBehavior
      case Hit(e) => if e.Mag? && MagLegit(e, m) then 1 else 0
  }

  /** A version 1 or 2 mag has sixteen colours, so its test is always defined. */
  lemma V2MagsAreDefined(list: seq<Entry>, s: Settings, i: IItem, version: Word, ic: Word)
    requires i.Valid() && version < VERSION_GC
    ensures MagDefined(list, s, i, version, ic)
  {
    hide ReadV2, ReadV3, MagCode, Find, BlastsPossible, ReachesColor;
  }

  /** The tests both mag checkers make of a record, on what each read. */
  method TestMag(e: Entry, m: MagReading) returns (ok: bool)
    requires e.Mag? && Readable(m) && (ReachesColor(e, m) ==> m.color < 31)
    ensures ok == MagLegit(e, m)
  {
    hide BlastsAllowed, StatsLegit, HasBit;
    if e.base.autoReject {
      return false;
    }
    ok := TestStats(e.stats, m);
    if !ok {
      return false;
    }
    ok := TestBlasts(e, m);
  }

  method TestBlasts(e: Entry, m: MagReading) returns (ok: bool)
    requires e.Mag? && Readable(m) && (BlastsAllowed(e, m) ==> m.color < 31)
    ensures ok == BlastsLegit(e, m)
  {
    LeftBlastSmall(m.cpb, m.rpb, m.lpb);
    hide HasBit, LeftBlast, Widen;
    var lpb := m.lpb;
    if m.hasLpb {
      lpb := AdjustLeft(m.cpb, m.rpb, lpb);
    }
    if m.hasCpb && !HasBit(Widen(e.allowedCpb), m.cpb) {
      return false;
    }
    if m.hasRpb && !HasBit(Widen(e.allowedRpb), m.rpb) {
      return false;
    }
    if m.hasLpb && !HasBit(Widen(e.allowedLpb), lpb) {
      return false;
    }
    if !HasBit(e.allowedColors, m.color) {
      return false;
    }
    return true;
  }

  method TestStats(q: MagLimits, m: MagReading) returns (ok: bool)
    ensures ok == StatsLegit(q, m)
  {
    hide InRange, Outside;
    var level := 0;
    level := level + m.def;
    OutsideIs(m.def, q.minDef, q.maxDef);
    if Outside(m.def, q.minDef, q.maxDef) {
      return false;
    }
    level := level + m.pow;
    OutsideIs(m.pow, q.minPow, q.maxPow);
    if Outside(m.pow, q.minPow, q.maxPow) {
      return false;
    }
    level := level + m.dex;
    OutsideIs(m.dex, q.minDex, q.maxDex);
    if Outside(m.dex, q.minDex, q.maxDex) {
      return false;
    }
    level := level + m.mind;
    OutsideIs(m.mind, q.minMind, q.maxMind);
    if Outside(m.mind, q.minMind, q.maxMind) {
      return false;
    }
    OutsideIs(level, q.minLevel, q.maxLevel);
    if Outside(level, q.minLevel, q.maxLevel) {
      return false;
    }
    OutsideIs(m.iq, q.minIq, q.maxIq);
    if Outside(m.iq, q.minIq, q.maxIq) {
      return false;
    }
    OutsideIs(m.synchro, q.minSynchro, q.maxSynchro);
    if Outside(m.synchro, q.minSynchro, q.maxSynchro) {
      return false;
    }
    return true;
  }

  method CheckMag(l: Limits, i: IItem, version: Word, ic0: Word) returns (r: int)
    requires i.Valid() && Sorted(l.AllLists())
    requires IsVersion(version) ==> MagDefined(l.mags, l.settings, i, version, ic0)
    ensures r == if IsVersion(version) then MagVerdict(l.mags, l.settings, i, version, ic0) else 1
  {
    hide Find, Matches, MagCode, Sorted, ReachesColor, MagLegit, ReadV2, ReadV3;
    var m;
    if version == VERSION_V1 || version == VERSION_V2 {
      m := ReadV2(i);
    } else if version == VERSION_GC || version == VERSION_XBOX {
      m := ReadV3(i, version);
    } else {
      return 1;
    }
    assert m == ReadMag(i, version);
    var ic := MagCode(i, version, ic0);
    if l.settings.checkPbs {
      if m.cpb > 5 || m.rpb > 5 {
        return 0;
      }
      if m.hasCpb && m.hasRpb && m.cpb == m.rpb {
        return 0;
      }
    }
    FoundIsListed(l.mags, ic, version);
    var found := Scan(l.mags, ic, version);
    if found.Hit? {
      Downcasts(l.AllLists(), found.e);
      var ok := TestMag(found.e, m);
      return if ok then 1 else 0;
    }
    return l.settings.defaultBehavior;
  }

  // ---------------------------------------------------------------- weapons

  function WeaponCode(i: IItem, version: Word, ic: Word): Word
    requires i.Valid()
  {
    if version < VERSION_GC && i.b[5] != 0 then (i.b[5] as Word) << 8 else ic
  }

  predicate WeaponWrapLegit(s: Settings, i: IItem, version: Word)
    requires i.Valid()
  {
    Judged(version, s) && i.b[4] & 0x40 != 0 ==> PaperLegit(s, i.b[5])
  }

  predicate IsSrank(ic: Word) {
    var ic2 := ic & 0xFFFF;
    (0x7000 <= ic2 <= 0x8800) || (0xA500 <= ic2 <= 0xA900)
  }

  predicate IsNamedSrank(i: IItem, ic: Word)
    requires i.Valid()
  {
    IsSrank(ic) && i.b[6] >= 0x0C
  }

  /** Letter k of a big-endian pair of bytes that packs three five-bit letters. */
  function Letter(high: Byte, low: Byte, k: nat): bv16
    requires k < 3
  {
    ((((high as bv16) << 8) | (low as bv16)) >> (10 - 5 * k)) & 0x1F
  }

  predicate IsLetter(x: bv16) { x <= 26 }

  /** The eight letters of an S-rank name: two in the first pair, three in each other pair. */
  predicate NameLegit(i: IItem)
    requires i.Valid()
  {
    && IsLetter(Letter(i.b[6], i.b[7], 1)) && IsLetter(Letter(i.b[6], i.b[7], 2))
    && IsLetter(Letter(i.b[8], i.b[9], 0)) && IsLetter(Letter(i.b[8], i.b[9], 1)) && IsLetter(Letter(i.b[8], i.b[9], 2))
    && IsLetter(Letter(i.b[10], i.b[11], 0)) && IsLetter(Letter(i.b[10], i.b[11], 1))
    && IsLetter(Letter(i.b[10], i.b[11], 2))
  }

  predicate SrankLegit(s: Settings, i: IItem, ic: Word)
    requires i.Valid()
  {
    IsSrank(ic) && s.checkSrankNames ==> i.b[6] >= 0x0C && NameLegit(i)
  }

  /** No two slots carry the same nonzero attribute. */
  predicate SlotsDistinct(i: IItem)
    requires i.Valid()
  {
    forall j, k :: j in {6, 8, 10} && k in {6, 8, 10} && j != k && i.b[j] != 0 ==> i.b[j] != i.b[k]
  }

  /** The special attribute, as a number. */
  function Attribute(i: IItem): int
    requires i.Valid()
  {
    (i.b[4] & 0x3F) as int
  }

  /** The attribute test shifts a 32-bit one, so C defines it below 31 only. */
  predicate ShiftDefined(i: IItem)
    requires i.Valid()
  {
    Attribute(i) < 31 || Attribute(i) > 40
  }

  function And64(a: bv64, b: bv64): bv64 { a & b }

  predicate HasAttribute(mask: bv64, n: int)
    requires 0 <= n < 31
  {
    And64(mask, OneBit(n) as bv64) != 0
  }

  /** The record rejects nothing before the attribute test. */
  predicate ReachesAttribute(s: Settings, e: Entry, i: IItem, version: Word, ic: Word)
    requires e.Weapon? && i.Valid()
  {
    && !e.base.autoReject
    && (i.b[4] == 0x80 || InRange(i.b[3] as int, e.minGrind, e.maxGrind))
    && (IsNamedSrank(i, ic) || PercentsLegit(s, i, Listed(e), version, ic))
  }

  predicate WeaponLegit(s: Settings, e: Entry, i: IItem, version: Word, ic: Word)
    requires e.Weapon? && i.Valid() && (ReachesAttribute(s, e, i, version, ic) ==> ShiftDefined(i))
  {
    && ReachesAttribute(s, e, i, version, ic)
    && 0 <= Attribute(i) <= 40 && HasAttribute(e.validAttrs, Attribute(i))
  }

  /** Nothing is rejected before the list is searched. */
  predicate ReachesList(s: Settings, i: IItem, version: Word, ic: Word)
    requires i.Valid()
  {
    WeaponWrapLegit(s, i, version) && SrankLegit(s, i, ic) && (IsNamedSrank(i, ic) || SlotsDistinct(i))
  }

  /** If the attribute test is reached, C defines it. */
  predicate WeaponDefined(list: seq<Entry>, s: Settings, i: IItem, version: Word, ic0: Word)
    requires i.Valid()
  {
    var ic := WeaponCode(i, version, ic0);
    ReachesList(s, i, version, ic) ==>
      match Find(list, ic, version)
      case Missing => true
      case Hit(e) => e.Weapon? && ReachesAttribute(s, e, i, version, ic) ==> ShiftDefined(i)
  }

  function WeaponVerdict(list: seq<Entry>, s: Settings, i: IItem, version: Word, ic0: Word): int
    requires i.Valid() && WeaponDefined(list, s, i, version, ic0)
  {
    var ic := WeaponCode(i, version, ic0);
    if !ReachesList(s, i, version, ic) then 0 else
      match Find(list, ic, version)
      case Hit(e) => if e.Weapon? && WeaponLegit(s, e, i, version, ic) then 1 else 0
      case Missing => if IsNamedSrank(i, ic) || PercentsLegit(s, i, Unlisted, version, ic) then s.defaultBehavior else 0
  }

  method WeaponWraps(s: Settings, i: IItem, version: Word) returns (ok: bool)
    requires i.Valid()
    ensures ok == WeaponWrapLegit(s, i, version)
  {
    if version >= VERSION_GC && s.checkWrap != 0 {
      var isWrapped := i.b[4] & 0x40;
      if isWrapped != 0 {
        if i.b[5] > 0x0A {
          return false;
        } else if s.checkWrap >= 2 && i.b[5] == 0x05 {
          return false;
        }
      }
    }
    return true;
  }

  /** The bit twiddling that extracts each letter. */
  lemma LettersAre(b6: Byte, b7: Byte)
    ensures ((b6 & 0x03) << 3) | ((b7 & 0xE0) >> 5) <= 26 <==> IsLetter(Letter(b6, b7, 1))
    ensures b7 & 0x1F <= 26 <==> IsLetter(Letter(b6, b7, 2))
    ensures (b6 >> 2) & 0x1F <= 26 <==> IsLetter(Letter(b6, b7, 0))
  {
  }

  method CheckName(i: IItem) returns (ok: bool)
    requires i.Valid()
    ensures ok == NameLegit(i)
  {
    hide Letter, IsLetter;
    LettersAre(i.b[6], i.b[7]);
    LettersAre(i.b[8], i.b[9]);
    LettersAre(i.b[10], i.b[11]);
    var tmp := ((i.b[6] & 0x03) << 3) | ((i.b[7] & 0xE0) >> 5);
    if tmp > 26 {
      return false;
    }
    tmp := i.b[7] & 0x1F;
    if tmp > 26 {
      return false;
    }
    tmp := (i.b[8] >> 2) & 0x1F;
    if tmp > 26 {
      return false;
    }
    tmp := ((i.b[8] & 0x03) << 3) | ((i.b[9] & 0xE0) >> 5);
    if tmp > 26 {
      return false;
    }
    tmp := i.b[9] & 0x1F;
    if tmp > 26 {
      return false;
    }
    tmp := (i.b[10] >> 2) & 0x1F;
    if tmp > 26 {
      return false;
    }
    tmp := ((i.b[10] & 0x03) << 3) | ((i.b[11] & 0xE0) >> 5);
    if tmp > 26 {
      return false;
    }
    tmp := i.b[11] & 0x1F;
    if tmp > 26 {
      return false;
    }
    return true;
  }

  method CheckSrank(s: Settings, i: IItem, ic: Word) returns (ok: bool, isNamed: bool)
    requires i.Valid()
    ensures ok == SrankLegit(s, i, ic) && isNamed == IsNamedSrank(i, ic)
  {
    hide NameLegit;
    var ic2 := ic & 0xFFFF;
    ok, isNamed := true, false;
    if (ic2 >= 0x7000 && ic2 <= 0x8800) || (ic2 >= 0xA500 && ic2 <= 0xA900) {
      if i.b[6] >= 0x0C {
        isNamed := true;
        if s.checkSrankNames {
          ok := CheckName(i);
        }
      } else if s.checkSrankNames {
        ok := false;
      }
    }
  }

  method CheckDistinct(i: IItem) returns (ok: bool)
    requires i.Valid()
    ensures ok == SlotsDistinct(i)
  {
    if i.b[6] != 0 && (i.b[6] == i.b[8] || i.b[6] == i.b[10]) {
      return false;
    }
    if i.b[8] != 0 && i.b[8] == i.b[10] {
      return false;
    }
    return true;
  }

  method TestWeapon(s: Settings, w: Entry, i: IItem, version: Word, ic: Word, isNamed: bool) returns (ok: bool)
    requires w.Weapon? && i.Valid() && isNamed == IsNamedSrank(i, ic)
    requires ReachesAttribute(s, w, i, version, ic) ==> ShiftDefined(i)
    ensures ok == WeaponLegit(s, w, i, version, ic)
  {
    AttributeRange(i);
    OutsideIs(i.b[3] as int, w.minGrind, w.maxGrind);
    hide PercentsLegit, IsNamedSrank, HasAttribute, Attribute, Outside, InRange;
    if w.base.autoReject {
      return false;
    }
    if Outside(i.b[3] as int, w.minGrind, w.maxGrind) && i.b[4] != 0x80 {
      return false;
    }
    if !isNamed {
      ok := CheckPercents(s, i, Listed(w), version, ic);
      if !ok {
        return false;
      }
    }
    var tmp := Attribute(i);
    if tmp > 0x28 {
      return false;
    }
    if !HasAttribute(w.validAttrs, tmp) {
      return false;
    }
    return true;
  }

  lemma AttributeRange(i: IItem)
    requires i.Valid()
    ensures 0 <= Attribute(i)
  {
  }

  method CheckWeapon(l: Limits, i: IItem, version: Word, ic0: Word) returns (r: int)
    requires i.Valid() && Sorted(l.AllLists()) && WeaponDefined(l.weapons, l.settings, i, version, ic0)
    ensures r == WeaponVerdict(l.weapons, l.settings, i, version, ic0)
  {
    var ic := WeaponCode(i, version, ic0);
    hide Find, Matches, Sorted, WeaponCode, WeaponWrapLegit, SrankLegit, IsNamedSrank, SlotsDistinct, WeaponLegit,
         PercentsLegit, ShiftDefined, ReachesAttribute;
    var ok := WeaponWraps(l.settings, i, version);
    if !ok {
      return 0;
    }
    var isNamed;
    ok, isNamed := CheckSrank(l.settings, i, ic);
    if !ok {
      return 0;
    }
    if !isNamed {
      ok := CheckDistinct(i);
      if !ok {
        return 0;
      }
    }
    FoundIsListed(l.weapons, ic, version);
    var found := Scan(l.weapons, ic, version);
    if found.Hit? {
      Downcasts(l.AllLists(), found.e);
      ok := TestWeapon(l.settings, found.e, i, version, ic, isNamed);
      return if ok then 1 else 0;
    }
    if !isNamed {
      ok := CheckPercents(l.settings, i, Unlisted, version, ic);
      if !ok {
        return 0;
      }
    }
    return l.settings.defaultBehavior;
  }

  // ---------------------------------------------------------------- dispatch

  function ItemCode(i: IItem): Word
    requires i.Valid()
  {
    (i.b[0] as Word) | ((i.b[1] as Word) << 8) | ((i.b[2] as Word) << 16)
  }

  predicate IsVersion(version: Word) {
    version == VERSION_V1 || version == VERSION_V2 || version == VERSION_GC || version == VERSION_XBOX
  }

  /** No bit test that C leaves undefined is reached. */
  predicate Defined(list: seq<Entry>, s: Settings, i: IItem, version: Word)
    requires i.Valid()
  {
    && (i.b[0] == 0 ==> WeaponDefined(list, s, i, version, ItemCode(i)))
    && (i.b[0] == 2 && IsVersion(version) ==> MagDefined(list, s, i, version, ItemCode(i)))
  }

  /** The list the item's first byte selects, and the code looked up in it. */
  function BucketOf(l: Lists, i: IItem): seq<Entry>
    requires i.Valid()
  {
    if i.b[0] == 0 then l.weapons else if i.b[0] == 1 then l.guards
    else if i.b[0] == 2 then l.mags else if i.b[0] == 3 then l.tools else []
  }

  function NormalCode(i: IItem, version: Word): Word
    requires i.Valid()
  {
    var ic := ItemCode(i);
    if i.b[0] == 0 then WeaponCode(i, version, ic) else if i.b[0] == 1 then GuardCode(i, version, ic)
    else if i.b[0] == 2 then MagCode(i, version, ic) else if i.b[0] == 3 then ToolCode(i, version, ic) else ic
  }

  /** The verdict, from the one list consulted. */
  function Verdict(list: seq<Entry>, s: Settings, i: IItem, version: Word): int
    requires i.Valid() && Defined(list, s, i, version)
  {
    var ic := ItemCode(i);
    if i.b[0] == 0 then WeaponVerdict(list, s, i, version, ic)
    else if i.b[0] == 1 then GuardVerdict(list, s, i, version, ic)
    else if i.b[0] == 2 then if IsVersion(version) then MagVerdict(list, s, i, version, ic) else 1
    else if i.b[0] == 3 then ToolVerdict(list, s, i, version, ic)
    else if i.b[0] == 4 then 1
    else 0
  }

  lemma KindByte(i: IItem)
    requires i.Valid()
    ensures ItemCode(i) & 0xFF == i.b[0] as Word
  {
    FirstByte(i.b[0], i.b[1], i.b[2]);
  }

  lemma FirstByte(a: Byte, b: Byte, c: Byte)
    ensures ((a as Word) | ((b as Word) << 8) | ((c as Word) << 16)) & 0xFF == a as Word
  {
  }

  method CheckItem(l: Limits, i: IItem, version: Word) returns (r: int)
    requires i.Valid() && Sorted(l.AllLists()) && Defined(BucketOf(l.AllLists(), i), l.settings, i, version)
    ensures r == Verdict(BucketOf(l.AllLists(), i), l.settings, i, version)
  {
    KindByte(i);
    var itemCode := ItemCode(i);
    hide Sorted, ItemCode, WeaponVerdict, GuardVerdict, MagVerdict, ToolVerdict, WeaponDefined, MagDefined;
    var kind := itemCode & 0xFF;
    if kind == 0 {
      r := CheckWeapon(l, i, version, itemCode);
    } else if kind == 1 {
      r := CheckGuard(l, i, version, itemCode);
    } else if kind == 2 {
      r := CheckMag(l, i, version, itemCode);
    } else if kind == 3 {
      r := CheckTool(l, i, version, itemCode);
    } else if kind == 4 {
      r := 1;
    } else {
      r := 0;
    }
  }

  // ---------------------------------------------------------------- only the first match counts

  /** The verdict depends on the list through the first match alone. */
  lemma VerdictByFirstMatch(a: seq<Entry>, b: seq<Entry>, s: Settings, i: IItem, version: Word)
    requires i.Valid() && Find(a, NormalCode(i, version), version) == Find(b, NormalCode(i, version), version)
    ensures Defined(a, s, i, version) <==> Defined(b, s, i, version)
    ensures Defined(a, s, i, version) ==> Verdict(a, s, i, version) == Verdict(b, s, i, version)
  {
    hide Find, WeaponCode, GuardCode, MagCode, ToolCode, ItemCode, ReadMag, WeaponLegit, GuardLegit, ToolLegit,
         MagLegit, ReachesList, ReachesAttribute, ReachesColor, BlastsPossible, PercentsLegit, IsNamedSrank;
  }

  /** A record that does not match may be inserted anywhere. */
  lemma InsertingIsInvisible(a: seq<Entry>, x: Entry, b: seq<Entry>, s: Settings, i: IItem, version: Word)
    requires i.Valid() && !Matches(x, NormalCode(i, version), version)
    ensures Defined(a + [x] + b, s, i, version) <==> Defined(a + b, s, i, version)
    ensures Defined(a + b, s, i, version) ==>
              && Defined(a + [x] + b, s, i, version)
              && Verdict(a + [x] + b, s, i, version) == Verdict(a + b, s, i, version)
  {
    hide Verdict, NormalCode, Defined;
    FindWithout(a, x, b, NormalCode(i, version), version);
    VerdictByFirstMatch(a + [x] + b, a + b, s, i, version);
  }

  lemma {:induction false} FindWithout(a: seq<Entry>, x: Entry, b: seq<Entry>, ic: Word, version: Word)
    requires !Matches(x, ic, version)
    ensures Find(a + [x] + b, ic, version) == Find(a + b, ic, version)
  {
    hide Matches;
    if a == [] {
      assert a + [x] + b == [x] + b && a + b == b;
      FindSkips([x], b, ic, version);
    } else {
      assert (a + [x] + b)[1..] == a[1..] + [x] + b && (a + b)[1..] == a[1..] + b;
      FindWithout(a[1..], x, b, ic, version);
    }
  }

  /** Behind the first match nothing counts. */
  lemma FirstMatchDecides(a: seq<Entry>, x: Entry, b: seq<Entry>, s: Settings, i: IItem, version: Word)
    requires i.Valid() && Matches(x, NormalCode(i, version), version)
    requires forall e :: e in a ==> !Matches(e, NormalCode(i, version), version)
    ensures Defined(a + [x] + b, s, i, version) <==> Defined([x], s, i, version)
    ensures Defined([x], s, i, version) ==>
              && Defined(a + [x] + b, s, i, version)
              && Verdict(a + [x] + b, s, i, version) == Verdict([x], s, i, version)
  {
    hide Verdict, NormalCode, Defined, Matches;
    var ic := NormalCode(i, version);
    assert a + [x] + b == a + ([x] + b);
    FindSkips(a, [x] + b, ic, version);
    FindHere([x] + b, 0, ic, version);
    FindHere([x], 0, ic, version);
    VerdictByFirstMatch(a + [x] + b, [x], s, i, version);
  }
}
