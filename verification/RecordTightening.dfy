/** Tightening a limits record never accepts what it rejected, in any list. */
module RecordTightening {
  import opened Words
  import opened Items
  import opened ItemPercents
  import opened PercentTightening
  import opened MagBlasts
  import opened ItemChecks

  // ---------------------------------------------------------------- stricter records

  /** Every bound that is set stays set and moves inwards; others may become set. */
  predicate StricterRange(min': int, max': int, min: int, max: int) {
    && (max == -1 || (max' != -1 && max' <= max))
    && (min == -1 || (min' != -1 && min' >= min))
  }

  predicate StricterBase(f: Common, e: Common) {
    && f.code == e.code && f.versions == e.versions
    && (e.autoReject ==> f.autoReject) && (e.rejectMax ==> f.rejectMax)
  }

  predicate StricterStats(f: MagLimits, e: MagLimits) {
    && StricterRange(f.minDef, f.maxDef, e.minDef, e.maxDef) && StricterRange(f.minPow, f.maxPow, e.minPow, e.maxPow)
    && StricterRange(f.minDex, f.maxDex, e.minDex, e.maxDex)
    && StricterRange(f.minMind, f.maxMind, e.minMind, e.maxMind)
    && StricterRange(f.minLevel, f.maxLevel, e.minLevel, e.maxLevel)
    && StricterRange(f.minIq, f.maxIq, e.minIq, e.maxIq)
    && StricterRange(f.minSynchro, f.maxSynchro, e.minSynchro, e.maxSynchro)
  }

  predicate SubMask(f: Word, e: Word) { And(f, e) == f }

  predicate SubMask64(f: bv64, e: bv64) { And64(f, e) == f }

  /** f has the kind, code and versions of e, and each limit of f is at least as strict. For a
      weapon the exact condition on percents and hits is used. */
  predicate StricterRecord(f: Entry, e: Entry, s: Settings, version: Word, ic: Word) {
    KindOf(f) == KindOf(e) && StricterBase(f.base, e.base) &&
    match e
    case Weapon(_, maxGrind, minGrind, _, _, _, _, validAttrs) =>
      && StricterRange(f.minGrind, f.maxGrind, minGrind, maxGrind) && SubMask64(f.validAttrs, validAttrs)
      && Stricter(Rules(s, Listed(f)), Rules(s, Listed(e)), version, ic)
    case Frame(_, maxSlots, minSlots, maxDfp, minDfp, maxEvp, minEvp) =>
      && StricterRange(f.minSlots, f.maxSlots, minSlots, maxSlots)
      && StricterRange(f.minDfp, f.maxDfp, minDfp, maxDfp) && StricterRange(f.minEvp, f.maxEvp, minEvp, maxEvp)
    case Barrier(_, maxDfp, minDfp, maxEvp, minEvp) =>
      StricterRange(f.minDfp, f.maxDfp, minDfp, maxDfp) && StricterRange(f.minEvp, f.maxEvp, minEvp, maxEvp)
    case Unit(_, maxPlus, minPlus) =>
      && (maxPlus == INT_MIN || (f.maxPlus != INT_MIN && f.maxPlus <= maxPlus))
      && (minPlus == INT_MIN || (f.minPlus != INT_MIN && f.minPlus >= minPlus))
    case Mag(_, stats, allowedCpb, allowedRpb, allowedLpb, allowedColors) =>
      && StricterStats(f.stats, stats) && SubMask(f.allowedColors, allowedColors)
      && SubMask(Widen(f.allowedCpb), Widen(allowedCpb)) && SubMask(Widen(f.allowedRpb), Widen(allowedRpb))
      && SubMask(Widen(f.allowedLpb), Widen(allowedLpb))
    case Tool(_, maxStack, minStack) => StricterRange(f.minStack, f.maxStack, minStack, maxStack)
  }

  // ---------------------------------------------------------------- kind by kind

  lemma ToolKept(f: Entry, e: Entry, s: Settings, i: IItem, version: Word, ic: Word)
    requires i.Valid() && f.Tool? && e.Tool? && StricterRecord(f, e, s, version, ic) && ToolLegit(f, i)
    ensures ToolLegit(e, i)
  {
  }

  /** Also where a maximum that is reached in both defence and evasion is itself rejected. */
  lemma GuardKept(f: Entry, e: Entry, s: Settings, i: IItem, version: Word, ic: Word)
    requires i.Valid() && (e.Frame? || e.Barrier? || e.Unit?)
    requires StricterRecord(f, e, s, version, ic) && GuardLegit(s, f, i, version)
    ensures GuardLegit(s, e, i, version)
  {
    hide Pair, S16, GuardWrapLegit;
  }

  lemma StatsKept(f: MagLimits, e: MagLimits, m: MagReading)
    requires StricterStats(f, e) && StatsLegit(f, m)
    ensures StatsLegit(e, m)
  {
  }

  lemma BitKept(f: Word, e: Word, n: nat)
    requires n < 31 && SubMask(f, e) && HasBit(f, n)
    ensures HasBit(e, n)
  {
    MaskedBit(f, e, OneBit(n));
    hide And, OneBit;
  }

  lemma MaskedBit(f: Word, e: Word, bit: Word)
    requires And(f, e) == f && And(f, bit) != 0
    ensures And(e, bit) != 0
  {
  }

  lemma MaskedBit64(f: bv64, e: bv64, bit: bv64)
    requires And64(f, e) == f && And64(f, bit) != 0
    ensures And64(e, bit) != 0
  {
  }

  lemma AttributeKept(f: bv64, e: bv64, n: int)
    requires 0 <= n < 31 && SubMask64(f, e) && HasAttribute(f, n)
    ensures HasAttribute(e, n)
  {
    MaskedBit64(f, e, OneBit(n) as bv64);
    hide And64, OneBit;
  }

  lemma ColorReached(f: Entry, e: Entry, s: Settings, m: MagReading, version: Word, ic: Word)
    requires f.Mag? && e.Mag? && Readable(m) && StricterRecord(f, e, s, version, ic) && ReachesColor(f, m)
    ensures ReachesColor(e, m)
  {
    StatsKept(f.stats, e.stats, m);
    LeftBlastSmall(m.cpb, m.rpb, m.lpb);
    hide StatsLegit, StricterStats, SubMask, HasBit, Widen, LeftBlast;
    if m.hasCpb {
      BitKept(Widen(f.allowedCpb), Widen(e.allowedCpb), m.cpb);
    }
    if m.hasRpb {
      BitKept(Widen(f.allowedRpb), Widen(e.allowedRpb), m.rpb);
    }
    if m.hasLpb {
      BitKept(Widen(f.allowedLpb), Widen(e.allowedLpb), LeftBlast(m.cpb, m.rpb, m.lpb));
    }
  }

  lemma MagKept(f: Entry, e: Entry, s: Settings, m: MagReading, version: Word, ic: Word)
    requires f.Mag? && e.Mag? && Readable(m) && StricterRecord(f, e, s, version, ic)
    requires (ReachesColor(e, m) ==> m.color < 31) && ReachesColor(f, m)
    ensures ReachesColor(e, m) && (MagLegit(f, m) ==> MagLegit(e, m))
  {
    ColorReached(f, e, s, m, version, ic);
    hide ReachesColor, SubMask, HasBit, Widen, StricterStats;
    if MagLegit(f, m) {
      BitKept(f.allowedColors, e.allowedColors, m.color);
    }
  }

  lemma AttributeReached(f: Entry, e: Entry, s: Settings, i: IItem, version: Word, ic: Word)
    requires f.Weapon? && e.Weapon? && i.Valid() && StricterRecord(f, e, s, version, ic)
    requires ReachesAttribute(s, f, i, version, ic)
    ensures ReachesAttribute(s, e, i, version, ic)
  {
    hide PercentsLegit, Stricter, IsNamedSrank;
    if !IsNamedSrank(i, ic) {
      StricterKeeps(Rules(s, Listed(f)), Rules(s, Listed(e)), i, version, ic);
    }
  }

  lemma WeaponKept(f: Entry, e: Entry, s: Settings, i: IItem, version: Word, ic: Word)
    requires f.Weapon? && e.Weapon? && i.Valid() && StricterRecord(f, e, s, version, ic)
    requires (ReachesAttribute(s, e, i, version, ic) ==> ShiftDefined(i)) && ReachesAttribute(s, f, i, version, ic)
    ensures ReachesAttribute(s, e, i, version, ic)
    ensures WeaponLegit(s, f, i, version, ic) ==> WeaponLegit(s, e, i, version, ic)
  {
    AttributeReached(f, e, s, i, version, ic);
    hide ReachesAttribute, Stricter, Attribute, HasAttribute, SubMask64;
    if WeaponLegit(s, f, i, version, ic) {
      AttributeKept(f.validAttrs, e.validAttrs, Attribute(i));
    }
  }

  // ---------------------------------------------------------------- lists

  lemma WeaponVerdictKept(a: seq<Entry>, b: seq<Entry>, f: Entry, e: Entry, s: Settings, i: IItem,
                          version: Word, ic0: Word)
    requires i.Valid() && WeaponDefined(b, s, i, version, ic0) && f.Weapon? && e.Weapon?
    requires var ic := WeaponCode(i, version, ic0);
             Find(a, ic, version) == Hit(f) && Find(b, ic, version) == Hit(e) && StricterRecord(f, e, s, version, ic)
    ensures WeaponDefined(a, s, i, version, ic0)
    ensures WeaponVerdict(a, s, i, version, ic0) != 0 ==> WeaponVerdict(b, s, i, version, ic0) != 0
  {
    var ic := WeaponCode(i, version, ic0);
    hide Find, WeaponCode, ReachesList, ReachesAttribute, WeaponLegit, StricterRecord, ShiftDefined, PercentsLegit,
         IsNamedSrank;
    if ReachesList(s, i, version, ic) {
      RecordKept(f, e, s, i, version, ic);
    }
  }

  lemma RecordKept(f: Entry, e: Entry, s: Settings, i: IItem, version: Word, ic: Word)
    requires f.Weapon? && e.Weapon? && i.Valid() && StricterRecord(f, e, s, version, ic)
    requires ReachesAttribute(s, e, i, version, ic) ==> ShiftDefined(i)
    ensures ReachesAttribute(s, f, i, version, ic) ==> ShiftDefined(i)
    ensures WeaponLegit(s, f, i, version, ic) ==> WeaponLegit(s, e, i, version, ic)
  {
    hide ReachesAttribute, StricterRecord, ShiftDefined, Attribute, HasAttribute;
    if ReachesAttribute(s, f, i, version, ic) {
      WeaponKept(f, e, s, i, version, ic);
    }
  }

  lemma MagVerdictKept(a: seq<Entry>, b: seq<Entry>, f: Entry, e: Entry, s: Settings, i: IItem,
                          version: Word, ic0: Word)
    requires i.Valid() && MagDefined(b, s, i, version, ic0) && f.Mag? && e.Mag?
    requires var ic := MagCode(i, version, ic0);
             Find(a, ic, version) == Hit(f) && Find(b, ic, version) == Hit(e) && StricterRecord(f, e, s, version, ic)
    ensures MagDefined(a, s, i, version, ic0)
    ensures MagVerdict(a, s, i, version, ic0) != 0 ==> MagVerdict(b, s, i, version, ic0) != 0
  {
    var ic, m := MagCode(i, version, ic0), ReadMag(i, version);
    hide Find, MagCode, ReadMag, BlastsPossible, ReachesColor, StricterRecord, HasBit;
    if BlastsPossible(s, m) && ReachesColor(f, m) {
      ColorReached(f, e, s, m, version, ic);
      MagKept(f, e, s, m, version, ic);
    }
  }

  /** The item's list with a stricter record found first is defined where the other list is, and
      rejects what it rejects. Records are of the kind the list is for. */
  lemma StricterVerdict(a: seq<Entry>, b: seq<Entry>, f: Entry, e: Entry, s: Settings, i: IItem, version: Word)
    requires i.Valid() && Defined(b, s, i, version) && Suits(e, i)
    requires var ic := NormalCode(i, version);
             Find(a, ic, version) == Hit(f) && Find(b, ic, version) == Hit(e) && StricterRecord(f, e, s, version, ic)
    ensures Defined(a, s, i, version)
    ensures Verdict(a, s, i, version) != 0 ==> Verdict(b, s, i, version) != 0
  {
    var ic, code := NormalCode(i, version), ItemCode(i);
    KindKept(f, e, s, version, ic);
    hide Find, WeaponCode, GuardCode, MagCode, ToolCode, ItemCode, StricterRecord, WeaponVerdict, WeaponDefined,
         MagVerdict, MagDefined, GuardVerdict, ToolVerdict;
    if i.b[0] == 0 {
      WeaponVerdictKept(a, b, f, e, s, i, version, code);
    } else if i.b[0] == 1 {
      GuardVerdictKept(a, b, f, e, s, i, version, code);
    } else if i.b[0] == 2 && IsVersion(version) {
      MagVerdictKept(a, b, f, e, s, i, version, code);
    } else if i.b[0] == 3 {
      ToolVerdictKept(a, b, f, e, s, i, version, code);
    }
  }

  lemma GuardVerdictKept(a: seq<Entry>, b: seq<Entry>, f: Entry, e: Entry, s: Settings, i: IItem,
                         version: Word, ic0: Word)
    requires i.Valid() && (e.Frame? || e.Barrier? || e.Unit?)
    requires var ic := GuardCode(i, version, ic0);
             Find(a, ic, version) == Hit(f) && Find(b, ic, version) == Hit(e) && StricterRecord(f, e, s, version, ic)
    ensures GuardVerdict(a, s, i, version, ic0) != 0 ==> GuardVerdict(b, s, i, version, ic0) != 0
  {
    var ic := GuardCode(i, version, ic0);
    KindKept(f, e, s, version, ic);
    hide Find, GuardCode, StricterRecord, GuardLegit;
    if GuardLegit(s, f, i, version) {
      GuardKept(f, e, s, i, version, ic);
    }
  }

  lemma ToolVerdictKept(a: seq<Entry>, b: seq<Entry>, f: Entry, e: Entry, s: Settings, i: IItem,
                        version: Word, ic0: Word)
    requires i.Valid() && f.Tool? && e.Tool?
    requires var ic := ToolCode(i, version, ic0);
             Find(a, ic, version) == Hit(f) && Find(b, ic, version) == Hit(e) && StricterRecord(f, e, s, version, ic)
    ensures ToolVerdict(a, s, i, version, ic0) != 0 ==> ToolVerdict(b, s, i, version, ic0) != 0
  {
    var ic := ToolCode(i, version, ic0);
    KindKept(f, e, s, version, ic);
    hide Find, ToolCode, StricterRecord, ToolLegit;
    if ToolLegit(f, i) {
      ToolKept(f, e, s, i, version, ic);
    }
  }

  /** The record is of a kind the item's list holds. */
  predicate Suits(e: Entry, i: IItem)
    requires i.Valid()
  {
    && (i.b[0] == 0 ==> e.Weapon?)
    && (i.b[0] == 1 ==> e.Frame? || e.Barrier? || e.Unit?)
    && (i.b[0] == 2 ==> e.Mag?)
    && (i.b[0] == 3 ==> e.Tool?)
  }

  lemma KindKept(f: Entry, e: Entry, s: Settings, version: Word, ic: Word)
    requires StricterRecord(f, e, s, version, ic)
    ensures KindOf(f) == KindOf(e) && StricterBase(f.base, e.base)
    ensures e.Weapon? ==> f.Weapon?
    ensures e.Mag? ==> f.Mag?
    ensures e.Tool? ==> f.Tool?
  {
    hide StricterRange, StricterStats, SubMask, SubMask64, Stricter;
  }

  lemma SameMatches(f: Entry, e: Entry, ic: Word, version: Word)
    requires f.base.code == e.base.code && f.base.versions == e.base.versions
    ensures Matches(f, ic, version) == Matches(e, ic, version)
  {
    hide Covers;
  }

  /** Replacing a record by a stricter one changes the first match to it or not at all. */
  lemma {:induction false} FindReplaced(list: seq<Entry>, j: nat, f: Entry, ic: Word, version: Word)
    requires j < |list| && f.base.code == list[j].base.code && f.base.versions == list[j].base.versions
    ensures var g, h := Find(list[j := f], ic, version), Find(list, ic, version);
            g == h || (g == Hit(f) && h == Hit(list[j]))
  {
    SameMatches(f, list[j], ic, version);
    hide Matches;
    if j > 0 && Matches(list[0], ic, version) {
    } else if j == 0 {
      assert list[j := f][1..] == list[1..];
    } else {
      assert list[j := f][1..] == list[1..][j - 1 := f];
      FindReplaced(list[1..], j - 1, f, ic, version);
    }
  }

  /** Tightening any record of any sorted list never accepts an item that was rejected. */
  lemma TighteningARecord(l: Lists, j: nat, f: Entry, s: Settings, i: IItem, version: Word)
    requires i.Valid() && Sorted(l) && j < |BucketOf(l, i)| && Defined(BucketOf(l, i), s, i, version)
    requires StricterRecord(f, BucketOf(l, i)[j], s, version, NormalCode(i, version))
    ensures var list := BucketOf(l, i);
            && Defined(list[j := f], s, i, version)
            && (Verdict(list[j := f], s, i, version) != 0 ==> Verdict(list, s, i, version) != 0)
  {
    var list, ic := BucketOf(l, i), NormalCode(i, version);
    var e := list[j];
    BucketSuits(l, i, e);
    KindKept(f, e, s, version, ic);
    hide Sorted, BucketOf, NormalCode, Find, Matches, Defined, Verdict, StricterRecord, Suits;
    FindReplaced(list, j, f, ic, version);
    if Find(list[j := f], ic, version) == Find(list, ic, version) {
      VerdictByFirstMatch(list[j := f], list, s, i, version);
    } else {
      StricterVerdict(list[j := f], list, f, e, s, i, version);
    }
  }

  lemma BucketSuits(l: Lists, i: IItem, e: Entry)
    requires i.Valid() && Sorted(l) && e in BucketOf(l, i)
    ensures Suits(e, i)
  {
    Downcasts(l, e);
    hide Sorted;
  }
}
