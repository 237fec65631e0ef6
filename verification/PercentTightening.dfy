/** When one set of percent and hit limits is stricter than another. */
module PercentTightening {
  import opened Words
  import opened Items
  import opened ItemPercents

  // ---------------------------------------------------------------- one bound for each slot

  function Least(o: Option, p: Option): Option {
    if o.None? then p else if p.None? || o.limit <= p.limit then o else p
  }

  function Greatest(o: Option, p: Option): Option {
    if o.None? then p else if p.None? || o.limit >= p.limit then o else p
  }

  /** The least of the upper limits that bind a slot. */
  function Cap(isHit: bool, exempt: bool, q: Sources): Option {
    var percent := if exempt then None else q.percent;
    if isHit && q.hit.Some? then q.hit
    else if isHit && q.defaultHit.Some? then Least(q.defaultHit, percent)
    else if exempt then None
    else if q.percent.Some? then q.percent
    else q.defaultPercent
  }

  /** The greatest of the lower limits that bind a slot. */
  function Floor(isHit: bool, exempt: bool, q: Sources): Option {
    var percent := if exempt then None else q.percent;
    if isHit && q.hit.Some? then q.hit
    else if isHit && q.defaultHit.Some? then Greatest(q.defaultHit, percent)
    else if exempt then None
    else if q.percent.Some? then q.percent
    else q.defaultPercent
  }

  lemma CapBinds(v: int, isHit: bool, exempt: bool, q: Sources)
    ensures BelowAll(v, Binding(isHit, exempt, q)) <==> AtMost(v, Cap(isHit, exempt, q))
  {
    BindingMembers(isHit, exempt, q);
    var o := Cap(isHit, exempt, q);
    assert o.Some? ==> o.limit in Binding(isHit, exempt, q);
  }

  lemma FloorBinds(v: int, isHit: bool, exempt: bool, q: Sources)
    ensures AboveAll(v, Binding(isHit, exempt, q)) <==> AtLeast(v, Floor(isHit, exempt, q))
  {
    BindingMembers(isHit, exempt, q);
    var o := Floor(isHit, exempt, q);
    assert o.Some? ==> o.limit in Binding(isHit, exempt, q);
  }

  predicate CapCovers(p: Option, o: Option) {
    o.Some? ==> p.Some? && p.limit <= o.limit
  }

  predicate FloorCovers(p: Option, o: Option) {
    o.Some? ==> p.Some? && p.limit >= o.limit
  }

  /** The limits p reject all that the limits q reject exactly when the cap of p covers that of q. */
  lemma UpperStricter(isHit: bool, exempt: bool, p: Sources, q: Sources)
    ensures (forall v: int :: BelowAll(v, Binding(isHit, exempt, p)) ==> BelowAll(v, Binding(isHit, exempt, q)))
       <==> CapCovers(Cap(isHit, exempt, p), Cap(isHit, exempt, q))
  {
    var c, d := Cap(isHit, exempt, p), Cap(isHit, exempt, q);
    var v := if c.Some? then c.limit else if d.Some? then d.limit + 1 else 0;
    CapBinds(v, isHit, exempt, p);
    forall u: int
      ensures BelowAll(u, Binding(isHit, exempt, p)) <==> AtMost(u, c)
      ensures BelowAll(u, Binding(isHit, exempt, q)) <==> AtMost(u, d)
    {
      CapBinds(u, isHit, exempt, p);
      CapBinds(u, isHit, exempt, q);
    }
  }

  lemma LowerStricter(isHit: bool, exempt: bool, p: Sources, q: Sources)
    ensures (forall v: int :: AboveAll(v, Binding(isHit, exempt, p)) ==> AboveAll(v, Binding(isHit, exempt, q)))
       <==> FloorCovers(Floor(isHit, exempt, p), Floor(isHit, exempt, q))
  {
    var c, d := Floor(isHit, exempt, p), Floor(isHit, exempt, q);
    var v := if c.Some? then c.limit else if d.Some? then d.limit - 1 else 0;
    FloorBinds(v, isHit, exempt, p);
    forall u: int
      ensures AboveAll(u, Binding(isHit, exempt, p)) <==> AtLeast(u, c)
      ensures AboveAll(u, Binding(isHit, exempt, q)) <==> AtLeast(u, d)
    {
      FloorBinds(u, isHit, exempt, p);
      FloorBinds(u, isHit, exempt, q);
    }
  }

  // ---------------------------------------------------------------- what a slot can hold

  /** The values from low to high; none when low exceeds high. */
  datatype Range = Range(low: int, high: int)

  predicate Within(p: Range, q: Range) {
    p.low > p.high || (q.low <= p.low && p.high <= q.high)
  }

  predicate InsideRange(v: int, r: Range) { r.low <= v <= r.high }

  function TopValue(o: Option): int {
    if o.None? || o.limit >= 127 then 127 else o.limit
  }

  function BottomValue(o: Option): int {
    if o.None? || o.limit <= -128 then -128 else o.limit
  }

  /** The greatest multiple of five that is not above v. */
  function FiveBelow(v: int): (r: int)
    ensures r <= v < r + 5 && r % 5 == 0
  {
    v - v % 5
  }

  /** The least multiple of five that is not below v. */
  function FiveAbove(v: int): (r: int)
    ensures r - 5 < v <= r && r % 5 == 0
  {
    v + (-v) % 5
  }

  /** The values a slot may hold: signed bytes within the bounds, and multiples of five only
      unless it is exempt. */
  function Allowed(isHit: bool, exempt: bool, up: Sources, low: Sources): Range {
    Range(Lowest(exempt, Floor(isHit, exempt, low)), Highest(exempt, Cap(isHit, exempt, up)))
  }

  /** The greatest value a cap admits. */
  function Highest(exempt: bool, cap: Option): int {
    if exempt then TopValue(cap) else FiveBelow(TopValue(cap))
  }

  /** The least value a floor admits. */
  function Lowest(exempt: bool, floor: Option): int {
    if exempt then BottomValue(floor) else FiveAbove(BottomValue(floor))
  }

  predicate Fits(v: int, exempt: bool, r: Range) {
    InsideRange(v, r) && (exempt || v % 5 == 0)
  }

  lemma FiveBounds(v: int, bound: int)
    requires v % 5 == 0
    ensures v <= bound <==> v <= FiveBelow(bound)
    ensures v >= bound <==> v >= FiveAbove(bound)
  {
    hide FiveBelow, FiveAbove;
    if v <= bound {
      Fives(v, FiveBelow(bound));
    }
    if v >= bound {
      Fives(FiveAbove(bound), v);
    }
  }

  lemma Fives(a: int, b: int)
    requires a % 5 == 0 && b % 5 == 0 && a < b + 5
    ensures a <= b
  {
    assert a == 5 * (a / 5) && b == 5 * (b / 5);
  }

  /** A filled slot is accepted exactly when its value fits the range for its kind. */
  lemma SlotFits(t: Slot, exempt: bool, up: Sources, low: Sources)
    requires t.kind != 0 && -128 <= t.value < 128
    ensures SlotLegit(t, exempt, up, low) <==> Fits(t.value, exempt, Allowed(IsHit(t.kind), exempt, up, low))
  {
    var isHit := IsHit(t.kind);
    CapBinds(t.value, isHit, exempt, up);
    FloorBinds(t.value, isHit, exempt, low);
    hide Binding, Cap, Floor, BelowAll, AboveAll, FiveBelow, FiveAbove;
    if t.value % 5 == 0 {
      FiveBounds(t.value, TopValue(Cap(isHit, exempt, up)));
      FiveBounds(t.value, BottomValue(Floor(isHit, exempt, low)));
    }
  }

  /** Containment of ranges, when both ends of a range that is not empty fit it. */
  lemma RangeEnds(isHit: bool, exempt: bool, up: Sources, low: Sources)
    ensures var r := Allowed(isHit, exempt, up, low);
            r.low <= r.high ==> -128 <= r.low && r.high < 128 && Fits(r.low, exempt, r) && Fits(r.high, exempt, r)
  {
    hide Cap, Floor;
  }

  // ---------------------------------------------------------------- setting one limit

  /** A cap d in place of the cap o adds no value to those from low on. */
  predicate AddsNoneAbove(exempt: bool, d: int, o: Option, low: int) {
    Highest(exempt, Some(d)) < low || Highest(exempt, Some(d)) <= Highest(exempt, o)
  }

  /** A floor d in place of the floor o adds no value to those up to high. */
  predicate AddsNoneBelow(exempt: bool, d: int, o: Option, high: int) {
    Lowest(exempt, Some(d)) > high || Lowest(exempt, Some(d)) >= Lowest(exempt, o)
  }

  /** When setting one unset upper limit to d gives a slot no new value: a hit limit competes
      with whatever capped hit slots so far, a default hit or percent limit with the default
      percent limit it displaces, and a default percent limit with nothing. */
  lemma SettingUpper(q: Sources, low: Sources, exempt: bool, d: int)
    ensures q.hit.None? ==>
              (Within(Allowed(true, exempt, q.(hit := Some(d)), low), Allowed(true, exempt, q, low))
               <==> AddsNoneAbove(exempt, d, Cap(true, exempt, q), Lowest(exempt, Floor(true, exempt, low))))
    ensures q.hit.None? && q.defaultHit.None? ==>
              (Within(Allowed(true, exempt, q.(defaultHit := Some(d)), low), Allowed(true, exempt, q, low))
               <==> || (!exempt && q.percent.Some?)
                    || AddsNoneAbove(exempt, d, if exempt then None else q.defaultPercent,
                                     Lowest(exempt, Floor(true, exempt, low))))
    ensures q.percent.None? ==>
              (Within(Allowed(false, false, q.(percent := Some(d)), low), Allowed(false, false, q, low))
               <==> AddsNoneAbove(false, d, q.defaultPercent, Lowest(false, Floor(false, false, low))))
    ensures q.defaultPercent.None? ==>
              forall isHit ::
                Within(Allowed(isHit, exempt, q.(defaultPercent := Some(d)), low), Allowed(isHit, exempt, q, low))
  {
    hide Floor, Highest, Lowest;
    if q.percent.Some? {
      HighestInOrder(exempt, Least(Some(d), q.percent), q.percent);
    }
    HighestInOrder(exempt, Some(d), None);
  }

  lemma SettingLower(up: Sources, q: Sources, exempt: bool, d: int)
    ensures q.hit.None? ==>
              (Within(Allowed(true, exempt, up, q.(hit := Some(d))), Allowed(true, exempt, up, q))
               <==> AddsNoneBelow(exempt, d, Floor(true, exempt, q), Highest(exempt, Cap(true, exempt, up))))
    ensures q.hit.None? && q.defaultHit.None? ==>
              (Within(Allowed(true, exempt, up, q.(defaultHit := Some(d))), Allowed(true, exempt, up, q))
               <==> || (!exempt && q.percent.Some?)
                    || AddsNoneBelow(exempt, d, if exempt then None else q.defaultPercent,
                                     Highest(exempt, Cap(true, exempt, up))))
    ensures q.percent.None? ==>
              (Within(Allowed(false, false, up, q.(percent := Some(d))), Allowed(false, false, up, q))
               <==> AddsNoneBelow(false, d, q.defaultPercent, Highest(false, Cap(false, false, up))))
    ensures q.defaultPercent.None? ==>
              forall isHit ::
                Within(Allowed(isHit, exempt, up, q.(defaultPercent := Some(d))), Allowed(isHit, exempt, up, q))
  {
    hide Cap, Highest, Lowest;
    if q.percent.Some? {
      LowestInOrder(exempt, Greatest(Some(d), q.percent), q.percent);
    }
    LowestInOrder(exempt, Some(d), None);
  }

  lemma HighestInOrder(exempt: bool, o: Option, p: Option)
    requires CapCovers(o, p)
    ensures Highest(exempt, o) <= Highest(exempt, p)
  {
    hide FiveBelow;
    FivesInOrder(TopValue(o), TopValue(p));
  }

  lemma LowestInOrder(exempt: bool, o: Option, p: Option)
    requires FloorCovers(o, p)
    ensures Lowest(exempt, o) >= Lowest(exempt, p)
  {
    hide FiveAbove;
    FivesInOrder(BottomValue(p), BottomValue(o));
  }

  // ---------------------------------------------------------------- whole items

  /** One set of settings, a listing, and what they come to for a version. */
  datatype Rules = Rules(s: Settings, l: Listing) {
    predicate Valid() { l.Valid() }

    function Ups(ver: Word): Sources
      requires Valid()
    {
      UpperSources(s, l, ver)
    }

    function Lows(ver: Word): Sources
      requires Valid()
    {
      LowerSources(s, l, ver)
    }

    function Slots(isHit: bool, exempt: bool, ver: Word): Range
      requires Valid()
    {
      Allowed(isHit, exempt, Ups(ver), Lows(ver))
    }

    predicate Accepts(i: IItem, ver: Word, ic: Word)
      requires Valid() && i.Valid()
    {
      PercentsLegit(s, i, l, ver, ic)
    }
  }

  /** What makes p at least as strict as q: the ranges of hit and of other slots lie within those
      of q. A J-Sword counts kills under p if it does under q; while it does not, its third
      slot may hold a hit value, whose range must lie within that of q too. */
  predicate Stricter(p: Rules, q: Rules, ver: Word, ic: Word)
    requires p.Valid() && q.Valid()
  {
    && Within(p.Slots(true, false, ver), q.Slots(true, false, ver))
    && Within(p.Slots(false, false, ver), q.Slots(false, false, ver))
    && (IsJSword(ver, ic) ==>
          && (q.s.checkJSword ==> p.s.checkJSword)
          && (p.s.checkJSword || Within(p.Slots(true, true, ver), q.Slots(true, true, ver))))
  }

  /** An item with one filled slot, and another byte that may hold the kills or a hit kind. */
  function Single(kind: Byte, v: int, third: Byte, w: int): (i: IItem)
    requires -128 <= v < 128 && -128 <= w < 128
    ensures i.Valid()
  {
    IItem([0, 0, 0, 0, 0, 0, kind, Signed(v), 0, 0, third, Signed(w)], [0, 0, 0, 0])
  }

  function Signed(v: int): Byte
    requires -128 <= v < 128
  {
    if v >= 0 then v as Byte else (v + 256) as Byte
  }

  lemma SignedIs(v: int)
    requires -128 <= v < 128
    ensures S8(Signed(v)) == v
  {
    ByteValue(if v >= 0 then v else v + 256);
  }

  lemma SingleSlots(kind: Byte, v: int, third: Byte, w: int)
    requires -128 <= v < 128 && -128 <= w < 128
    ensures var i := Single(kind, v, third, w);
            SlotAt(i, 0) == Slot(kind, v) && SlotAt(i, 1) == Slot(0, 0) && SlotAt(i, 2) == Slot(third, w)
  {
    hide S8, Signed;
    SignedIs(v);
    SignedIs(w);
    ZeroByte();
  }

  lemma ZeroByte()
    ensures S8(0) == 0
  {
  }

  predicate SlotOk(p: Rules, t: Slot, exempt: bool, ver: Word)
    requires p.Valid()
  {
    if t.kind == 0 then exempt || t.value % 5 == 0 else Fits(t.value, exempt, p.Slots(IsHit(t.kind), exempt, ver))
  }

  lemma SlotOkIs(p: Rules, t: Slot, exempt: bool, ver: Word)
    requires p.Valid() && -128 <= t.value < 128
    ensures SlotOk(p, t, exempt, ver) <==> SlotLegit(t, exempt, p.Ups(ver), p.Lows(ver))
  {
    hide Allowed, Fits, Binding;
    if t.kind != 0 {
      SlotFits(t, exempt, p.Ups(ver), p.Lows(ver));
    }
  }

  /** The verdict, from the kills and one range for each slot. */
  lemma AcceptsIs(p: Rules, i: IItem, ver: Word, ic: Word)
    requires p.Valid() && i.Valid()
    ensures p.Accepts(i, ver, ic) <==>
            && KillsLegit(p.s, i, ver, ic)
            && SlotOk(p, SlotAt(i, 0), false, ver)
            && SlotOk(p, SlotAt(i, 1), false, ver)
            && SlotOk(p, SlotAt(i, 2), IsJSword(ver, ic), ver)
  {
    hide KillsLegit, SlotOk, SlotLegit, SlotAt, UpperSources, LowerSources, IsJSword;
    SlotOkIs(p, SlotAt(i, 0), false, ver);
    SlotOkIs(p, SlotAt(i, 1), false, ver);
    SlotOkIs(p, SlotAt(i, 2), IsJSword(ver, ic), ver);
  }

  lemma FreeOrdinarySlot(p: Rules, ver: Word)
    requires p.Valid()
    ensures p.Slots(false, true, ver) == Range(-128, 127)
  {
  }

  /** Whether an item with only its first slot filled passes; a J-Sword also has its kills. */
  lemma FirstSlotDecides(p: Rules, kind: Byte, v: int, ver: Word, ic: Word)
    requires p.Valid() && -128 <= v < 128 && kind != 0
    ensures var third := if IsJSword(ver, ic) then 0xD6 else 0;
            p.Accepts(Single(kind, v, third, 0), ver, ic) <==> Fits(v, false, p.Slots(IsHit(kind), false, ver))
  {
    var third: Byte := if IsJSword(ver, ic) then 0xD6 else 0;
    var i := Single(kind, v, third, 0);
    assert KillsLegit(p.s, i, ver, ic);
    hide KillsLegit, Single, SlotAt, IsJSword;
    AcceptsIs(p, i, ver, ic);
    SingleSlots(kind, v, third, 0);
    FreeOrdinarySlot(p, ver);
    hide Rules.Slots, Rules.Accepts;
  }

  /** Whether a J-Sword with only its third slot filled, by less than a kill count, passes. */
  lemma ThirdSlotDecides(p: Rules, kind: Byte, w: int, ver: Word, ic: Word)
    requires p.Valid() && -128 <= w < 128 && 0 < kind < 0x80 && IsJSword(ver, ic)
    ensures p.Accepts(Single(0, 0, kind, w), ver, ic) <==>
            !p.s.checkJSword && Fits(w, true, p.Slots(IsHit(kind), true, ver))
  {
    var i := Single(0, 0, kind, w);
    assert KillsLegit(p.s, i, ver, ic) <==> !p.s.checkJSword;
    hide KillsLegit, Single, SlotAt, IsJSword;
    AcceptsIs(p, i, ver, ic);
    SingleSlots(0, 0, kind, w);
    hide Rules.Slots, Rules.Accepts;
  }

  // ---------------------------------------------------------------- the exact condition

  ghost predicate AcceptsNothingNew(p: Rules, q: Rules, ver: Word, ic: Word)
    requires p.Valid() && q.Valid()
  {
    forall i: IItem :: i.Valid() && p.Accepts(i, ver, ic) ==> q.Accepts(i, ver, ic)
  }

  /** The rules p accept nothing that the rules q reject exactly when p is stricter. */
  lemma StricterIsExact(p: Rules, q: Rules, ver: Word, ic: Word)
    requires p.Valid() && q.Valid()
    ensures AcceptsNothingNew(p, q, ver, ic) <==> Stricter(p, q, ver, ic)
  {
    hide Stricter, Rules.Accepts;
    if Stricter(p, q, ver, ic) {
      forall i: IItem | i.Valid() && p.Accepts(i, ver, ic)
        ensures q.Accepts(i, ver, ic)
      {
        StricterKeeps(p, q, i, ver, ic);
      }
    }
    if AcceptsNothingNew(p, q, ver, ic) {
      FirstSlotsWithin(p, q, 5, ver, ic);
      FirstSlotsWithin(p, q, 1, ver, ic);
      if IsJSword(ver, ic) && !p.s.checkJSword {
        ThirdSlotsWithin(p, q, ver, ic);
      }
      StricterIs(p, q, ver, ic);
    }
  }

  lemma StricterIs(p: Rules, q: Rules, ver: Word, ic: Word)
    requires p.Valid() && q.Valid()
    requires Within(p.Slots(IsHit(5), false, ver), q.Slots(IsHit(5), false, ver))
    requires Within(p.Slots(IsHit(1), false, ver), q.Slots(IsHit(1), false, ver))
    requires IsJSword(ver, ic) && !p.s.checkJSword ==>
               !q.s.checkJSword && Within(p.Slots(true, true, ver), q.Slots(true, true, ver))
    ensures Stricter(p, q, ver, ic)
  {
    hide Rules.Slots, Within, IsJSword;
  }

  lemma StricterKeeps(p: Rules, q: Rules, i: IItem, ver: Word, ic: Word)
    requires p.Valid() && q.Valid() && i.Valid() && Stricter(p, q, ver, ic) && p.Accepts(i, ver, ic)
    ensures q.Accepts(i, ver, ic)
  {
    AcceptsIs(p, i, ver, ic);
    AcceptsIs(q, i, ver, ic);
    KillsKept(p, q, i, ver, ic);
    hide KillsLegit, IsJSword, SlotAt, Rules.Slots, Rules.Accepts, SlotOk, Within;
    SlotKept(p, q, SlotAt(i, 0), ver);
    SlotKept(p, q, SlotAt(i, 1), ver);
    if IsJSword(ver, ic) {
      FreeSlotKept(p, q, i, ver, ic);
    } else {
      SlotKept(p, q, SlotAt(i, 2), ver);
    }
  }

  lemma KillsKept(p: Rules, q: Rules, i: IItem, ver: Word, ic: Word)
    requires p.Valid() && q.Valid() && i.Valid() && Stricter(p, q, ver, ic)
    ensures KillsLegit(p.s, i, ver, ic) ==> KillsLegit(q.s, i, ver, ic)
  {
    hide Rules.Slots;
  }

  lemma SlotKept(p: Rules, q: Rules, t: Slot, ver: Word)
    requires p.Valid() && q.Valid() && SlotOk(p, t, false, ver)
    requires Within(p.Slots(true, false, ver), q.Slots(true, false, ver))
    requires Within(p.Slots(false, false, ver), q.Slots(false, false, ver))
    ensures SlotOk(q, t, false, ver)
  {
    hide Rules.Slots;
  }

  lemma FreeSlotKept(p: Rules, q: Rules, i: IItem, ver: Word, ic: Word)
    requires p.Valid() && q.Valid() && i.Valid() && IsJSword(ver, ic) && KillsLegit(p.s, i, ver, ic)
    requires p.s.checkJSword || Within(p.Slots(true, true, ver), q.Slots(true, true, ver))
    requires SlotOk(p, SlotAt(i, 2), true, ver)
    ensures SlotOk(q, SlotAt(i, 2), true, ver)
  {
    FreeOrdinarySlot(p, ver);
    FreeOrdinarySlot(q, ver);
    if p.s.checkJSword {
      HitMeansNoKills(p.s, i, ver, ic);
    }
    hide Rules.Slots, KillsLegit, IsJSword, S8;
  }

  /** A third slot that shows kills is no hit slot. */
  lemma HitMeansNoKills(s: Settings, i: IItem, ver: Word, ic: Word)
    requires i.Valid() && IsJSword(ver, ic) && s.checkJSword && KillsLegit(s, i, ver, ic)
    ensures !IsHit(SlotAt(i, 2).kind)
  {
    hide S8;
  }

  lemma FirstSlotsWithin(p: Rules, q: Rules, kind: Byte, ver: Word, ic: Word)
    requires p.Valid() && q.Valid() && kind != 0 && AcceptsNothingNew(p, q, ver, ic)
    ensures Within(p.Slots(IsHit(kind), false, ver), q.Slots(IsHit(kind), false, ver))
  {
    var r := p.Slots(IsHit(kind), false, ver);
    RangeEnds(IsHit(kind), false, p.Ups(ver), p.Lows(ver));
    hide Rules.Slots, Allowed, AcceptsNothingNew;
    if r.low <= r.high {
      FirstSlotFits(p, q, kind, r.low, ver, ic);
      FirstSlotFits(p, q, kind, r.high, ver, ic);
    }
  }

  lemma FirstSlotFits(p: Rules, q: Rules, kind: Byte, v: int, ver: Word, ic: Word)
    requires p.Valid() && q.Valid() && kind != 0 && -128 <= v < 128 && AcceptsNothingNew(p, q, ver, ic)
    requires Fits(v, false, p.Slots(IsHit(kind), false, ver))
    ensures Fits(v, false, q.Slots(IsHit(kind), false, ver))
  {
    hide Rules.Slots, Rules.Accepts, Single, IsJSword, Fits;
    FirstSlotDecides(p, kind, v, ver, ic);
    FirstSlotDecides(q, kind, v, ver, ic);
    assert Single(kind, v, if IsJSword(ver, ic) then 0xD6 else 0, 0).Valid();
  }

  lemma ThirdSlotsWithin(p: Rules, q: Rules, ver: Word, ic: Word)
    requires p.Valid() && q.Valid() && AcceptsNothingNew(p, q, ver, ic) && IsJSword(ver, ic) && !p.s.checkJSword
    ensures !q.s.checkJSword && Within(p.Slots(true, true, ver), q.Slots(true, true, ver))
  {
    var r := p.Slots(true, true, ver);
    RangeEnds(true, true, p.Ups(ver), p.Lows(ver));
    FreeOrdinarySlot(p, ver);
    hide Rules.Slots, Allowed, AcceptsNothingNew;
    ThirdSlotFits(p, q, 1, 0, ver, ic);
    if r.low <= r.high {
      ThirdSlotFits(p, q, 5, r.low, ver, ic);
      ThirdSlotFits(p, q, 5, r.high, ver, ic);
    }
  }

  lemma ThirdSlotFits(p: Rules, q: Rules, kind: Byte, w: int, ver: Word, ic: Word)
    requires p.Valid() && q.Valid() && AcceptsNothingNew(p, q, ver, ic) && IsJSword(ver, ic) && !p.s.checkJSword
    requires 0 < kind < 0x80 && -128 <= w < 128 && Fits(w, true, p.Slots(IsHit(kind), true, ver))
    ensures !q.s.checkJSword && Fits(w, true, q.Slots(IsHit(kind), true, ver))
  {
    hide Rules.Slots, Rules.Accepts, Single, IsJSword, Fits;
    ThirdSlotDecides(p, kind, w, ver, ic);
    ThirdSlotDecides(q, kind, w, ver, ic);
    assert Single(0, 0, kind, w).Valid();
  }

  /** When setting the unset maximum hit of a record to d accepts no new item: hit slots gain no
      value, nor does the third slot of a J-Sword while its kills go unchecked. */
  lemma SettingMaxHit(s: Settings, w: Entry, d: int, ver: Word, ic: Word)
    requires w.Weapon? && w.maxHit == INT_MAX && d != INT_MAX
    ensures var q := Rules(s, Listed(w));
            AcceptsNothingNew(Rules(s, Listed(w.(maxHit := d))), q, ver, ic) <==>
            && AddsNoneAbove(false, d, Cap(true, false, q.Ups(ver)), q.Slots(true, false, ver).low)
            && (IsJSword(ver, ic) && !s.checkJSword ==>
                  AddsNoneAbove(true, d, Cap(true, true, q.Ups(ver)), q.Slots(true, true, ver).low))
  {
    var p, q := Rules(s, Listed(w.(maxHit := d))), Rules(s, Listed(w));
    assert p.Ups(ver) == q.Ups(ver).(hit := Some(d)) && p.Lows(ver) == q.Lows(ver) && q.Ups(ver).hit.None?;
    hide UpperSources, LowerSources, IsJSword, AcceptsNothingNew, Highest, Lowest, AddsNoneAbove;
    StricterIsExact(p, q, ver, ic);
    SettingUpper(q.Ups(ver), q.Lows(ver), false, d);
    SettingUpper(q.Ups(ver), q.Lows(ver), true, d);
  }

  lemma SettingMinHit(s: Settings, w: Entry, d: int, ver: Word, ic: Word)
    requires w.Weapon? && w.minHit == INT_MIN && d != INT_MIN
    ensures var q := Rules(s, Listed(w));
            AcceptsNothingNew(Rules(s, Listed(w.(minHit := d))), q, ver, ic) <==>
            && AddsNoneBelow(false, d, Floor(true, false, q.Lows(ver)), q.Slots(true, false, ver).high)
            && (IsJSword(ver, ic) && !s.checkJSword ==>
                  AddsNoneBelow(true, d, Floor(true, true, q.Lows(ver)), q.Slots(true, true, ver).high))
  {
    var p, q := Rules(s, Listed(w.(minHit := d))), Rules(s, Listed(w));
    assert p.Lows(ver) == q.Lows(ver).(hit := Some(d)) && p.Ups(ver) == q.Ups(ver) && q.Lows(ver).hit.None?;
    hide UpperSources, LowerSources, IsJSword, AcceptsNothingNew, Highest, Lowest, AddsNoneBelow;
    StricterIsExact(p, q, ver, ic);
    SettingLower(q.Ups(ver), q.Lows(ver), false, d);
    SettingLower(q.Ups(ver), q.Lows(ver), true, d);
  }

  // ---------------------------------------------------------------- tightening

  predicate TighterUpper(o: Option, p: Option) {
    o.Some? == p.Some? && (o.Some? ==> o.limit <= p.limit)
  }

  predicate TighterLower(o: Option, p: Option) {
    o.Some? == p.Some? && (o.Some? ==> o.limit >= p.limit)
  }

  predicate TighterSources(up: Sources, low: Sources, up': Sources, low': Sources) {
    && TighterUpper(up.hit, up'.hit) && TighterUpper(up.percent, up'.percent)
    && TighterUpper(up.defaultHit, up'.defaultHit) && TighterUpper(up.defaultPercent, up'.defaultPercent)
    && TighterLower(low.hit, low'.hit) && TighterLower(low.percent, low'.percent)
    && TighterLower(low.defaultHit, low'.defaultHit) && TighterLower(low.defaultPercent, low'.defaultPercent)
  }

  /** With the same limits set, tightening any of them never accepts what was rejected. */
  lemma TighteningIsMonotone(s: Settings, l: Listing, s': Settings, l': Listing, i: IItem, ver: Word, ic: Word)
    requires i.Valid() && l.Valid() && l'.Valid() && s.checkJSword == s'.checkJSword
    requires TighterSources(UpperSources(s, l, ver), LowerSources(s, l, ver),
                            UpperSources(s', l', ver), LowerSources(s', l', ver))
    requires PercentsLegit(s, i, l, ver, ic)
    ensures PercentsLegit(s', i, l', ver, ic)
  {
    var p, q := Rules(s, l), Rules(s', l');
    TighterIsWithin(true, false, p, q, ver);
    TighterIsWithin(false, false, p, q, ver);
    TighterIsWithin(true, true, p, q, ver);
    hide Rules.Slots, PercentsLegit, UpperSources, LowerSources, TighterSources, Within;
    StricterKeeps(p, q, i, ver, ic);
  }

  lemma TighterIsWithin(isHit: bool, exempt: bool, p: Rules, q: Rules, ver: Word)
    requires p.Valid() && q.Valid() && TighterSources(p.Ups(ver), p.Lows(ver), q.Ups(ver), q.Lows(ver))
    ensures Within(p.Slots(isHit, exempt, ver), q.Slots(isHit, exempt, ver))
  {
    hide UpperSources, LowerSources, FiveAbove, FiveBelow;
    CoveredRange(isHit, exempt, p.Ups(ver), p.Lows(ver), q.Ups(ver), q.Lows(ver));
  }

  /** Covering caps and floors give contained ranges. */
  lemma CoveredRange(isHit: bool, exempt: bool, up: Sources, low: Sources, up': Sources, low': Sources)
    requires CapCovers(Cap(isHit, exempt, up), Cap(isHit, exempt, up'))
    requires FloorCovers(Floor(isHit, exempt, low), Floor(isHit, exempt, low'))
    ensures Within(Allowed(isHit, exempt, up, low), Allowed(isHit, exempt, up', low'))
  {
    hide Cap, Floor, Highest, Lowest;
    HighestInOrder(exempt, Cap(isHit, exempt, up), Cap(isHit, exempt, up'));
    LowestInOrder(exempt, Floor(isHit, exempt, low), Floor(isHit, exempt, low'));
  }

  lemma FivesInOrder(a: int, b: int)
    requires a <= b
    ensures FiveBelow(a) <= FiveBelow(b) && FiveAbove(a) <= FiveAbove(b)
  {
    hide FiveBelow, FiveAbove;
    Fives(FiveBelow(a), FiveBelow(b));
    Fives(FiveAbove(a), FiveAbove(b));
  }

  function HitItem(): IItem {
    IItem([0, 0, 0, 0, 0, 0, 5, 40, 0, 0, 0, 0], [0, 0, 0, 0])
  }

  function PercentRecord(maxHit: int): Entry {
    Weapon(Common(0, 1, false, false), -1, -1, 30, INT_MIN, INT_MIN, maxHit, 1)
  }

  /** The pattern of set limits matters: a hit slot of 40 percent that breaks a percent limit
      of 30 becomes acceptable once a hit limit of 50, until then unset, is added. */
  lemma SettingALimitCanAccept(s: Settings)
    requires s.v1 == NO_DEFAULTS
    ensures !PercentsLegit(s, HitItem(), Listed(PercentRecord(INT_MAX)), VERSION_V1, 0)
    ensures PercentsLegit(s, HitItem(), Listed(PercentRecord(50)), VERSION_V1, 0)
  {
    HitItemSlots();
    SlotVerdicts();
    ExampleSources(s, INT_MAX);
    ExampleSources(s, 50);
    hide HitItem, PercentRecord, SlotAt, SlotLegit, UpperSources, LowerSources;
    assert KillsLegit(s, HitItem(), VERSION_V1, 0);
  }

  lemma ExampleSources(s: Settings, maxHit: int)
    requires s.v1 == NO_DEFAULTS
    ensures PercentRecord(maxHit).Weapon?
    ensures UpperSources(s, Listed(PercentRecord(maxHit)), VERSION_V1) == Sources(Upper(maxHit), Some(30), None, None)
    ensures LowerSources(s, Listed(PercentRecord(maxHit)), VERSION_V1) == Sources(None, None, None, None)
  {
  }

  lemma SlotVerdicts()
    ensures var none := Sources(None, None, None, None);
            && !SlotLegit(Slot(5, 40), false, Sources(None, Some(30), None, None), none)
            && SlotLegit(Slot(5, 40), false, Sources(Some(50), Some(30), None, None), none)
            && SlotLegit(Slot(0, 0), false, Sources(Some(50), Some(30), None, None), none)
    ensures Upper(INT_MAX) == None && Upper(50) == Some(50) && !IsJSword(VERSION_V1, 0)
  {
    var q := Sources(None, Some(30), None, None);
    assert Binding(true, false, q) == {30};
    assert Binding(true, false, Sources(Some(50), Some(30), None, None)) == {50};
    assert Binding(true, false, Sources(None, None, None, None)) == {};
    assert 30 in {30};
  }

  lemma HitItemSlots()
    ensures HitItem().Valid()
    ensures SlotAt(HitItem(), 0) == Slot(5, 40)
    ensures SlotAt(HitItem(), 1) == Slot(0, 0) && SlotAt(HitItem(), 2) == Slot(0, 0)
  {
  }
}
