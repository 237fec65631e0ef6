/** Which percent and hit limits bind a weapon's three attribute slots. */
module ItemPercents {
  import opened Words
  import opened Items

  /** An inventory item: twelve data bytes and the four bytes of the second data word. */
  datatype IItem = IItem(b: seq<Byte>, b2: seq<Byte>) {
    predicate Valid() { |b| == 12 && |b2| == 4 }
  }

  /** The byte as a signed 8-bit number. */
  function S8(x: Byte): (v: int)
    ensures -128 <= v < 128
  {
    if x >= 0x80 then x as int - 256 else x as int
  }

  /** The attribute type of a hit slot. */
  predicate IsHit(kind: Byte) { kind == 5 }

  function DefaultsFor(s: Settings, ver: Word): Defaults {
    if ver == VERSION_V1 then s.v1
    else if ver == VERSION_V2 then s.v2
    else if ver == VERSION_GC then s.gc
    else if ver == VERSION_XBOX then s.xbox
    else NO_DEFAULTS
  }

  // ---------------------------------------------------------------- the resolved limits

  datatype Option = None | Some(limit: int)

  function Upper(limit: int): Option { if limit == INT_MAX then None else Some(limit) }

  function Lower(limit: int): Option { if limit == INT_MIN then None else Some(limit) }

  predicate AtMost(v: int, o: Option) { o.Some? ==> v <= o.limit }

  predicate AtLeast(v: int, o: Option) { o.Some? ==> v >= o.limit }

  /** The four sources a bound can come from: the record's hit and percent limits, the
      version's default hit and percent limits. */
  datatype Sources = Sources(hit: Option, percent: Option, defaultHit: Option, defaultPercent: Option)

  /** The record that lists the weapon, if one does. */
  datatype Listing = Unlisted | Listed(w: Entry) {
    predicate Valid() { Listed? ==> w.Weapon? }
  }

  function UpperSources(s: Settings, l: Listing, ver: Word): Sources
    requires l.Valid()
  {
    var d := DefaultsFor(s, ver);
    Sources(if l.Listed? then Upper(l.w.maxHit) else None, if l.Listed? then Upper(l.w.maxPercents) else None,
            Upper(d.maxHit), Upper(d.maxPercent))
  }

  function LowerSources(s: Settings, l: Listing, ver: Word): Sources
    requires l.Valid()
  {
    var d := DefaultsFor(s, ver);
    Sources(if l.Listed? then Lower(l.w.minHit) else None, if l.Listed? then Lower(l.w.minPercents) else None,
            Lower(d.minHit), Lower(d.minPercent))
  }

  /** The limits that bind a slot. A hit slot answers to the record's hit limit alone; failing
      that, to the default hit limit together with the record's percent limit; failing that it
      is an ordinary percent slot, which answers to the record's percent limit, else to the
      default. An exempt slot answers to no percent limit. */
  function Binding(isHit: bool, exempt: bool, q: Sources): set<int> {
    var percent := if exempt then None else q.percent;
    if isHit && q.hit.Some? then {q.hit.limit}
    else if isHit && q.defaultHit.Some? then {q.defaultHit.limit} + Limits(percent)
    else if exempt then {}
    else if q.percent.Some? then {q.percent.limit}
    else Limits(q.defaultPercent)
  }

  function Limits(o: Option): set<int> {
    if o.Some? then {o.limit} else {}
  }

  /** A J-Sword keeps a kill count in its third slot. */
  predicate IsJSword(ver: Word, ic: Word) {
    (ver == VERSION_GC || ver == VERSION_XBOX) && (ic == 0x003200 || ic == 0x003300)
  }

  /** An attribute slot: a type byte, zero when empty, and a signed value. */
  datatype Slot = Slot(kind: Byte, value: int)

  function SlotAt(i: IItem, k: nat): (r: Slot)
    requires i.Valid() && k < 3
    ensures -128 <= r.value < 128
  {
    Slot(i.b[6 + 2 * k], S8(i.b[7 + 2 * k]))
  }

  predicate BelowAll(v: int, limits: set<int>) { forall u :: u in limits ==> v <= u }

  predicate AboveAll(v: int, limits: set<int>) { forall u :: u in limits ==> v >= u }

  predicate WithinUpper(t: Slot, exempt: bool, up: Sources) {
    t.kind != 0 ==> BelowAll(t.value, Binding(IsHit(t.kind), exempt, up))
  }

  predicate WithinLower(t: Slot, exempt: bool, low: Sources) {
    t.kind != 0 ==> AboveAll(t.value, Binding(IsHit(t.kind), exempt, low))
  }

  predicate SlotLegit(t: Slot, exempt: bool, up: Sources, low: Sources) {
    WithinUpper(t, exempt, up) && WithinLower(t, exempt, low) && (exempt || t.value % 5 == 0)
  }

  /** The kill count of a checked J-Sword: the marker bit, and enough kills once unsealed. */
  predicate KillsLegit(s: Settings, i: IItem, ver: Word, ic: Word)
    requires i.Valid()
  {
    IsJSword(ver, ic) && s.checkJSword ==>
      if ic == 0x003200 then i.b[10] >= 0xD6 else i.b[10] >= 0x80
  }

  /** What the check promises: the kill count is right and every slot meets the limits that
      bind it and is a multiple of five, the third slot of a J-Sword being exempt. */
  predicate PercentsLegit(s: Settings, i: IItem, l: Listing, ver: Word, ic: Word)
    requires i.Valid() && l.Valid()
  {
    var up, low, js := UpperSources(s, l, ver), LowerSources(s, l, ver), IsJSword(ver, ic);
    && KillsLegit(s, i, ver, ic)
    && SlotLegit(SlotAt(i, 0), false, up, low)
    && SlotLegit(SlotAt(i, 1), false, up, low)
    && SlotLegit(SlotAt(i, 2), js, up, low)
  }

  // ---------------------------------------------------------------- the check

  method CheckKills(s: Settings, i: IItem, ver: Word, ic: Word) returns (ok: bool, isJs: bool)
    requires i.Valid()
    ensures isJs == IsJSword(ver, ic) && ok == KillsLegit(s, i, ver, ic)
  {
    isJs := false;
    if ver == VERSION_GC || ver == VERSION_XBOX {
      if ic == 0x003200 {
        isJs := true;
        if s.checkJSword {
          KillCount(i.b[10], i.b[11]);
          var tmp := ((i.b[10] as Word) << 8) | (i.b[11] as Word);
          if tmp & 0x8000 == 0 {
            return false, isJs;
          }
          if tmp < 0xD600 {
            return false, isJs;
          }
        }
      } else if ic == 0x003300 {
        isJs := true;
        if s.checkJSword {
          KillCount(i.b[10], i.b[11]);
          var tmp := ((i.b[10] as Word) << 8) | (i.b[11] as Word);
          if tmp & 0x8000 == 0 {
            return false, isJs;
          }
        }
      }
    }
    return true, isJs;
  }

  /** Both tests of the kill count look at its high byte only. */
  lemma KillCount(high: Byte, low: Byte)
    ensures var tmp := ((high as Word) << 8) | (low as Word);
            (tmp & 0x8000 == 0 <==> high < 0x80) && (tmp < 0xD600 <==> high < 0xD6)
  {
  }

  /** The tests against the record's own limits, in the order they are made. */
  predicate ListedTests(t: Slot, exempt: bool, up: Sources, low: Sources) {
    && (up.hit.Some? ==> HitAtMost(t, up.hit.limit))
    && (low.hit.Some? ==> HitAtLeast(t, low.hit.limit))
    && (up.percent.Some? ==> PercentAtMost(t, up.percent.limit, up.hit.Some?, exempt))
    && (low.percent.Some? ==> PercentAtLeast(t, low.percent.limit, low.hit.Some?, exempt))
  }

  /** The tests against the defaults, for whatever the record left unset. */
  predicate DefaultTests(t: Slot, exempt: bool, up: Sources, low: Sources) {
    && (up.hit.None? && up.defaultHit.Some? ==> HitAtMost(t, up.defaultHit.limit))
    && (low.hit.None? && low.defaultHit.Some? ==> HitAtLeast(t, low.defaultHit.limit))
    && (up.percent.None? && up.defaultPercent.Some?
        ==> PercentAtMost(t, up.defaultPercent.limit, up.hit.Some? || up.defaultHit.Some?, exempt))
    && (low.percent.None? && low.defaultPercent.Some?
        ==> PercentAtLeast(t, low.defaultPercent.limit, low.hit.Some? || low.defaultHit.Some?, exempt))
  }

  predicate HitAtMost(t: Slot, limit: int) {
    IsHit(t.kind) ==> t.value <= limit
  }

  predicate HitAtLeast(t: Slot, limit: int) {
    IsHit(t.kind) ==> t.value >= limit
  }

  predicate PercentAtMost(t: Slot, limit: int, hitDone: bool, exempt: bool) {
    t.kind != 0 && !(IsHit(t.kind) && hitDone) && !exempt ==> t.value <= limit
  }

  predicate PercentAtLeast(t: Slot, limit: int, hitDone: bool, exempt: bool) {
    t.kind != 0 && !(IsHit(t.kind) && hitDone) && !exempt ==> t.value >= limit
  }

  /** The tests in the order the code makes them resolve to exactly the binding limits. */
  lemma TestsResolve(t: Slot, exempt: bool, up: Sources, low: Sources)
    ensures ListedTests(t, exempt, up, low) && DefaultTests(t, exempt, up, low)
            <==> WithinUpper(t, exempt, up) && WithinLower(t, exempt, low)
  {
    UpperResolves(t, exempt, up);
    LowerResolves(t, exempt, low);
    hide WithinUpper, WithinLower;
  }

  lemma UpperResolves(t: Slot, exempt: bool, q: Sources)
    ensures WithinUpper(t, exempt, q) <==>
            (&& (q.hit.Some? ==> HitAtMost(t, q.hit.limit))
             && (q.percent.Some? ==> PercentAtMost(t, q.percent.limit, q.hit.Some?, exempt))
             && (q.hit.None? && q.defaultHit.Some? ==> HitAtMost(t, q.defaultHit.limit))
             && (q.percent.None? && q.defaultPercent.Some?
                 ==> PercentAtMost(t, q.defaultPercent.limit, q.hit.Some? || q.defaultHit.Some?, exempt)))
  {
    BindingMembers(IsHit(t.kind), exempt, q);
  }

  lemma LowerResolves(t: Slot, exempt: bool, q: Sources)
    ensures WithinLower(t, exempt, q) <==>
            (&& (q.hit.Some? ==> HitAtLeast(t, q.hit.limit))
             && (q.percent.Some? ==> PercentAtLeast(t, q.percent.limit, q.hit.Some?, exempt))
             && (q.hit.None? && q.defaultHit.Some? ==> HitAtLeast(t, q.defaultHit.limit))
             && (q.percent.None? && q.defaultPercent.Some?
                 ==> PercentAtLeast(t, q.defaultPercent.limit, q.hit.Some? || q.defaultHit.Some?, exempt)))
  {
    BindingMembers(IsHit(t.kind), exempt, q);
  }

  /** Which limits are binding, one source at a time. */
  lemma BindingMembers(isHit: bool, exempt: bool, q: Sources)
    ensures var binding := Binding(isHit, exempt, q);
            var hitDone := q.hit.Some? || q.defaultHit.Some?;
            && (isHit && q.hit.Some? ==> q.hit.limit in binding)
            && (isHit && q.hit.None? && q.defaultHit.Some? ==> q.defaultHit.limit in binding)
            && (q.percent.Some? && !exempt && !(isHit && q.hit.Some?) ==> q.percent.limit in binding)
            && (q.percent.None? && q.defaultPercent.Some? && !exempt && !(isHit && hitDone) ==>
                  q.defaultPercent.limit in binding)
  {
  }

  method HitsAtMost(i: IItem, limit: int) returns (ok: bool)
    requires i.Valid()
    ensures ok <==> HitAtMost(SlotAt(i, 0), limit) && HitAtMost(SlotAt(i, 1), limit)
                    && HitAtMost(SlotAt(i, 2), limit)
  {
    hide S8;
    ok := !((i.b[6] == 5 && S8(i.b[7]) > limit) ||
            (i.b[8] == 5 && S8(i.b[9]) > limit) ||
            (i.b[10] == 5 && S8(i.b[11]) > limit));
  }

  method HitsAtLeast(i: IItem, limit: int) returns (ok: bool)
    requires i.Valid()
    ensures ok <==> HitAtLeast(SlotAt(i, 0), limit) && HitAtLeast(SlotAt(i, 1), limit)
                    && HitAtLeast(SlotAt(i, 2), limit)
  {
    hide S8;
    ok := !((i.b[6] == 5 && S8(i.b[7]) < limit) ||
            (i.b[8] == 5 && S8(i.b[9]) < limit) ||
            (i.b[10] == 5 && S8(i.b[11]) < limit));
  }

  method PercentsAtMost(i: IItem, limit: int, hitMax: bool, isJs: bool) returns (ok: bool)
    requires i.Valid()
    ensures ok <==> PercentAtMost(SlotAt(i, 0), limit, hitMax, false)
                    && PercentAtMost(SlotAt(i, 1), limit, hitMax, false)
                    && PercentAtMost(SlotAt(i, 2), limit, hitMax, isJs)
  {
    hide S8;
    if i.b[6] != 0 && S8(i.b[7]) > limit {
      if i.b[6] != 5 || !hitMax {
        return false;
      }
    }
    if i.b[8] != 0 && S8(i.b[9]) > limit {
      if i.b[8] != 5 || !hitMax {
        return false;
      }
    }
    if i.b[10] != 0 && S8(i.b[11]) > limit {
      if (i.b[10] != 5 || !hitMax) && !isJs {
        return false;
      }
    }
    return true;
  }

  method PercentsAtLeast(i: IItem, limit: int, hitMin: bool, isJs: bool) returns (ok: bool)
    requires i.Valid()
    ensures ok <==> PercentAtLeast(SlotAt(i, 0), limit, hitMin, false)
                    && PercentAtLeast(SlotAt(i, 1), limit, hitMin, false)
                    && PercentAtLeast(SlotAt(i, 2), limit, hitMin, isJs)
  {
    hide S8;
    if i.b[6] != 0 && S8(i.b[7]) < limit {
      if i.b[6] != 5 || !hitMin {
        return false;
      }
    }
    if i.b[8] != 0 && S8(i.b[9]) < limit {
      if i.b[8] != 5 || !hitMin {
        return false;
      }
    }
    if i.b[10] != 0 && S8(i.b[11]) < limit {
      if (i.b[10] != 5 || !hitMin) && !isJs {
        return false;
      }
    }
    return true;
  }

  predicate AllListed(i: IItem, js: bool, up: Sources, low: Sources)
    requires i.Valid()
  {
    && ListedTests(SlotAt(i, 0), false, up, low)
    && ListedTests(SlotAt(i, 1), false, up, low)
    && ListedTests(SlotAt(i, 2), js, up, low)
  }

  predicate AllDefault(i: IItem, js: bool, up: Sources, low: Sources)
    requires i.Valid()
  {
    && DefaultTests(SlotAt(i, 0), false, up, low)
    && DefaultTests(SlotAt(i, 1), false, up, low)
    && DefaultTests(SlotAt(i, 2), js, up, low)
  }

  predicate AllFives(i: IItem, js: bool)
    requires i.Valid()
  {
    SlotAt(i, 0).value % 5 == 0 && SlotAt(i, 1).value % 5 == 0 && (js || SlotAt(i, 2).value % 5 == 0)
  }

  lemma AllTestsResolve(s: Settings, i: IItem, l: Listing, ver: Word, ic: Word)
    requires i.Valid() && l.Valid()
    ensures var up, low, js := UpperSources(s, l, ver), LowerSources(s, l, ver), IsJSword(ver, ic);
            PercentsLegit(s, i, l, ver, ic) <==>
            KillsLegit(s, i, ver, ic) && AllListed(i, js, up, low) && AllDefault(i, js, up, low) && AllFives(i, js)
  {
    hide ListedTests, DefaultTests, WithinUpper, WithinLower, SlotAt, KillsLegit, UpperSources, LowerSources, IsJSword;
    var up, low, js := UpperSources(s, l, ver), LowerSources(s, l, ver), IsJSword(ver, ic);
    TestsResolve(SlotAt(i, 0), false, up, low);
    TestsResolve(SlotAt(i, 1), false, up, low);
    TestsResolve(SlotAt(i, 2), js, up, low);
  }

  /** The tests against the record that lists the weapon. */
  method CheckListed(i: IItem, w: Entry, isJs: bool, ghost up: Sources, ghost low: Sources)
    returns (ok: bool, hitMax: bool, hitMin: bool, percMax: bool, percMin: bool)
    requires i.Valid() && w.Weapon?
    requires up.hit == Upper(w.maxHit) && up.percent == Upper(w.maxPercents)
    requires low.hit == Lower(w.minHit) && low.percent == Lower(w.minPercents)
    ensures ok <==> AllListed(i, isJs, up, low)
    ensures ok ==> hitMax == up.hit.Some? && hitMin == low.hit.Some?
                   && percMax == up.percent.Some? && percMin == low.percent.Some?
  {
    hide HitAtMost, HitAtLeast, PercentAtMost, PercentAtLeast, SlotAt;
    ok, hitMax, hitMin, percMax, percMin := true, false, false, false, false;
    if w.maxHit != INT_MAX {
      ok := HitsAtMost(i, w.maxHit);
      if !ok {
        return;
      }
      hitMax := true;
    }
    if w.minHit != INT_MIN {
      ok := HitsAtLeast(i, w.minHit);
      if !ok {
        return;
      }
      hitMin := true;
    }
    if w.maxPercents != INT_MAX {
      ok := PercentsAtMost(i, w.maxPercents, hitMax, isJs);
      if !ok {
        return;
      }
      percMax := true;
    }
    if w.minPercents != INT_MIN {
      ok := PercentsAtLeast(i, w.minPercents, hitMin, isJs);
      if !ok {
        return;
      }
      percMin := true;
    }
  }

  /** The tests against the defaults, for the flags the record left unset. */
  method CheckDefaults(i: IItem, d: Defaults, isJs: bool, hitMax0: bool, hitMin0: bool, percMax: bool, percMin: bool,
                       ghost up: Sources, ghost low: Sources) returns (ok: bool)
    requires i.Valid()
    requires up.defaultHit == Upper(d.maxHit) && up.defaultPercent == Upper(d.maxPercent)
    requires low.defaultHit == Lower(d.minHit) && low.defaultPercent == Lower(d.minPercent)
    requires hitMax0 == up.hit.Some? && hitMin0 == low.hit.Some?
    requires percMax == up.percent.Some? && percMin == low.percent.Some?
    ensures ok <==> AllDefault(i, isJs, up, low)
  {
    hide HitAtMost, HitAtLeast, PercentAtMost, PercentAtLeast, SlotAt, S8;
    PercentsUnbounded(i);
    var hitMax, hitMin := hitMax0, hitMin0;
    if !hitMax {
      if d.maxHit != INT_MAX {
        ok := HitsAtMost(i, d.maxHit);
        if !ok {
          return false;
        }
        hitMax := true;
      }
    }
    if !hitMin {
      if d.minHit != INT_MIN {
        ok := HitsAtLeast(i, d.minHit);
        if !ok {
          return false;
        }
        hitMin := true;
      }
    }
    if !percMax {
      ok := PercentsAtMost(i, d.maxPercent, hitMax, isJs);
      if !ok {
        return false;
      }
    }
    if !percMin {
      ok := PercentsAtLeast(i, d.minPercent, hitMin, isJs);
      if !ok {
        return false;
      }
    }
    return true;
  }

  method CheckPercents(s: Settings, i: IItem, l: Listing, ver: Word, ic: Word) returns (ok: bool)
    requires i.Valid() && l.Valid()
    ensures ok <==> PercentsLegit(s, i, l, ver, ic)
  {
    AllTestsResolve(s, i, l, ver, ic);
    hide PercentsLegit, KillsLegit, IsJSword, AllDefault, DefaultsFor, S8;
    ghost var up, low := UpperSources(s, l, ver), LowerSources(s, l, ver);
    var hitMax, hitMin, percMax, percMin := false, false, false, false;
    var isJs;
    ok, isJs := CheckKills(s, i, ver, ic);
    if !ok {
      return false;
    }
    if l.Listed? {
      ok, hitMax, hitMin, percMax, percMin := CheckListed(i, l.w, isJs, up, low);
      if !ok {
        return false;
      }
    }
    ok := CheckDefaults(i, DefaultsFor(s, ver), isJs, hitMax, hitMin, percMax, percMin, up, low);
    if !ok {
      return false;
    }
    if S8(i.b[7]) % 5 != 0 || S8(i.b[9]) % 5 != 0 || (S8(i.b[11]) % 5 != 0 && !isJs) {
      return false;
    }
    return true;
  }

  /** No byte exceeds the unset limits. */
  lemma PercentsUnbounded(i: IItem)
    requires i.Valid()
    ensures forall k: nat, h: bool, e: bool :: k < 3 ==> PercentAtMost(SlotAt(i, k), INT_MAX, h, e)
    ensures forall k: nat, h: bool, e: bool :: k < 3 ==> PercentAtLeast(SlotAt(i, k), INT_MIN, h, e)
  {
  }
}
