/** Item limits: the records read from the limits file and the four lists they go into. */
module Items {
  import opened Words

  const INT_MAX := 0x7FFF_FFFF
  const INT_MIN := -0x8000_0000

  const VERSION_V1: Word := 0x01
  const VERSION_V2: Word := 0x02
  const VERSION_GC: Word := 0x04
  const VERSION_XBOX: Word := 0x08

  // ---------------------------------------------------------------- records

  /** What every record starts with. */
  datatype Common = Common(code: Word, versions: Word, autoReject: bool, rejectMax: bool)

  /** One limits record. A limit of -1 is unset, except where a comment says otherwise. */
  datatype Entry =
    | Weapon(base: Common, maxGrind: int, minGrind: int,
             maxPercents: int, minPercents: int,   // unset: INT_MAX, INT_MIN
             minHit: int, maxHit: int,             // unset: INT_MIN, INT_MAX
             validAttrs: bv64)
    | Frame(base: Common, maxSlots: int, minSlots: int, maxDfp: int, minDfp: int, maxEvp: int, minEvp: int)
    | Barrier(base: Common, maxDfp: int, minDfp: int, maxEvp: int, minEvp: int)
    | Unit(base: Common, maxPlus: int, minPlus: int)   // unset: INT_MIN
    | Mag(base: Common, stats: MagLimits, allowedCpb: Byte, allowedRpb: Byte, allowedLpb: Byte, allowedColors: Word)
    | Tool(base: Common, maxStack: int, minStack: int)

  datatype MagLimits = MagLimits(
    maxLevel: int, minLevel: int, maxDef: int, minDef: int, maxPow: int, minPow: int,
    maxDex: int, minDex: int, maxMind: int, minMind: int,
    maxSynchro: int, minSynchro: int, maxIq: int, minIq: int)

  const UNSET_MAG := MagLimits(-1, -1, -1, -1, -1, -1, -1, -1, -1, -1, -1, -1, -1, -1)

  /** The percent and hit limits that apply to unlisted values in one game version. */
  datatype Defaults = Defaults(minPercent: int, maxPercent: int, minHit: int, maxHit: int)

  const NO_DEFAULTS := Defaults(INT_MIN, INT_MAX, INT_MIN, INT_MAX)

  datatype Settings = Settings(
    defaultBehavior: int, defaultColors: Word, checkSrankNames: bool, checkPbs: bool,
    defaultCpb: Byte, defaultRpb: Byte, defaultLpb: Byte, checkWrap: int, checkJSword: bool,
    v1: Defaults, v2: Defaults, gc: Defaults, xbox: Defaults)

  /** The four lists and the settings, as a value. */
  datatype Lists = Lists(weapons: seq<Entry>, guards: seq<Entry>, mags: seq<Entry>, tools: seq<Entry>)

  class Limits {
    var weapons: seq<Entry>
    var guards: seq<Entry>
    var mags: seq<Entry>
    var tools: seq<Entry>
    var settings: Settings

    /** The empty lists, before any item tag is read. */
    constructor (settings: Settings)
      ensures AllLists() == EMPTY && this.settings == settings
    {
      weapons, guards, mags, tools := [], [], [], [];
      this.settings := settings;
    }

    function AllLists(): Lists
      reads this
    {
      Lists(weapons, guards, mags, tools)
    }
  }

  const EMPTY := Lists([], [], [], [])

  // ---------------------------------------------------------------- kinds and codes

  datatype Kind = WeaponKind | FrameKind | BarrierKind | UnitKind | MagKind | ToolKind | NoKind

  function KindOf(e: Entry): Kind {
    match e
    case Weapon(_, _, _, _, _, _, _, _) => WeaponKind
    case Frame(_, _, _, _, _, _, _) => FrameKind
    case Barrier(_, _, _, _, _) => BarrierKind
    case Unit(_, _, _) => UnitKind
    case Mag(_, _, _, _, _, _) => MagKind
    case Tool(_, _, _) => ToolKind
  }

  /** The kind a code encodes in its two low bytes. */
  function KindOfCode(code: Word): Kind {
    var kind, subtype := code & 0xFF, (code >> 8) & 0xFF;
    if kind == 0 then WeaponKind
    else if kind == 1 then
      if subtype == 1 then FrameKind
      else if subtype == 2 then BarrierKind
      else if subtype == 3 then UnitKind
      else NoKind
    else if kind == 2 then MagKind
    else if kind == 3 then ToolKind
    else NoKind
  }

  /** Which list a kind belongs to. */
  ghost predicate Sorted(l: Lists) {
    && (forall e :: e in l.weapons ==> Tagged(e) && e.Weapon?)
    && (forall e :: e in l.guards ==> Tagged(e) && (e.Frame? || e.Barrier? || e.Unit?))
    && (forall e :: e in l.mags ==> Tagged(e) && e.Mag?)
    && (forall e :: e in l.tools ==> Tagged(e) && e.Tool?)
  }

  /** The record's kind is the one its code encodes. */
  predicate Tagged(e: Entry) {
    KindOf(e) == KindOfCode(e.base.code)
  }

  // ---------------------------------------------------------------- reading one item tag

  function Swapped(code: Word): Word {
    ((code >> 24) & 0xFF) | ((code >> 8) & 0xFF00) | ((code & 0xFF00) << 8) | ((code & 0xFF) << 24)
  }

  /** What the parsers of an item's child tags leave in its record, and whether they succeed.
      They set limits and flags, never the code or the kind of record. */
  type Parser = Entry -> (Entry, bool)

  ghost predicate Faithful(parse: Parser) {
    forall e: Entry :: KeepsIdentity(e, parse(e).0)
  }

  predicate KeepsIdentity(e: Entry, f: Entry) {
    KindOf(f) == KindOf(e) && f.base.code == e.base.code
  }

  function FreshBase(code: Word): Common {
    Common(code, 0, false, false)
  }

  /** The record as it is before its child tags are read. */
  function FreshEntry(kind: Kind, code: Word, s: Settings): (e: Entry)
    requires kind != NoKind
    ensures KindOf(e) == kind && e.base.code == code
  {
    var base := FreshBase(code);
    match kind
    case WeaponKind => Weapon(base, -1, -1, INT_MAX, INT_MIN, INT_MIN, INT_MAX, 0x1FFFFFFFFFF)
    case FrameKind => Frame(base, -1, -1, -1, -1, -1, -1)
    case BarrierKind => Barrier(base, -1, -1, -1, -1)
    case UnitKind => Unit(base, INT_MIN, INT_MIN)
    case MagKind => Mag(base, UNSET_MAG, s.defaultCpb, s.defaultRpb, s.defaultLpb, s.defaultColors)
    case ToolKind => Tool(base, -1, -1)
  }

  /** The lists after one item tag. Weapons, mags and tools are listed before their child tags
      are read, so a record whose children fail stays listed; a failing guard is never listed. */
  function Handled(l: Lists, s: Settings, code0: Word, swap: bool, parse: Parser): (r: (Lists, int)) {
    var code := if swap then Swapped(code0) else code0;
    var kind := KindOfCode(code);
    if kind == NoKind then (l, if code & 0xFF == 1 then -11 else -16) else
      var (e, ok) := parse(FreshEntry(kind, code, s));
      match kind
      case WeaponKind => (l.(weapons := l.weapons + [e]), if ok then 0 else -4)
      case FrameKind => if ok then (l.(guards := l.guards + [e]), 0) else (l, -6)
      case BarrierKind => if ok then (l.(guards := l.guards + [e]), 0) else (l, -8)
      case UnitKind => if ok then (l.(guards := l.guards + [e]), 0) else (l, -10)
      case MagKind => (l.(mags := l.mags + [e]), if ok then 0 else -13)
      case ToolKind => (l.(tools := l.tools + [e]), if ok then 0 else -15)
  }

  method HandleItem(l: Limits, code0: Word, swap: bool, parse: Parser) returns (rc: int)
    modifies l
    ensures (l.AllLists(), rc) == Handled(old(l.AllLists()), old(l.settings), code0, swap, parse)
    ensures l.settings == old(l.settings)
  {
    var code := code0;
    if swap {
      code := Swapped(code);
    }
    hide Swapped;
    var type0, subtype := code & 0xFF, (code >> 8) & 0xFF;
    if type0 == 0 {
      var w := FreshEntry(WeaponKind, code, l.settings);
      var (e, ok) := parse(w);
      l.weapons := l.weapons + [e];
      if !ok {
        return -4;
      }
    } else if type0 == 1 {
      if subtype == 1 {
        var (e, ok) := parse(FreshEntry(FrameKind, code, l.settings));
        if !ok {
          return -6;
        }
        l.guards := l.guards + [e];
      } else if subtype == 2 {
        var (e, ok) := parse(FreshEntry(BarrierKind, code, l.settings));
        if !ok {
          return -8;
        }
        l.guards := l.guards + [e];
      } else if subtype == 3 {
        var (e, ok) := parse(FreshEntry(UnitKind, code, l.settings));
        if !ok {
          return -10;
        }
        l.guards := l.guards + [e];
      } else {
        return -11;
      }
    } else if type0 == 2 {
      var (e, ok) := parse(FreshEntry(MagKind, code, l.settings));
      l.mags := l.mags + [e];
      if !ok {
        return -13;
      }
    } else if type0 == 3 {
      var (e, ok) := parse(FreshEntry(ToolKind, code, l.settings));
      l.tools := l.tools + [e];
      if !ok {
        return -15;
      }
    } else {
      return -16;
    }
    return 0;
  }

  // ---------------------------------------------------------------- every reachable list

  datatype Tag = Tag(code: Word, swap: bool, parse: Parser)

  /** The lists after any sequence of item tags, whatever each returned. */
  function Read(s: Settings, tags: seq<Tag>): Lists {
    if tags == [] then EMPTY else
      var t := tags[|tags| - 1];
      Handled(Read(s, tags[..|tags| - 1]), s, t.code, t.swap, t.parse).0
  }

  lemma HandledKeepsSorted(l: Lists, s: Settings, code: Word, swap: bool, parse: Parser)
    requires Sorted(l) && Faithful(parse)
    ensures Sorted(Handled(l, s, code, swap, parse).0)
  {
    var c := if swap then Swapped(code) else code;
    hide Swapped, KindOfCode, FreshEntry;
    if KindOfCode(c) != NoKind {
      var blank := FreshEntry(KindOfCode(c), c, s);
      assert KeepsIdentity(blank, parse(blank).0);
    }
  }

  /** Every list any sequence of item tags can build holds only records whose kind is the one
      their code encodes, each in the list of its kind. */
  lemma {:induction false} ReadIsSorted(s: Settings, tags: seq<Tag>)
    requires forall t :: t in tags ==> Faithful(t.parse)
    ensures Sorted(Read(s, tags))
  {
    hide Handled, Faithful;
    if tags == [] {
    } else {
      var n := |tags| - 1;
      assert tags[n] in tags;
      ReadIsSorted(s, tags[..n]);
      HandledKeepsSorted(Read(s, tags[..n]), s, tags[n].code, tags[n].swap, tags[n].parse);
    }
  }
}
