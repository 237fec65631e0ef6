/** Which record of the limits file ends up where, and which one decides. */
module ItemLists {
  import opened Words
  import opened Items
  import opened ItemPercents
  import opened MagBlasts
  import opened ItemChecks
  import opened ItemBytes

  // ---------------------------------------------------------------- codes

  /** Swapping reverses the four bytes, so it undoes itself. */
  lemma SwappedReverses(code: Word)
    ensures ToBytes(Swapped(code)) == [ByteOf(code, 3), ByteOf(code, 2), ByteOf(code, 1), ByteOf(code, 0)]
    ensures Swapped(Swapped(code)) == code
  {
    hide Swapped, Lane0, Lane1, Lane2, Lane3;
    SwappedLane0(code);
    SwappedLane1(code);
    SwappedLane2(code);
    SwappedLane3(code);
    SwappedTwice(code);
  }

  lemma SwappedLane0(code: Word)
    ensures Lane0(Swapped(code)) == Lane3(code)
  {
  }

  lemma SwappedLane1(code: Word)
    ensures Lane1(Swapped(code)) == Lane2(code)
  {
  }

  lemma SwappedLane2(code: Word)
    ensures Lane2(Swapped(code)) == Lane1(code)
  {
  }

  lemma SwappedLane3(code: Word)
    ensures Lane3(Swapped(code)) == Lane0(code)
  {
  }

  lemma SwappedTwice(code: Word)
    ensures Swapped(Swapped(code)) == code
  {
    hide Swapped, FromBytes, Lane0, Lane1, Lane2, Lane3;
    var c := Swapped(code);
    SwappedLane0(code);
    SwappedLane1(code);
    SwappedLane2(code);
    SwappedLane3(code);
    SwappedLane0(c);
    SwappedLane1(c);
    SwappedLane2(c);
    SwappedLane3(c);
    LoadOfBytes(code);
    LoadOfBytes(Swapped(c));
  }

  /** The code of a tag as the lists hold it: its bytes reversed when the file asks for that. */
  function CodeOf(t: Tag): Word {
    if t.swap then FromBytes(ByteOf(t.code, 3), ByteOf(t.code, 2), ByteOf(t.code, 1), ByteOf(t.code, 0)) else t.code
  }

  lemma CodeIsSwapped(t: Tag)
    ensures CodeOf(t) == if t.swap then Swapped(t.code) else t.code
  {
    hide Swapped, FromBytes, Lane0, Lane1, Lane2, Lane3;
    SwappedLane0(t.code);
    SwappedLane1(t.code);
    SwappedLane2(t.code);
    SwappedLane3(t.code);
    LoadOfBytes(Swapped(t.code));
  }

  /** The low byte of a code is its type: 0 weapons, 1 guards, 2 mags, 3 tools; the next byte
      tells frames, barriers and units apart. */
  lemma KindByBytes(code: Word)
    ensures KindOfCode(code)
         == if ByteOf(code, 0) == 0 then WeaponKind
            else if ByteOf(code, 0) == 1 && ByteOf(code, 1) == 1 then FrameKind
            else if ByteOf(code, 0) == 1 && ByteOf(code, 1) == 2 then BarrierKind
            else if ByteOf(code, 0) == 1 && ByteOf(code, 1) == 3 then UnitKind
            else if ByteOf(code, 0) == 2 then MagKind
            else if ByteOf(code, 0) == 3 then ToolKind
            else NoKind
  {
    LowLane(code);
    NextLane(code);
    hide Lane0, Lane1;
  }

  lemma LowLane(code: Word)
    ensures code & 0xFF == Lane0(code) as Word
  {
  }

  lemma NextLane(code: Word)
    ensures (code >> 8) & 0xFF == Lane1(code) as Word
  {
  }

  // ---------------------------------------------------------------- what each list holds

  /** The record a tag leaves: what its parser makes of an empty record of its kind. */
  function RecordOf(s: Settings, t: Tag): Entry
    requires KindOfCode(CodeOf(t)) != NoKind
  {
    t.parse(FreshEntry(KindOfCode(CodeOf(t)), CodeOf(t), s)).0
  }

  /** The tag of type b leaves a record: its kind is known and, for a guard, its parser succeeds. */
  predicate LeavesRecord(s: Settings, t: Tag, b: Byte) {
    && ByteOf(CodeOf(t), 0) == b && KindOfCode(CodeOf(t)) != NoKind
    && (b == 1 ==> t.parse(FreshEntry(KindOfCode(CodeOf(t)), CodeOf(t), s)).1)
  }

  /** list holds, in tag order, the records of exactly the tags of type b that leave one; at[j] is
      the tag of record j. */
  ghost predicate InTagOrder(list: seq<Entry>, s: Settings, tags: seq<Tag>, b: Byte, at: seq<nat>) {
    && |at| == |list|
    && (forall j :: 0 <= j < |at| ==> FromTag(list[j], s, tags, b, at[j]))
    && (forall j, k :: 0 <= j < k < |at| ==> at[j] < at[k])
    && (forall i: nat :: i < |tags| && LeavesRecord(s, tags[i], b) ==> i in at)
  }

  predicate FromTag(e: Entry, s: Settings, tags: seq<Tag>, b: Byte, i: nat) {
    i < |tags| && LeavesRecord(s, tags[i], b) && e == RecordOf(s, tags[i])
  }

  /** The list for items of type b. */
  function ListOf(l: Lists, b: Byte): seq<Entry> {
    if b == 0 then l.weapons else if b == 1 then l.guards else if b == 2 then l.mags else if b == 3 then l.tools else []
  }

  /** After any item tags, each of the four lists is in tag order. */
  lemma {:induction false} ReadInOrder(s: Settings, tags: seq<Tag>, b: Byte) returns (at: seq<nat>)
    requires b < 4
    ensures InTagOrder(ListOf(Read(s, tags), b), s, tags, b, at)
  {
    hide Handled, InTagOrder, LeavesRecord, RecordOf;
    if tags == [] {
      at := [];
      EmptyInOrder(s, b);
    } else {
      var n := |tags| - 1;
      at := ReadInOrder(s, tags[..n], b);
      HandledAppends(Read(s, tags[..n]), s, tags[n], b);
      assert tags == tags[..n] + [tags[n]];
      var list := ListOf(Read(s, tags[..n]), b);
      if LeavesRecord(s, tags[n], b) {
        AnotherInOrder(list, s, tags[..n], tags[n], b, at);
        at := at + [n];
      } else {
        SameInOrder(list, s, tags[..n], tags[n], b, at);
      }
    }
  }

  lemma EmptyInOrder(s: Settings, b: Byte)
    ensures InTagOrder(ListOf(EMPTY, b), s, [], b, [])
  {
  }

  /** One tag: the list of its type gains its record at the end, or nothing changes. */
  lemma HandledAppends(l: Lists, s: Settings, t: Tag, b: Byte)
    requires b < 4
    ensures ListOf(Handled(l, s, t.code, t.swap, t.parse).0, b)
         == if LeavesRecord(s, t, b) then ListOf(l, b) + [RecordOf(s, t)] else ListOf(l, b)
  {
    hide CodeOf, Swapped, KindOfCode, Lane0, Lane1, Lane2, Lane3, FreshEntry;
    CodeIsSwapped(t);
    KindByBytes(CodeOf(t));
  }

  lemma AnotherInOrder(list: seq<Entry>, s: Settings, tags: seq<Tag>, t: Tag, b: Byte, at: seq<nat>)
    requires InTagOrder(list, s, tags, b, at) && LeavesRecord(s, t, b)
    ensures InTagOrder(list + [RecordOf(s, t)], s, tags + [t], b, at + [|tags|])
  {
    hide CodeOf, KindOfCode, FreshEntry, Lane0;
    var at', list' := at + [|tags|], list + [RecordOf(s, t)];
    forall j | 0 <= j < |at'|
      ensures FromTag(list'[j], s, tags + [t], b, at'[j])
    {
      if j < |at| {
        assert FromTag(list[j], s, tags, b, at[j]);
      }
    }
    forall i: nat | i < |tags + [t]| && LeavesRecord(s, (tags + [t])[i], b)
      ensures i in at'
    {
      if i < |tags| {
        assert LeavesRecord(s, tags[i], b);
        assert i in at;
        InFront(at, [|tags|], i);
      } else {
        assert at'[|at|] == i;
      }
    }
    forall j, k | 0 <= j < k < |at'|
      ensures at'[j] < at'[k]
    {
      assert FromTag(list[j], s, tags, b, at[j]);
    }
  }

  lemma InFront(a: seq<nat>, b: seq<nat>, i: nat)
    requires i in a
    ensures i in a + b
  {
    var j :| 0 <= j < |a| && a[j] == i;
    assert (a + b)[j] == i;
  }

  lemma SameInOrder(list: seq<Entry>, s: Settings, tags: seq<Tag>, t: Tag, b: Byte, at: seq<nat>)
    requires InTagOrder(list, s, tags, b, at) && !LeavesRecord(s, t, b)
    ensures InTagOrder(list, s, tags + [t], b, at)
  {
    hide LeavesRecord, RecordOf;
    forall j | 0 <= j < |at|
      ensures FromTag(list[j], s, tags + [t], b, at[j])
    {
      assert FromTag(list[j], s, tags, b, at[j]);
    }
    forall i: nat | i < |tags + [t]| && LeavesRecord(s, (tags + [t])[i], b)
      ensures i in at
    {
      if i < |tags| {
        assert LeavesRecord(s, tags[i], b);
      }
    }
  }

  // ---------------------------------------------------------------- the earliest tag decides

  /** Of all tags of the item's type, the earliest whose record has the item's code and covers
      its version decides, whatever the other tags. */
  lemma EarliestTagDecides(s: Settings, tags: seq<Tag>, n: nat, i: IItem, version: Word)
    requires i.Valid() && i.b[0] < 4 && n < |tags| && LeavesRecord(s, tags[n], i.b[0])
    requires Matches(RecordOf(s, tags[n]), NormalCode(i, version), version)
    requires forall m: nat :: m < n && LeavesRecord(s, tags[m], i.b[0]) ==>
               !Matches(RecordOf(s, tags[m]), NormalCode(i, version), version)
    ensures var list := BucketOf(Read(s, tags), i);
            && (Defined(list, s, i, version) <==> Defined([RecordOf(s, tags[n])], s, i, version))
            && (Defined(list, s, i, version) ==>
                  Verdict(list, s, i, version) == Verdict([RecordOf(s, tags[n])], s, i, version))
  {
    var list, x := ListOf(Read(s, tags), i.b[0]), RecordOf(s, tags[n]);
    hide Read, Verdict, Defined, Matches, NormalCode, LeavesRecord, RecordOf;
    assert list == BucketOf(Read(s, tags), i);
    var at := ReadInOrder(s, tags, i.b[0]);
    var j := PlaceOf(list, s, tags, i.b[0], at, n);
    NoneBefore(list, s, tags, i.b[0], at, j, NormalCode(i, version), version);
    hide InTagOrder;
    FirstMatchAt(list, j, s, i, version);
  }

  /** The first match of a list decides. */
  lemma FirstMatchAt(list: seq<Entry>, j: nat, s: Settings, i: IItem, version: Word)
    requires i.Valid() && j < |list| && Matches(list[j], NormalCode(i, version), version)
    requires forall e :: e in list[..j] ==> !Matches(e, NormalCode(i, version), version)
    ensures Defined(list, s, i, version) <==> Defined([list[j]], s, i, version)
    ensures Defined(list, s, i, version) ==> Verdict(list, s, i, version) == Verdict([list[j]], s, i, version)
  {
    hide Verdict, Defined, Matches, NormalCode;
    FirstMatchDecides(list[..j], list[j], list[j + 1..], s, i, version);
    assert list == list[..j] + [list[j]] + list[j + 1..];
  }

  lemma NoneBefore(list: seq<Entry>, s: Settings, tags: seq<Tag>, b: Byte, at: seq<nat>, j: nat,
                   ic: Word, version: Word)
    requires InTagOrder(list, s, tags, b, at) && j < |at|
    requires forall m: nat :: m < at[j] && m < |tags| && LeavesRecord(s, tags[m], b) ==>
               !Matches(RecordOf(s, tags[m]), ic, version)
    ensures forall e :: e in list[..j] ==> !Matches(e, ic, version)
  {
    hide LeavesRecord, RecordOf, Matches;
    forall e | e in list[..j]
      ensures !Matches(e, ic, version)
    {
      var k: nat :| k < j && list[..j][k] == e;
      assert FromTag(list[k], s, tags, b, at[k]) && at[k] < at[j];
    }
  }

  lemma PlaceOf(list: seq<Entry>, s: Settings, tags: seq<Tag>, b: Byte, at: seq<nat>, n: nat) returns (j: nat)
    requires InTagOrder(list, s, tags, b, at) && n < |tags| && LeavesRecord(s, tags[n], b)
    ensures j < |at| == |list| && at[j] == n && list[j] == RecordOf(s, tags[n])
  {
    hide LeavesRecord, RecordOf;
    assert n in at;
    j :| j < |at| && at[j] == n;
    assert FromTag(list[j], s, tags, b, at[j]);
  }

  // ---------------------------------------------------------------- return codes and empty records

  /** A tag succeeds exactly when its kind is known and its parser succeeds; otherwise the code
      tells the kind of failure. */
  lemma HandledCode(l: Lists, s: Settings, t: Tag)
    ensures var rc, kind := Handled(l, s, t.code, t.swap, t.parse).1, KindOfCode(CodeOf(t));
            rc == if kind == NoKind then (if ByteOf(CodeOf(t), 0) == 1 then -11 else -16)
                  else if t.parse(FreshEntry(kind, CodeOf(t), s)).1 then 0
                  else match kind
                    case WeaponKind => -4
                    case FrameKind => -6
                    case BarrierKind => -8
                    case UnitKind => -10
                    case MagKind => -13
                    case ToolKind => -15
  {
    hide CodeOf, Swapped, KindOfCode, Lane0, FreshEntry;
    CodeIsSwapped(t);
    LowLane(CodeOf(t));
  }

  /** A record whose tag sets nothing limits nothing: no stack, slot, defence, evasion, plus, grind
      or statistic is out of its range, no hit or percent limit is set, every attribute the
      game has is allowed, and a mag may have the default blasts and colours. */
  lemma FreshLimitsNothing(kind: Kind, code: Word, s: Settings, i: IItem, version: Word, m: MagReading, n: int)
    requires kind != NoKind && i.Valid() && 0 <= n < 31
    ensures var e := FreshEntry(kind, code, s);
            && !e.base.autoReject && !e.base.rejectMax && e.base.versions == 0
            && (e.Tool? ==> ToolLegit(e, i))
            && (e.Unit? ==> GuardLegit(s, e, i, version))
            && (e.Frame? || e.Barrier? ==> (GuardLegit(s, e, i, version) <==> GuardWrapLegit(s, i, version)))
            && (e.Mag? ==> StatsLegit(e.stats, m) && e.allowedColors == s.defaultColors
                           && (e.allowedCpb, e.allowedRpb, e.allowedLpb) == (s.defaultCpb, s.defaultRpb, s.defaultLpb))
            && (e.Weapon? ==> InRange(n, e.minGrind, e.maxGrind) && HasAttribute(e.validAttrs, n)
                              && e.validAttrs == 0x1FFFFFFFFFF
                              && UpperSources(s, Listed(e), version) == UpperSources(s, Unlisted, version)
                              && LowerSources(s, Listed(e), version) == LowerSources(s, Unlisted, version))
  {
    hide GuardWrapLegit, Pair, S16, DefaultsFor, HasAttribute;
    AllAttributes(n);
  }

  lemma AllAttributes(n: int)
    requires 0 <= n < 31
    ensures HasAttribute(0x1FFFFFFFFFF, n)
  {
    hide HasAttribute;
    HasAttributeIsBit(0x1FFFFFFFFFF, n);
    LowAttributes();
    OnesBits(n);
  }

  lemma LowAttributes()
    ensures ((0x1FFFFFFFFFF as bv64) & 0xFFFF_FFFF) as Word == 0xFFFF_FFFF
  {
  }
}
