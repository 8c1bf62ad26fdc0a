/**
 Messages by the names of their properties. A list of properties, each with its field number, wire type, type
 and default, says what every short input decodes to and what every message with one property set encodes to,
 without the tables that do it.
 */
module Properties {
  import opened Wire
  import opened Codec
  import opened Streams
  import opened RoundTrip
  import opened Decoded
  import opened Reencoded
  import opened Fields

  /** `wire` is the wire type of a single value; a packed list has wire type 2 besides. */
  datatype Property = Property(name: string, number: nat, wire: nat, kind: Kind, rule: Rule)

  function Initial(p: Property): Slot {
    match p.rule
    case Implicit(default) => Slot([default])
    case _ => Slot([])
  }

  /** The message `createBase` returns. */
  function Initials(ps: seq<Property>): (m: Msg)
    ensures |m.slots| == |ps|
  {
    Msg(seq(|ps|, i requires 0 <= i < |ps| => Initial(ps[i])))
  }

  predicate IsList(p: Property) {
    p.rule.Repeated? || p.rule.Packed?
  }

  predicate IsTagOf(tag: nat, p: Property) {
    tag == 8 * p.number + p.wire || (IsList(p) && p.kind == KInt32 && tag == 8 * p.number + 2)
  }

  function RowOf(p: Property): Row {
    Row(8 * p.number + (if p.rule.Packed? then 2 else p.wire), p.kind, p.rule)
  }

  function Rows(ps: seq<Property>): (rows: seq<Row>)
    ensures |rows| == |ps|
  {
    seq(|ps|, i requires 0 <= i < |ps| => RowOf(ps[i]))
  }

  /** An arm reads a record of the property its row writes. */
  predicate TagFits(plan: seq<Row>, tag: nat, arm: Arm) {
    && arm.slot < |plan|
    && var row := plan[arm.slot];
       tag == row.tag
       || ((row.rule.Repeated? || row.rule.Packed?) && row.kind == KInt32 && tag / 8 == row.tag / 8
           && (tag % 8 == 0 || tag % 8 == 2))
  }

  /** An integer list is read one by one and packed. */
  predicate ReadsBoth(arms: map<nat, Arm>, p: Property, i: nat) {
    IsList(p) && p.kind == KInt32 ==>
      && p.wire == 0
      && 8 * p.number in arms && arms[8 * p.number] == Arm(i, KInt32, Push)
      && 8 * p.number + 2 in arms && arms[8 * p.number + 2] == Arm(i, KInt32, PushPacked)
  }

  /** The table writes these properties in this order, and reads no others. */
  predicate Described(s: Schema, ps: seq<Property>) {
    && s.plan == Rows(ps)
    && (forall tag | tag in s.arms :: TagFits(s.plan, tag, s.arms[tag]))
    && (forall i | 0 <= i < |ps| :: ReadsBoth(s.arms, ps[i], i))
  }

  /** One value of a property on the wire. */
  function Record(g: Grammar, p: Property, v: Val): bytes
    requires GrammarOk(g) && KindOk(g, p.kind) && ValidVal(g, p.kind, v)
  {
    Varint(8 * p.number + p.wire) + Payload(g, p.kind, v)
  }

  /** The message `createBase` returns, but for one value in one property. */
  function With(ps: seq<Property>, i: nat, v: Val): (m: Msg)
    requires i < |ps|
    ensures |m.slots| == |ps|
  {
    Msg(Initials(ps).slots[i := Slot([v])])
  }

  /** What packed properties write when their lists are empty: a tag and the length zero. */
  function EmptyLists(ps: seq<Property>, lo: nat, hi: nat): bytes
    requires lo <= hi <= |ps|
  {
    if lo == hi then []
    else EmptyLists(ps, lo, hi - 1) + if ps[hi - 1].rule.Packed? then Varint(8 * ps[hi - 1].number + 2) + [0] else []
  }

  /** What a property with one value writes: nothing for its default, or a double equal to its default. */
  function OneValue(g: Grammar, p: Property, v: Val): bytes
    requires GrammarOk(g) && KindOk(g, p.kind) && ValidVal(g, p.kind, v)
  {
    match p.rule
    case Implicit(default) =>
      if v == default || (p.kind == KDouble && (v == Fixed(PLUS_ZERO) || v == Fixed(MINUS_ZERO))) then []
      else Record(g, p, v)
    case Explicit => Record(g, p, v)
    case Repeated => Record(g, p, v)
    case Packed => Varint(8 * p.number + 2) + LengthPrefixed(Payload(g, p.kind, v))
  }

  // ---------------------------------------------------------------- what a table should do with its properties

  /** The record of one value of one property, decoded alone, gives the message `createBase` returns with that
      value in that property. */
  ghost predicate ReadsAlone(g: Grammar, t: nat, ps: seq<Property>, i: nat, v: Val)
    requires GrammarOk(g) && t < |g| && i < |ps| && KindOk(g, ps[i].kind) && ValidVal(g, ps[i].kind, v)
  {
    var c := Record(g, ps[i], v);
    Decode(g, t, c, 0, |c|) == Got(With(ps, i, NormVal(g, ps[i].kind, v)), |c|)
  }

  /** That message with one value encodes to that value's record, or to nothing for the default, among the
      empty records of packed lists. */
  ghost predicate WritesAlone(g: Grammar, t: nat, ps: seq<Property>, i: nat, v: Val)
    requires GrammarOk(g) && t < |g| && i < |ps| && KindOk(g, ps[i].kind) && ValidVal(g, ps[i].kind, v)
  {
    && ValidMsg(g, t, With(ps, i, v))
    && Encode(g, t, With(ps, i, v)) == EmptyLists(ps, 0, i) + OneValue(g, ps[i], v) + EmptyLists(ps, i + 1, |ps|)
  }

  /** All values of an integer list in one record of wire type 2 decode alone to that list. */
  ghost predicate ReadsPacked(g: Grammar, t: nat, ps: seq<Property>, i: nat, ints: seq<int>)
    requires GrammarOk(g) && t < |g| && i < |ps|
  {
    IsList(ps[i]) && ps[i].kind == KInt32 && Int32s(ints) && |PackedBytes(Ints(ints))| < TWO_32 ==>
      var c := Varint(8 * ps[i].number + 2) + LengthPrefixed(PackedBytes(Ints(ints)));
      Decode(g, t, c, 0, |c|) == Got(Msg(Initials(ps).slots[i := IntsSlot(ints)]), |c|)
  }

  /** A tag of no property, by its number or by its wire type, ends the message or is skipped. */
  ghost predicate PassesOver(g: Grammar, t: nat, ps: seq<Property>, tag: nat, buf: bytes, pos: nat)
    requires GrammarOk(g) && t < |g| && pos <= |buf|
  {
    (forall i | 0 <= i < |ps| :: !IsTagOf(tag, ps[i])) ==>
      AfterTag(g, t, tag, buf, pos)
        == if tag % 8 == 4 || tag == 0 then Stop(pos)
           else if Skip(buf, pos, tag % 8, None).Got? then Next(Nop, Skip(buf, pos, tag % 8, None).pos)
           else Throw
  }

  /** Every property is read and written by its own number, and nothing else is. */
  ghost predicate HasProperties(g: Grammar, t: nat, ps: seq<Property>)
    requires GrammarOk(g) && t < |g|
  {
    && Decode(g, t, [], 0, 0) == Got(Initials(ps), 0)
    && (forall i: nat, v: Val | i < |ps| && KindOk(g, ps[i].kind) && ValidVal(g, ps[i].kind, v) ::
          ReadsAlone(g, t, ps, i, v) && WritesAlone(g, t, ps, i, v))
    && (forall i: nat, ints: seq<int> | i < |ps| :: ReadsPacked(g, t, ps, i, ints))
    && (forall tag: nat, buf: bytes, pos: nat | pos <= |buf| :: PassesOver(g, t, ps, tag, buf, pos))
  }

  // ---------------------------------------------------------------- decoding

  lemma {:induction false} RowIs(g: Grammar, t: nat, ps: seq<Property>, i: nat)
    requires GrammarOk(g) && t < |g| && Described(g[t], ps) && i < |ps|
    ensures |g[t].plan| == |ps| == |g[t].base.slots| && g[t].plan[i] == RowOf(ps[i]) && RowOk(g, g[t], i)
    ensures KindOk(g, ps[i].kind) && g[t].base.slots[i] == Initial(ps[i])
    ensures ps[i].rule.Implicit? ==> ScalarOk(ps[i].kind, ps[i].rule.default)
    ensures ps[i].rule.Packed? ==> ps[i].kind == KInt32
  {
    assert g[t].plan[i] == Rows(ps)[i];
    assert RowOk(g, g[t], i);
  }

  lemma {:induction false} BaseIsInitials(g: Grammar, t: nat, ps: seq<Property>)
    requires GrammarOk(g) && t < |g| && Described(g[t], ps)
    ensures g[t].base == Initials(ps)
  {
    assert |g[t].base.slots| == |g[t].plan| == |ps|;
    hide GrammarOk, Described, RowOk, ScalarOk, KindOk, Initial;
    forall i | 0 <= i < |ps| ensures g[t].base.slots[i] == Initials(ps).slots[i] {
      RowIs(g, t, ps, i);
    }
    SameSlots(g[t].base, Initials(ps));
  }

  /** No bytes decode to the message `createBase` returns. */
  lemma {:induction false} NothingDecodes(g: Grammar, t: nat, ps: seq<Property>)
    requires GrammarOk(g) && t < |g| && Described(g[t], ps)
    ensures Decode(g, t, [], 0, 0) == Got(Initials(ps), 0)
  {
    BaseIsInitials(g, t, ps);
    hide Described;
  }

  lemma {:induction false} OneRecordDecodes(g: Grammar, t: nat, c: bytes, e: Effect)
    requires GrammarOk(g) && t < |g| && IsRecord(g, t, c, e)
    ensures EffectOk(e, |g[t].base.slots|)
    ensures Decode(g, t, c, 0, |c|) == Got(Apply(g[t].base, e), |c|)
  {
    DecodeStream(g, t, [c], [e]);
    FlatOne(c);
    assert [e][1..] == [] && e in [e];
  }

  lemma {:induction false} ArmIs(g: Grammar, t: nat, ps: seq<Property>, i: nat)
    requires GrammarOk(g) && t < |g| && Described(g[t], ps) && i < |ps|
    ensures var p, arms := ps[i], g[t].arms;
      && 8 * p.number + p.wire < TWO_32 && KindOk(g, p.kind)
      && 8 * p.number + p.wire in arms
      && arms[8 * p.number + p.wire] == Arm(i, p.kind, if IsList(p) then Push else Assign)
      && (IsList(p) && p.kind == KInt32 ==>
            && 8 * p.number + 2 < TWO_32 && 8 * p.number + 2 in arms
            && arms[8 * p.number + 2] == Arm(i, KInt32, PushPacked))
  {
    RowIs(g, t, ps, i);
    assert ReadsBoth(g[t].arms, ps[i], i);
    assert RowOf(ps[i]).tag % 8 == WireType(RowOf(ps[i]));
    hide GrammarOk, Described, ScalarOk, KindOk;
  }

  lemma {:induction false} ValueRecord(g: Grammar, t: nat, ps: seq<Property>, i: nat, v: Val)
    requires GrammarOk(g) && t < |g| && Described(g[t], ps) && i < |ps|
    requires KindOk(g, ps[i].kind) && ValidVal(g, ps[i].kind, v)
    ensures var n := NormVal(g, ps[i].kind, v);
      IsRecord(g, t, Record(g, ps[i], v), if IsList(ps[i]) then Add(i, [n]) else Set(i, n))
  {
    var p, n := ps[i], NormVal(g, ps[i].kind, v);
    ArmIs(g, t, ps, i);
    PayloadReads(g, p.kind, v);
    hide GrammarOk, Described, ReadValue, Payload, NormVal, ValidVal, Varint, IsRecord;
    TaggedRecord(g, t, 8 * p.number + p.wire, Payload(g, p.kind, v), if IsList(p) then Add(i, [n]) else Set(i, n));
  }

  lemma {:induction false} PropertyDecodes(g: Grammar, t: nat, ps: seq<Property>, i: nat, v: Val)
    requires GrammarOk(g) && t < |g| && Described(g[t], ps) && i < |ps|
    requires KindOk(g, ps[i].kind) && ValidVal(g, ps[i].kind, v)
    ensures ReadsAlone(g, t, ps, i, v)
  {
    ValueRecord(g, t, ps, i, v);
    BaseIsInitials(g, t, ps);
    var n := NormVal(g, ps[i].kind, v);
    OneRecordDecodes(g, t, Record(g, ps[i], v), if IsList(ps[i]) then Add(i, [n]) else Set(i, n));
    hide GrammarOk, Described, NormVal, Record, IsRecord, ValidVal;
    assert Slot([] + [n]) == Slot([n]);
  }

  lemma {:induction false} IntsAreScalars(ints: seq<int>)
    requires Int32s(ints)
    ensures forall v | v in Ints(ints) :: ScalarOk(KInt32, v)
  {
    forall v | v in Ints(ints) ensures ScalarOk(KInt32, v) {
      var j :| 0 <= j < |ints| && v == Int(ints[j]);
      assert ints[j] in ints;
    }
  }

  lemma {:induction false} PackedPropertyDecodes(g: Grammar, t: nat, ps: seq<Property>, i: nat, ints: seq<int>)
    requires GrammarOk(g) && t < |g| && Described(g[t], ps) && i < |ps|
    requires IsList(ps[i]) && ps[i].kind == KInt32 && Int32s(ints) && |PackedBytes(Ints(ints))| < TWO_32
    ensures ReadsPacked(g, t, ps, i, ints)
  {
    var p, tag := ps[i], 8 * ps[i].number + 2;
    ArmIs(g, t, ps, i);
    BaseIsInitials(g, t, ps);
    IntsAreScalars(ints);
    assert ArmOk(g, g[t], g[t].arms[tag]);
    hide GrammarOk, Described, RowOk, ScalarOk, KindOk, ArmOk, Initials, IsRecord, Decode, PackedBytes, Varint, LengthPrefixed, Int32s;
    PackedRecord(g, t, tag, Ints(ints));
    OneRecordDecodes(g, t, Varint(tag) + LengthPrefixed(PackedBytes(Ints(ints))), Add(i, Ints(ints)));
    assert [] + Ints(ints) == Ints(ints);
  }

  lemma {:induction false} PackedReadsIf(g: Grammar, t: nat, ps: seq<Property>, i: nat, ints: seq<int>)
    requires GrammarOk(g) && t < |g| && Described(g[t], ps) && i < |ps|
    ensures ReadsPacked(g, t, ps, i, ints)
  {
    hide GrammarOk, Described, PackedBytes, Varint, LengthPrefixed, Initials, Decode;
    if IsList(ps[i]) && ps[i].kind == KInt32 && Int32s(ints) && |PackedBytes(Ints(ints))| < TWO_32 {
      PackedPropertyDecodes(g, t, ps, i, ints);
    }
  }

  lemma {:induction false} TagIs(g: Grammar, t: nat, ps: seq<Property>, tag: nat)
    requires GrammarOk(g) && t < |g| && Described(g[t], ps) && tag in g[t].arms
    ensures g[t].arms[tag].slot < |ps| && IsTagOf(tag, ps[g[t].arms[tag].slot])
  {
    var arm := g[t].arms[tag];
    assert TagFits(g[t].plan, tag, arm);
    RowIs(g, t, ps, arm.slot);
    assert ReadsBoth(g[t].arms, ps[arm.slot], arm.slot);
  }

  lemma {:induction false} OtherTags(g: Grammar, t: nat, ps: seq<Property>, tag: nat, buf: bytes, pos: nat)
    requires GrammarOk(g) && t < |g| && Described(g[t], ps) && pos <= |buf|
    ensures PassesOver(g, t, ps, tag, buf, pos)
  {
    if tag in g[t].arms {
      TagIs(g, t, ps, tag);
    }
    hide GrammarOk, Described, Skip;
  }

  // ---------------------------------------------------------------- encoding

  lemma {:induction false} InitialIsValid(g: Grammar, p: Property)
    requires GrammarOk(g) && KindOk(g, p.kind)
    requires p.rule.Implicit? ==> ScalarOk(p.kind, p.rule.default)
    ensures ValidSlot(g, RowOf(p), Initial(p))
    ensures Flat(RowRecords(g, RowOf(p), Initial(p))) == if p.rule.Packed? then Varint(8 * p.number + 2) + [0] else []
  {
    hide GrammarOk;
    if p.rule.Packed? {
      assert PackedBytes([]) == [];
      EmptyPrefixed();
      FlatOne(Varint(8 * p.number + 2) + [0]);
    } else {
      hide Varint;
      assert RowRecords(g, RowOf(p), Initial(p)) == [];
    }
  }

  lemma {:induction false} EmptyPrefixed()
    ensures LengthPrefixed([]) == [0]
  {
    assert Varint(0) == [0];
  }

  lemma {:induction false} OneValueIsValid(g: Grammar, p: Property, v: Val)
    requires GrammarOk(g) && KindOk(g, p.kind) && ValidVal(g, p.kind, v)
    requires p.rule.Packed? ==> p.kind == KInt32
    ensures ValidSlot(g, RowOf(p), Slot([v]))
    ensures Flat(RowRecords(g, RowOf(p), Slot([v]))) == OneValue(g, p, v)
  {
    if p.rule.Packed? {
      PackedOfOne(v);
      VarintSizes(Unsigned64(v.i));
    }
    hide Varint, GrammarOk;
    var cs := RowRecords(g, RowOf(p), Slot([v]));
    if cs != [] {
      assert cs == [OneValue(g, p, v)];
      FlatOne(OneValue(g, p, v));
    }
  }

  lemma {:induction false} PackedOfOne(v: Val)
    requires ScalarOk(KInt32, v)
    ensures PackedBytes([v]) == ScalarBytes(KInt32, v)
  {
    assert [v][1..] == [];
    assert PackedBytes([v]) == Varint(Unsigned64(v.i)) + PackedBytes([]);
  }

  /** Each property of such a message is valid, and what its row writes. */
  lemma {:induction false} SlotOfOne(g: Grammar, t: nat, ps: seq<Property>, i: nat, v: Val, j: nat)
    requires GrammarOk(g) && t < |g| && Described(g[t], ps) && i < |ps| && j < |ps|
    requires KindOk(g, ps[i].kind) && ValidVal(g, ps[i].kind, v)
    ensures |g[t].plan| == |ps| && KindOk(g, g[t].plan[j].kind)
    ensures ValidSlot(g, g[t].plan[j], With(ps, i, v).slots[j])
    ensures Flat(RowRecords(g, g[t].plan[j], With(ps, i, v).slots[j]))
      == if i == j then OneValue(g, ps[i], v) else EmptyLists(ps, j, j + 1)
  {
    hide *;
    RowIs(g, t, ps, j);
    WithSlot(ps, i, v, j);
    if i == j {
      OneValueIsValid(g, ps[i], v);
    } else {
      InitialIsValid(g, ps[j]);
      OneEmpty(ps, j);
    }
  }

  lemma {:induction false} WithSlot(ps: seq<Property>, i: nat, v: Val, j: nat)
    requires i < |ps| && j < |ps|
    ensures With(ps, i, v).slots[j] == if i == j then Slot([v]) else Initial(ps[j])
  {
  }

  lemma {:induction false} OneEmpty(ps: seq<Property>, j: nat)
    requires j < |ps|
    ensures EmptyLists(ps, j, j + 1) == if ps[j].rule.Packed? then Varint(8 * ps[j].number + 2) + [0] else []
  {
    hide Varint;
    assert EmptyLists(ps, j, j) == [];
  }

  lemma {:induction false} WithIsValid(g: Grammar, t: nat, ps: seq<Property>, i: nat, v: Val)
    requires GrammarOk(g) && t < |g| && Described(g[t], ps) && i < |ps|
    requires KindOk(g, ps[i].kind) && ValidVal(g, ps[i].kind, v)
    ensures ValidMsg(g, t, With(ps, i, v))
  {
    var m := With(ps, i, v);
    RowIs(g, t, ps, i);
    hide Described, ValidSlot, RowRecords, Flat, OneValue, EmptyLists;
    forall j | 0 <= j < |m.slots| ensures KindOk(g, g[t].plan[j].kind) && ValidSlot(g, g[t].plan[j], m.slots[j]) {
      SlotOfOne(g, t, ps, i, v, j);
    }
  }

  /** What the first `n` rows write of such a message. */
  function SomeRows(g: Grammar, ps: seq<Property>, i: nat, v: Val, n: nat): bytes
    requires GrammarOk(g) && i < |ps| && n <= |ps| && KindOk(g, ps[i].kind) && ValidVal(g, ps[i].kind, v)
  {
    if n <= i then EmptyLists(ps, 0, n) else EmptyLists(ps, 0, i) + OneValue(g, ps[i], v) + EmptyLists(ps, i + 1, n)
  }

  lemma {:induction false} OneMoreOfRows(g: Grammar, ps: seq<Property>, i: nat, v: Val, n: nat)
    requires GrammarOk(g) && i < |ps| && 0 < n <= |ps| && KindOk(g, ps[i].kind) && ValidVal(g, ps[i].kind, v)
    ensures SomeRows(g, ps, i, v, n)
      == SomeRows(g, ps, i, v, n - 1) + if i == n - 1 then OneValue(g, ps[i], v) else EmptyLists(ps, n - 1, n)
  {
    hide GrammarOk, OneValue, ValidVal, EmptyLists;
    OneMoreEmpty(ps, if n - 1 < i then 0 else i + 1, n);
    NoneEmpty(ps, i + 1);
  }

  lemma {:induction false} NoRows(g: Grammar, t: nat, ps: seq<Property>, i: nat, v: Val)
    requires GrammarOk(g) && t < |g| && i < |ps|
    requires KindOk(g, ps[i].kind) && ValidVal(g, ps[i].kind, v) && ValidMsg(g, t, With(ps, i, v))
    ensures Flat(Records(g, t, With(ps, i, v), 0)) == [] == SomeRows(g, ps, i, v, 0)
  {
  }

  lemma {:induction false} RecordsOfOne(g: Grammar, t: nat, ps: seq<Property>, i: nat, v: Val, n: nat)
    requires GrammarOk(g) && t < |g| && Described(g[t], ps) && i < |ps| && n <= |ps|
    requires KindOk(g, ps[i].kind) && ValidVal(g, ps[i].kind, v) && ValidMsg(g, t, With(ps, i, v))
    ensures Flat(Records(g, t, With(ps, i, v), n)) == SomeRows(g, ps, i, v, n)
    decreases n
  {
    hide *;
    if n == 0 {
      NoRows(g, t, ps, i, v);
    } else {
      RecordsOfOne(g, t, ps, i, v, n - 1);
      SlotOfOne(g, t, ps, i, v, n - 1);
      OneMoreRow(g, t, With(ps, i, v), n);
      OneMoreOfRows(g, ps, i, v, n);
    }
  }

  lemma {:induction false} NoneEmpty(ps: seq<Property>, i: nat)
    requires i <= |ps|
    ensures EmptyLists(ps, i, i) == []
  {
  }

  lemma {:induction false} OneMoreRow(g: Grammar, t: nat, m: Msg, n: nat)
    requires GrammarOk(g) && t < |g| && ValidMsg(g, t, m) && 0 < n <= |m.slots|
    ensures |g[t].plan| == |m.slots| && KindOk(g, g[t].plan[n - 1].kind) && ValidSlot(g, g[t].plan[n - 1], m.slots[n - 1])
    ensures Flat(Records(g, t, m, n)) == Flat(Records(g, t, m, n - 1)) + Flat(RowRecords(g, g[t].plan[n - 1], m.slots[n - 1]))
  {
    FlatAppend(Records(g, t, m, n - 1), RowRecords(g, g[t].plan[n - 1], m.slots[n - 1]));
  }

  lemma {:induction false} OneMoreEmpty(ps: seq<Property>, lo: nat, n: nat)
    requires 0 < n <= |ps| && lo <= n
    ensures lo < n ==> EmptyLists(ps, lo, n) == EmptyLists(ps, lo, n - 1) + EmptyLists(ps, n - 1, n)
  {
  }

  lemma {:induction false} PropertyEncodes(g: Grammar, t: nat, ps: seq<Property>, i: nat, v: Val)
    requires GrammarOk(g) && t < |g| && Described(g[t], ps) && i < |ps|
    requires KindOk(g, ps[i].kind) && ValidVal(g, ps[i].kind, v)
    ensures WritesAlone(g, t, ps, i, v)
  {
    WithIsValid(g, t, ps, i, v);
    RecordsOfOne(g, t, ps, i, v, |ps|);
  }

  // ---------------------------------------------------------------- main result

  /** A table that lists these properties does with them what it should. */
  lemma {:induction false} TableHasProperties(g: Grammar, t: nat, ps: seq<Property>)
    requires GrammarOk(g) && t < |g| && Described(g[t], ps)
    ensures HasProperties(g, t, ps)
  {
    hide GrammarOk, Described, KindOk, ValidVal, ReadsAlone, WritesAlone, PassesOver, Decode;
    NothingDecodes(g, t, ps);
    forall i: nat, v: Val | i < |ps| && KindOk(g, ps[i].kind) && ValidVal(g, ps[i].kind, v)
      ensures ReadsAlone(g, t, ps, i, v) && WritesAlone(g, t, ps, i, v)
    {
      PropertyDecodes(g, t, ps, i, v);
      PropertyEncodes(g, t, ps, i, v);
    }
    forall i: nat, ints: seq<int> | i < |ps| ensures ReadsPacked(g, t, ps, i, ints) {
      PackedReadsIf(g, t, ps, i, ints);
    }
    forall tag: nat, buf: bytes, pos: nat | pos <= |buf| ensures PassesOver(g, t, ps, tag, buf, pos) {
      OtherTags(g, t, ps, tag, buf, pos);
    }
  }

  /** The case of a sub-message with a small number. */
  lemma {:induction false} SubAlone(g: Grammar, t: nat, ps: seq<Property>, i: nat, tag: byte, s: nat, m: Msg)
    requires GrammarOk(g) && t < |g| && HasProperties(g, t, ps) && i < |ps| && s < |g|
    requires ps[i].kind == KMsg(s) && ValidMsg(g, s, m) && |Encode(g, s, m)| < TWO_32
    requires tag == 8 * ps[i].number + ps[i].wire < 128
    ensures |m.slots| == |g[s].plan|
    ensures var payload := LengthPrefixed(Encode(g, s, m));
      Decode(g, t, [tag] + payload, 0, |payload| + 1)
        == Got(Msg(Initials(ps).slots[i := Slot([Sub(Norm(g, s, m))])]), |payload| + 1)
  {
    assert ValidVal(g, ps[i].kind, Sub(m));
    assert ReadsAlone(g, t, ps, i, Sub(m));
    assert Varint(tag) == [tag];
    hide GrammarOk, HasProperties, Decode, Initials, ValidMsg, Encode, LengthPrefixed, Norm, Varint;
  }
}
