/**
 What every generated `encode` and `decode` does, stated once over tables.

 A schema is read off one message's code in three places: the values `createBase` starts from, the
 rows `encode` writes in order, and the arms `decode` switches on. The tables of a file form a
 grammar, in which sub-messages refer to each other by position.
 */
module Codec {
  import opened Wire

  // ---------------------------------------------------------------- messages and schemas

  datatype Val =
    | Str(bs: bytes)     // a string or a byte array, already encoded
    | Int(i: int)        // a number or an enum
    | Bool(b: bool)
    | Fixed(bs: bytes)   // a double, as its eight bytes
    | Sub(m: Msg)

  /** One property: no value if it is undefined or an empty list, one if it is a single value. */
  datatype Slot = Slot(vals: seq<Val>)

  /** A message, its properties in the order `encode` visits them. */
  datatype Msg = Msg(slots: seq<Slot>)

  datatype Kind = KStr | KInt32 | KBool | KUint64 | KInt64 | KDouble | KMsg(schema: nat)

  /** When `encode` writes a property: unless it is undefined or the default; unless it is undefined;
      once for each element; or all elements in one record, even when there are none. */
  datatype Rule = Implicit(default: Val) | Explicit | Repeated | Packed

  datatype Row = Row(tag: nat, kind: Kind, rule: Rule)

  // The two doubles that compare equal to zero, least significant byte first.
  const PLUS_ZERO: bytes := [0, 0, 0, 0, 0, 0, 0, 0]
  const MINUS_ZERO: bytes := [0, 0, 0, 0, 0, 0, 0, 128]

  datatype How = Assign | Push | PushPacked

  datatype Arm = Arm(slot: nat, kind: Kind, how: How)

  datatype Schema = Schema(base: Msg, plan: seq<Row>, arms: map<nat, Arm>)

  type Grammar = seq<Schema>

  predicate KindOk(g: Grammar, k: Kind) {
    k.KMsg? ==> k.schema < |g|
  }

  function HowFor(rule: Rule): How {
    match rule
    case Implicit(_) => Assign
    case Explicit => Assign
    case Repeated => Push
    case Packed => PushPacked
  }

  /** What `createBase` must hold for a property that `encode` treats by this rule. */
  function BaseSlot(rule: Rule): Slot {
    if rule.Implicit? then Slot([rule.default]) else Slot([])
  }

  /** The wire type of the tag a row writes. */
  function WireType(row: Row): nat {
    if row.rule.Packed? then 2
    else match row.kind
      case KStr => 2
      case KInt32 => 0
      case KBool => 0
      case KUint64 => 0
      case KInt64 => 0
      case KDouble => 1
      case KMsg(_) => 2
  }

  predicate ScalarOk(k: Kind, v: Val) {
    match k
    case KStr => v.Str? && |v.bs| < TWO_32
    case KInt32 => v.Int? && -TWO_31 <= v.i < TWO_31
    case KBool => v.Bool?
    case KUint64 => v.Int? && 0 <= v.i <= MAX_SAFE
    case KInt64 => v.Int? && -MAX_SAFE <= v.i <= MAX_SAFE
    case KDouble => v.Fixed? && |v.bs| == 8
    case KMsg(_) => false
  }

  /** A row agrees with the arm that reads it back and with the base value of its property. */
  predicate RowOk(g: Grammar, schema: Schema, i: nat)
    requires i < |schema.plan| == |schema.base.slots|
  {
    var row := schema.plan[i];
    && 8 <= row.tag < TWO_32
    && row.tag % 8 == WireType(row)
    && row.tag in schema.arms
    && schema.arms[row.tag] == Arm(i, row.kind, HowFor(row.rule))
    && schema.base.slots[i] == BaseSlot(row.rule)
    && (row.rule.Implicit? ==> ScalarOk(row.kind, row.rule.default))
    && (row.rule.Implicit? && row.kind.KDouble? ==> row.rule.default == Fixed(PLUS_ZERO))
    && (row.rule.Packed? ==> row.kind == KInt32)
    && KindOk(g, row.kind)
  }

  /** An arm fills its property the way the row that writes it expects. */
  predicate ArmOk(g: Grammar, schema: Schema, arm: Arm) {
    && arm.slot < |schema.plan|
    && KindOk(g, arm.kind)
    && arm.kind == schema.plan[arm.slot].kind
    && (arm.how.Assign? <==> HowFor(schema.plan[arm.slot].rule).Assign?)
    && (arm.how.PushPacked? ==> arm.kind == KInt32)
  }

  /** `encode`, `decode` and `createBase` of one message fit together. */
  predicate SchemaOk(g: Grammar, schema: Schema) {
    && |schema.base.slots| == |schema.plan|
    && (forall i {:trigger schema.plan[i]} | 0 <= i < |schema.plan| :: KindOk(g, schema.plan[i].kind))
    && (forall i {:trigger RowOk(g, schema, i)} | 0 <= i < |schema.plan| :: RowOk(g, schema, i))
    && (forall tag {:trigger ArmOk(g, schema, schema.arms[tag])} | tag in schema.arms ::
          ArmOk(g, schema, schema.arms[tag]))
  }

  /** The rows, and the arms, of the properties from `lo` up to `hi`. */
  predicate RowsOk(g: Grammar, schema: Schema, lo: nat, hi: nat)
    requires hi <= |schema.plan| == |schema.base.slots|
  {
    forall i | lo <= i < hi :: RowOk(g, schema, i)
  }

  predicate ArmsOk(g: Grammar, schema: Schema, lo: nat, hi: nat) {
    forall tag {:trigger ArmOk(g, schema, schema.arms[tag])} |
      tag in schema.arms && lo <= schema.arms[tag].slot < hi :: ArmOk(g, schema, schema.arms[tag])
  }

  predicate GrammarOk(g: Grammar) {
    forall t {:trigger g[t]} | 0 <= t < |g| :: SchemaOk(g, g[t])
  }

  // ---------------------------------------------------------------- decoding

  /** What one iteration of a decode loop does to the message. */
  datatype Effect = Nop | Set(slot: nat, val: Val) | Add(slot: nat, vals: seq<Val>)

  predicate EffectOk(e: Effect, n: nat) {
    e.Nop? || e.slot < n
  }

  function Apply(m: Msg, e: Effect): (r: Msg)
    requires EffectOk(e, |m.slots|)
    ensures |r.slots| == |m.slots|
  {
    match e
    case Nop => m
    case Set(s, v) => Msg(m.slots[s := Slot([v])])
    case Add(s, vs) => Msg(m.slots[s := Slot(m.slots[s].vals + vs)])
  }

  /** How one iteration of a decode loop ends: go on, leave the loop, or throw. */
  datatype Step = Next(effect: Effect, pos: nat) | Stop(pos: nat) | Throw

  /** `longToNumber`: throws outside the integers a double holds exactly. */
  function LongToNumber(i: int): Option<int> {
    if i > MAX_SAFE then None else if i < -MAX_SAFE then None else Some(i)
  }

  function ReadInt32(buf: bytes, pos: nat): (r: Read<int>)
    ensures r.Got? ==> pos < r.pos <= |buf|
    ensures r.Got? ==> -TWO_31 <= r.val < TWO_31
  {
    match ReadVarint(buf, pos)
    case Fail => Fail
    case Got(v, p) => Got(Signed(v, TWO_31), p)
  }

  function ReadLong(buf: bytes, pos: nat, signed: bool): (r: Read<int>)
    ensures r.Got? ==> pos < r.pos <= |buf|
  {
    match ReadVarint(buf, pos)
    case Fail => Fail
    case Got(v, p) =>
      match LongToNumber(if signed then Signed(v, TWO_63) else v % TWO_64)
      case None => Fail
      case Some(i) => Got(i, p)
  }

  function ReadScalar(k: Kind, buf: bytes, pos: nat): (r: Read<Val>)
    requires !k.KMsg?
    ensures r.Got? ==> pos < r.pos <= |buf|
  {
    match k
    case KStr => (match ReadBytes(buf, pos) case Fail => Fail case Got(bs, p) => Got(Str(bs), p))
    case KInt32 => (match ReadInt32(buf, pos) case Fail => Fail case Got(i, p) => Got(Int(i), p))
    case KBool => (match ReadVarint(buf, pos) case Fail => Fail case Got(v, p) => Got(Bool(v % TWO_64 != 0), p))
    case KUint64 => (match ReadLong(buf, pos, false) case Fail => Fail case Got(i, p) => Got(Int(i), p))
    case KInt64 => (match ReadLong(buf, pos, true) case Fail => Fail case Got(i, p) => Got(Int(i), p))
    case KDouble => if pos + 8 > |buf| then Fail else Got(Fixed(buf[pos..pos + 8]), pos + 8)
  }

  /** The inner loop of a packed field. The last element may run past `end`. */
  function ReadPacked(buf: bytes, pos: nat, end: int): (r: Read<seq<Val>>)
    requires pos <= |buf|
    ensures r.Got? ==> pos <= r.pos <= |buf|
    decreases |buf| - pos
  {
    if pos >= end then Got([], pos)
    else
      match ReadInt32(buf, pos)
      case Fail => Fail
      case Got(i, p) =>
        match ReadPacked(buf, p, end)
        case Fail => Fail
        case Got(vs, q) => Got([Int(i)] + vs, q)
  }

  /** A sub-message is decoded by the same reader, up to its length counted from after the length. */
  function ReadValue(g: Grammar, k: Kind, buf: bytes, pos: nat): (r: Read<Val>)
    requires GrammarOk(g) && KindOk(g, k) && pos <= |buf|
    ensures r.Got? ==> pos < r.pos <= |buf|
    decreases |buf| - pos, 0
  {
    if !k.KMsg? then ReadScalar(k, buf, pos)
    else
      match ReadUint32(buf, pos)
      case Fail => Fail
      case Got(len, p) =>
        match Loop(g, k.schema, buf, p, p + len, g[k.schema].base)
        case Fail => Fail
        case Got(m, q) => Got(Sub(m), q)
  }

  function ReadField(g: Grammar, arm: Arm, buf: bytes, pos: nat): (r: Read<Effect>)
    requires GrammarOk(g) && KindOk(g, arm.kind) && pos <= |buf|
    ensures r.Got? ==> pos < r.pos <= |buf|
    ensures r.Got? ==> EffectOk(r.val, arm.slot + 1)
    decreases |buf| - pos, 1
  {
    if arm.how.PushPacked? then
      match ReadUint32(buf, pos)
      case Fail => Fail
      case Got(len, p) =>
        match ReadPacked(buf, p, len + p)
        case Fail => Fail
        case Got(vs, q) => Got(Add(arm.slot, vs), q)
    else
      match ReadValue(g, arm.kind, buf, pos)
      case Fail => Fail
      case Got(v, p) => Got(if arm.how.Assign? then Set(arm.slot, v) else Add(arm.slot, [v]), p)
  }

  /** One iteration of a decode loop: an arm whose tag matches exactly, an end-group or zero tag, or a
      record to skip. */
  function ReadStep(g: Grammar, t: nat, buf: bytes, pos: nat): (r: Step)
    requires GrammarOk(g) && t < |g| && pos <= |buf|
    ensures r.Next? ==> pos < r.pos <= |buf| && EffectOk(r.effect, |g[t].plan|)
    ensures r.Stop? ==> pos < r.pos <= |buf|
    decreases |buf| - pos, 2
  {
    match ReadUint32(buf, pos)
    case Fail => Throw
    case Got(tag, p) => AfterTag(g, t, tag, buf, p)
  }

  function AfterTag(g: Grammar, t: nat, tag: nat, buf: bytes, pos: nat): (r: Step)
    requires GrammarOk(g) && t < |g| && pos <= |buf|
    ensures r.Next? ==> pos <= r.pos <= |buf| && EffectOk(r.effect, |g[t].plan|)
    ensures r.Stop? ==> r.pos == pos
    decreases |buf| - pos, 2
  {
    if tag in g[t].arms then
      assert ArmOk(g, g[t], g[t].arms[tag]);
      match ReadField(g, g[t].arms[tag], buf, pos)
      case Fail => Throw
      case Got(e, p) => Next(e, p)
    else if tag % 8 == 4 || tag == 0 then Stop(pos)
    else
      match Skip(buf, pos, tag % 8, None)
      case Fail => Throw
      case Got(_, p) => Next(Nop, p)
  }

  /** The decode loop from some point on, with the message built so far. */
  function Loop(g: Grammar, t: nat, buf: bytes, pos: nat, end: int, m: Msg): (r: Read<Msg>)
    requires GrammarOk(g) && t < |g| && pos <= |buf|
    requires |m.slots| == |g[t].plan|
    ensures r.Got? ==> pos <= r.pos <= |buf| && |r.val.slots| == |g[t].plan|
    ensures r.Got? && pos < end ==> pos < r.pos
    decreases |buf| - pos, 3
  {
    if pos >= end then Got(m, pos)
    else
      match ReadStep(g, t, buf, pos)
      case Throw => Fail
      case Stop(p) => Got(m, p)
      case Next(e, p) => Loop(g, t, buf, p, end, Apply(m, e))
  }

  /** `decode(reader, length)` from position `pos`. */
  function Decode(g: Grammar, t: nat, buf: bytes, pos: nat, length: nat): (r: Read<Msg>)
    requires GrammarOk(g) && t < |g| && pos <= |buf|
  {
    DecodeUpTo(g, t, buf, pos, Some(length))
  }

  /** `length` may be undefined: then the message goes on to the end of the input. */
  function DecodeUpTo(g: Grammar, t: nat, buf: bytes, pos: nat, length: Option<nat>): (r: Read<Msg>)
    requires GrammarOk(g) && t < |g| && pos <= |buf|
    ensures r.Got? ==> pos <= r.pos <= |buf|
  {
    Loop(g, t, buf, pos, if length.None? then |buf| else pos + length.value, g[t].base)
  }

  // ---------------------------------------------------------------- encoding

  predicate IsZeroDouble(bs: bytes) {
    bs == PLUS_ZERO || bs == MINUS_ZERO
  }

  predicate Omitted(row: Row, slot: Slot)
    requires row.rule.Implicit?
  {
    || slot.vals == []
    || slot.vals[0] == row.rule.default
    || (row.kind.KDouble? && slot.vals[0].Fixed? && IsZeroDouble(slot.vals[0].bs))
  }

  predicate ValidMsg(g: Grammar, t: nat, m: Msg)
    requires GrammarOk(g) && t < |g|
    decreases m, 0
  {
    && |m.slots| == |g[t].plan|
    && forall i | 0 <= i < |m.slots| :: ValidSlot(g, g[t].plan[i], m.slots[i])
  }

  predicate ValidSlot(g: Grammar, row: Row, slot: Slot)
    requires GrammarOk(g) && KindOk(g, row.kind)
    decreases slot, 0
  {
    && (row.rule.Implicit? || row.rule.Explicit? ==> |slot.vals| <= 1)
    && (row.rule.Packed? ==> |PackedBytes(slot.vals)| < TWO_32)
    && forall v | v in slot.vals :: ValidVal(g, row.kind, v)
  }

  /** A value `encode` accepts. Lengths go on the wire in 32 bits. */
  predicate ValidVal(g: Grammar, k: Kind, v: Val)
    requires GrammarOk(g) && KindOk(g, k)
    decreases v, 0
  {
    if k.KMsg? then v.Sub? && ValidMsg(g, k.schema, v.m) && |Encode(g, k.schema, v.m)| < TWO_32
    else ScalarOk(k, v)
  }

  function Flat(cs: seq<bytes>): bytes {
    if cs == [] then [] else cs[0] + Flat(cs[1..])
  }

  function PackedBytes(vs: seq<Val>): bytes {
    if vs == [] then []
    else (if vs[0].Int? && -TWO_63 <= vs[0].i < TWO_64 then Varint(Unsigned64(vs[0].i)) else []) + PackedBytes(vs[1..])
  }

  function ScalarBytes(k: Kind, v: Val): bytes
    requires ScalarOk(k, v)
  {
    match k
    case KStr => LengthPrefixed(v.bs)
    case KBool => [if v.b then 1 else 0]
    case KDouble => v.bs
    case KInt32 => Varint(Unsigned64(v.i))
    case KUint64 => Varint(Unsigned64(v.i))
    case KInt64 => Varint(Unsigned64(v.i))
  }

  function Payload(g: Grammar, k: Kind, v: Val): bytes
    requires GrammarOk(g) && KindOk(g, k) && ValidVal(g, k, v)
    decreases v, 1
  {
    if k.KMsg? then LengthPrefixed(Encode(g, k.schema, v.m)) else ScalarBytes(k, v)
  }

  /** The records one row writes. */
  function RowRecords(g: Grammar, row: Row, slot: Slot): seq<bytes>
    requires GrammarOk(g) && KindOk(g, row.kind) && ValidSlot(g, row, slot)
    decreases slot, 1
  {
    if row.rule.Packed? then [Varint(row.tag) + LengthPrefixed(PackedBytes(slot.vals))]
    else if row.rule.Implicit? && Omitted(row, slot) then []
    else seq(|slot.vals|, j requires 0 <= j < |slot.vals| => Varint(row.tag) + Payload(g, row.kind, slot.vals[j]))
  }

  /** The records the first `n` rows write. */
  function Records(g: Grammar, t: nat, m: Msg, n: nat): seq<bytes>
    requires GrammarOk(g) && t < |g| && ValidMsg(g, t, m) && n <= |m.slots|
    decreases m, 1, n
  {
    if n == 0 then [] else Records(g, t, m, n - 1) + RowRecords(g, g[t].plan[n - 1], m.slots[n - 1])
  }

  function Encode(g: Grammar, t: nat, m: Msg): bytes
    requires GrammarOk(g) && t < |g| && ValidMsg(g, t, m)
    decreases m, 2
  {
    Flat(Records(g, t, m, |m.slots|))
  }
}
