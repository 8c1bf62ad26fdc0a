/**
 Encoding again what was decoded. How long the second encoding can be, on any bytes; that it exists; and
 when decoding it gives the same message.
 */
module Reencoded {
  import opened Wire
  import opened Codec
  import opened Streams
  import opened RoundTrip
  import opened Decoded

  // ---------------------------------------------------------------- a bound on lengths

  /** The packed rows among the first `n`: each writes a record even for an empty list. */
  function PackedRows(plan: seq<Row>, n: nat): nat
    requires n <= |plan|
  {
    if n == 0 then 0 else PackedRows(plan, n - 1) + if plan[n - 1].rule.Packed? then 1 else 0
  }

  /** No message has more than two packed properties. */
  predicate Light(g: Grammar) {
    forall t {:trigger g[t]} | 0 <= t < |g| :: LightPlan(g[t].plan)
  }

  predicate LightPlan(plan: seq<Row>) {
    PackedRows(plan, |plan|) <= 2
  }

  /** In every message of the repository they come first. */
  lemma {:induction false} PackedComeFirst(plan: seq<Row>, n: nat)
    requires n <= |plan| && forall i | 2 <= i < |plan| :: !plan[i].rule.Packed?
    ensures PackedRows(plan, n) <= 2 && PackedRows(plan, n) <= n
    decreases n
  {
    if n > 0 {
      PackedComeFirst(plan, n - 1);
    }
  }

  lemma IsLight(schema: Schema)
    requires forall i | 2 <= i < |schema.plan| :: !schema.plan[i].rule.Packed?
    ensures LightPlan(schema.plan)
  {
    PackedComeFirst(schema.plan, |schema.plan|);
  }

  /** At least the bytes that encoding a message takes: five for a tag, five for a length, ten for a number. */
  function Weight(g: Grammar, t: nat, m: Msg, n: nat): nat
    requires GrammarOk(g) && t < |g| && n <= |m.slots| == |g[t].plan|
    decreases m, 1, n
  {
    if n == 0 then 0 else Weight(g, t, m, n - 1) + SlotWeight(g, g[t].plan[n - 1], m.slots[n - 1])
  }

  function SlotWeight(g: Grammar, row: Row, slot: Slot): nat
    requires GrammarOk(g) && KindOk(g, row.kind)
    decreases slot, 1
  {
    if row.rule.Implicit? && Omitted(row, slot) then 0
    else (if row.rule.Packed? then 10 else 0) + ValsWeight(g, row.kind, slot.vals)
  }

  function ValsWeight(g: Grammar, k: Kind, vs: seq<Val>): nat
    requires GrammarOk(g) && KindOk(g, k)
    decreases vs, 0
  {
    if vs == [] then 0 else ValWeight(g, k, vs[0]) + ValsWeight(g, k, vs[1..])
  }

  function ValWeight(g: Grammar, k: Kind, v: Val): nat
    requires GrammarOk(g) && KindOk(g, k)
    decreases v, 2
  {
    match v
    case Str(bs) => 10 + |bs|
    case Int(_) => 15
    case Bool(_) => 6
    case Fixed(bs) => 5 + |bs|
    case Sub(m) =>
      if k.KMsg? && |m.slots| == |g[k.schema].plan| then 10 + Weight(g, k.schema, m, |m.slots|) else 0
  }

  lemma {:induction false} VarintSize(n: nat, k: nat)
    requires 0 < k && n < Capacity(k)
    ensures |Varint(n)| <= k
    decreases k
  {
    if n >= 128 {
      VarintSize(n / 128, k - 1);
    }
  }

  lemma VarintSizes(n: nat)
    ensures n < TWO_32 ==> |Varint(n)| <= 5
    ensures n < TWO_64 ==> |Varint(n)| <= 10
  {
    assert Capacity(5) == 34359738368 && Capacity(10) == 1180591620717411303424;
    if n < TWO_32 {
      VarintSize(n, 5);
    }
    if n < TWO_64 {
      VarintSize(n, 10);
    }
  }

  // ---------------------------------------------------------------- decoding adds little weight

  lemma {:induction false} ValsWeightAppend(g: Grammar, k: Kind, vs: seq<Val>, ws: seq<Val>)
    requires GrammarOk(g) && KindOk(g, k)
    ensures ValsWeight(g, k, vs + ws) == ValsWeight(g, k, vs) + ValsWeight(g, k, ws)
    decreases |vs|
  {
    if vs == [] {
      assert vs + ws == ws;
    } else {
      assert (vs + ws)[1..] == vs[1..] + ws;
      ValsWeightAppend(g, k, vs[1..], ws);
    }
  }

  lemma {:induction false} WeightUpdate(g: Grammar, t: nat, m: Msg, i: nat, slot: Slot, n: nat)
    requires GrammarOk(g) && t < |g| && n <= |m.slots| == |g[t].plan| && i < |m.slots|
    requires KindOk(g, g[t].plan[i].kind)
    ensures Weight(g, t, Msg(m.slots[i := slot]), n) + (if i < n then SlotWeight(g, g[t].plan[i], m.slots[i]) else 0)
         == Weight(g, t, m, n) + if i < n then SlotWeight(g, g[t].plan[i], slot) else 0
    decreases n
  {
    if n > 0 {
      WeightUpdate(g, t, m, i, slot, n - 1);
    }
  }

  /** The weight of what an effect brings. */
  function EffectWeight(g: Grammar, t: nat, e: Effect): nat
    requires GrammarOk(g) && t < |g| && EffectOk(e, |g[t].plan|)
  {
    match e
    case Nop => 0
    case Set(s, v) => ValWeight(g, g[t].plan[s].kind, v)
    case Add(s, vs) => ValsWeight(g, g[t].plan[s].kind, vs)
  }

  lemma EffectAddsWeight(g: Grammar, t: nat, m: Msg, e: Effect)
    requires GrammarOk(g) && t < |g| && |m.slots| == |g[t].plan| && FullEffect(g, t, e)
    ensures EffectOk(e, |m.slots|)
    ensures Weight(g, t, Apply(m, e), |m.slots|) <= Weight(g, t, m, |m.slots|) + EffectWeight(g, t, e)
  {
    match e
    case Nop =>
    case Set(s, v) =>
      assert [v][1..] == [];
      assert ValsWeight(g, g[t].plan[s].kind, [v]) == ValWeight(g, g[t].plan[s].kind, v);
      WeightUpdate(g, t, m, s, Slot([v]), |m.slots|);
    case Add(s, vs) =>
      ValsWeightAppend(g, g[t].plan[s].kind, m.slots[s].vals, vs);
      WeightUpdate(g, t, m, s, Slot(m.slots[s].vals + vs), |m.slots|);
  }

  lemma {:induction false} BaseWeight(g: Grammar, t: nat, n: nat)
    requires GrammarOk(g) && t < |g| && n <= |g[t].base.slots| == |g[t].plan|
    ensures Weight(g, t, g[t].base, n) == 10 * PackedRows(g[t].plan, n)
    decreases n
  {
    if n > 0 {
      BaseWeight(g, t, n - 1);
      assert RowOk(g, g[t], n - 1);
    }
  }

  lemma {:induction false} PackedWeight(g: Grammar, buf: bytes, pos: nat, end: int)
    requires GrammarOk(g) && pos <= |buf| && ReadPacked(buf, pos, end).Got?
    ensures ValsWeight(g, KInt32, ReadPacked(buf, pos, end).val) <= 15 * (ReadPacked(buf, pos, end).pos - pos)
    decreases |buf| - pos
  {
    if pos < end {
      var i := ReadInt32(buf, pos);
      var rest := ReadPacked(buf, i.pos, end);
      PackedWeight(g, buf, i.pos, end);
      assert ([Int(i.val)] + rest.val)[1..] == rest.val;
    }
  }

  lemma ScalarWeight(g: Grammar, k: Kind, buf: bytes, pos: nat)
    requires GrammarOk(g) && KindOk(g, k) && !k.KMsg? && ReadScalar(k, buf, pos).Got?
    ensures ValWeight(g, k, ReadScalar(k, buf, pos).val) <= 15 * (ReadScalar(k, buf, pos).pos - pos + 1)
  {
  }

  lemma {:induction false} ValueWeight(g: Grammar, k: Kind, buf: bytes, pos: nat)
    requires GrammarOk(g) && Light(g) && KindOk(g, k) && pos <= |buf| && ReadValue(g, k, buf, pos).Got?
    ensures ValWeight(g, k, ReadValue(g, k, buf, pos).val) <= 15 * (ReadValue(g, k, buf, pos).pos - pos + 1)
    decreases |buf| - pos, 0
  {
    if k.KMsg? {
      var len := ReadUint32(buf, pos);
      LoopWeight(g, k.schema, buf, len.pos, len.pos + len.val, g[k.schema].base);
      BaseWeight(g, k.schema, |g[k.schema].plan|);
    } else {
      ScalarWeight(g, k, buf, pos);
    }
  }

  lemma {:induction false} FieldWeight(g: Grammar, t: nat, arm: Arm, buf: bytes, pos: nat)
    requires GrammarOk(g) && Light(g) && t < |g| && ArmOk(g, g[t], arm) && pos <= |buf| && ReadField(g, arm, buf, pos).Got?
    ensures FullEffect(g, t, ReadField(g, arm, buf, pos).val)
    ensures EffectWeight(g, t, ReadField(g, arm, buf, pos).val) <= 15 * (ReadField(g, arm, buf, pos).pos - pos + 1)
    decreases |buf| - pos, 1
  {
    FieldIsFull(g, t, arm, buf, pos);
    if arm.how.PushPacked? {
      var len := ReadUint32(buf, pos);
      PackedWeight(g, buf, len.pos, len.val + len.pos);
    } else {
      ValueWeight(g, arm.kind, buf, pos);
      var v := ReadValue(g, arm.kind, buf, pos).val;
      assert [v][1..] == [];
      assert ValsWeight(g, arm.kind, [v]) == ValWeight(g, arm.kind, v);
    }
  }

  lemma {:induction false} StepWeight(g: Grammar, t: nat, buf: bytes, pos: nat)
    requires GrammarOk(g) && Light(g) && t < |g| && pos <= |buf| && ReadStep(g, t, buf, pos).Next?
    ensures FullEffect(g, t, ReadStep(g, t, buf, pos).effect)
    ensures EffectWeight(g, t, ReadStep(g, t, buf, pos).effect) <= 15 * (ReadStep(g, t, buf, pos).pos - pos)
    decreases |buf| - pos, 2
  {
    var tag := ReadUint32(buf, pos);
    if tag.val in g[t].arms {
      assert ArmOk(g, g[t], g[t].arms[tag.val]);
      FieldWeight(g, t, g[t].arms[tag.val], buf, tag.pos);
    }
  }

  /** On any bytes, a decode adds at most fifteen times the bytes it consumes. */
  lemma {:induction false} LoopWeight(g: Grammar, t: nat, buf: bytes, pos: nat, end: int, m: Msg)
    requires GrammarOk(g) && Light(g) && t < |g| && pos <= |buf| && |m.slots| == |g[t].plan|
    requires Loop(g, t, buf, pos, end, m).Got?
    ensures Weight(g, t, Loop(g, t, buf, pos, end, m).val, |m.slots|)
         <= Weight(g, t, m, |m.slots|) + 15 * (Loop(g, t, buf, pos, end, m).pos - pos)
    decreases |buf| - pos, 3
  {
    if pos < end {
      var step := ReadStep(g, t, buf, pos);
      if step.Next? {
        StepWeight(g, t, buf, pos);
        EffectAddsWeight(g, t, m, step.effect);
        LoopWeight(g, t, buf, step.pos, end, Apply(m, step.effect));
      }
    }
  }

  // ---------------------------------------------------------------- the weight bounds the encoding

  lemma {:induction false} PackedLength(g: Grammar, vs: seq<Val>)
    requires GrammarOk(g) && forall v | v in vs :: ScalarOk(KInt32, v)
    ensures |PackedBytes(vs)| <= ValsWeight(g, KInt32, vs)
    decreases |vs|
  {
    if vs != [] {
      assert vs[0] in vs;
      VarintSizes(Unsigned64(vs[0].i));
      PackedLength(g, vs[1..]);
    }
  }

  lemma ScalarLength(g: Grammar, k: Kind, v: Val)
    requires GrammarOk(g) && KindOk(g, k) && ScalarOk(k, v)
    ensures |ScalarBytes(k, v)| + 5 <= ValWeight(g, k, v)
  {
    match k
    case KStr => VarintSizes(|v.bs|);
    case KInt32 => VarintSizes(Unsigned64(v.i));
    case KUint64 => VarintSizes(Unsigned64(v.i));
    case KInt64 => VarintSizes(Unsigned64(v.i));
    case _ =>
  }

  lemma {:induction false} ValLength(g: Grammar, k: Kind, v: Val)
    requires GrammarOk(g) && KindOk(g, k) && FullVal(g, k, v) && ValWeight(g, k, v) < TWO_32
    ensures ValidVal(g, k, v) && |Payload(g, k, v)| + 5 <= ValWeight(g, k, v)
    decreases v, 0
  {
    if k.KMsg? {
      MsgLength(g, k.schema, v.m);
      VarintSizes(|Encode(g, k.schema, v.m)|);
    } else {
      ScalarLength(g, k, v);
    }
  }

  lemma {:induction false} InVals(g: Grammar, k: Kind, vs: seq<Val>, j: nat)
    requires GrammarOk(g) && KindOk(g, k) && j < |vs|
    ensures ValWeight(g, k, vs[j]) <= ValsWeight(g, k, vs)
    decreases |vs|
  {
    if j > 0 {
      InVals(g, k, vs[1..], j - 1);
    }
  }

  lemma {:induction false} FlatLength(g: Grammar, k: Kind, vs: seq<Val>, cs: seq<bytes>)
    requires GrammarOk(g) && KindOk(g, k) && |cs| == |vs|
    requires forall j | 0 <= j < |cs| :: |cs[j]| <= ValWeight(g, k, vs[j])
    ensures |Flat(cs)| <= ValsWeight(g, k, vs)
    decreases |cs|
  {
    if cs != [] {
      FlatLength(g, k, vs[1..], cs[1..]);
    }
  }

  lemma {:induction false} SlotLength(g: Grammar, row: Row, slot: Slot)
    requires GrammarOk(g) && KindOk(g, row.kind) && FullSlot(g, row, slot) && row.tag < TWO_32
    requires row.rule.Packed? ==> row.kind == KInt32
    requires row.rule.Implicit? ==> ScalarOk(row.kind, row.rule.default)
    requires SlotWeight(g, row, slot) < TWO_32
    ensures ValidSlot(g, row, slot) && |Flat(RowRecords(g, row, slot))| <= SlotWeight(g, row, slot)
    decreases slot, 0
  {
    var vs := slot.vals;
    assert forall v | v in vs :: FullVal(g, row.kind, v);
    VarintSizes(row.tag);
    if row.rule.Packed? {
      PackedLength(g, vs);
      VarintSizes(|PackedBytes(vs)|);
      assert [Varint(row.tag) + LengthPrefixed(PackedBytes(vs))][1..] == [];
    } else if row.rule.Implicit? && Omitted(row, slot) {
      assert forall v | v in vs :: ValidVal(g, row.kind, v);
    } else {
      forall j | 0 <= j < |vs|
        ensures ValidVal(g, row.kind, vs[j]) && |Payload(g, row.kind, vs[j])| + 5 <= ValWeight(g, row.kind, vs[j])
      {
        InVals(g, row.kind, vs, j);
        ValLength(g, row.kind, vs[j]);
      }
      assert ValidSlot(g, row, slot);
      FlatLength(g, row.kind, vs, RowRecords(g, row, slot));
    }
  }

  lemma {:induction false} InSlots(g: Grammar, t: nat, m: Msg, n: nat, i: nat)
    requires GrammarOk(g) && t < |g| && i < n <= |m.slots| == |g[t].plan|
    ensures KindOk(g, g[t].plan[i].kind) && SlotWeight(g, g[t].plan[i], m.slots[i]) <= Weight(g, t, m, n)
    decreases n
  {
    if i < n - 1 {
      InSlots(g, t, m, n - 1, i);
    }
  }

  lemma {:induction false} RecordsLength(g: Grammar, t: nat, m: Msg, n: nat)
    requires GrammarOk(g) && t < |g| && ValidMsg(g, t, m) && n <= |m.slots|
    requires forall i | 0 <= i < n :: |Flat(RowRecords(g, g[t].plan[i], m.slots[i]))| <= SlotWeight(g, g[t].plan[i], m.slots[i])
    ensures |Flat(Records(g, t, m, n))| <= Weight(g, t, m, n)
    decreases n
  {
    if n > 0 {
      RecordsLength(g, t, m, n - 1);
      FlatAppend(Records(g, t, m, n - 1), RowRecords(g, g[t].plan[n - 1], m.slots[n - 1]));
    }
  }

  /** A message of the shape decode returns, whose weight fits 32 bits, can be encoded in that many bytes. */
  lemma {:induction false} MsgLength(g: Grammar, t: nat, m: Msg)
    requires GrammarOk(g) && t < |g| && Full(g, t, m) && Weight(g, t, m, |m.slots|) < TWO_32
    ensures ValidMsg(g, t, m) && |Encode(g, t, m)| <= Weight(g, t, m, |m.slots|)
    decreases m, 1
  {
    forall i | 0 <= i < |m.slots|
      ensures ValidSlot(g, g[t].plan[i], m.slots[i])
      ensures |Flat(RowRecords(g, g[t].plan[i], m.slots[i]))| <= SlotWeight(g, g[t].plan[i], m.slots[i])
    {
      assert FullSlot(g, g[t].plan[i], m.slots[i]);
      assert RowOk(g, g[t], i);
      InSlots(g, t, m, |m.slots|, i);
      SlotLength(g, g[t].plan[i], m.slots[i]);
    }
    RecordsLength(g, t, m, |m.slots|);
  }

  // ---------------------------------------------------------------- main results

  /** What any bytes decode to can be encoded again, in at most fifteen times their length and twenty more,
      as long as that fits the 32 bits of a length. */
  lemma DecodedCanBeEncoded(g: Grammar, t: nat, buf: bytes)
    requires GrammarOk(g) && Light(g) && t < |g| && Decode(g, t, buf, 0, |buf|).Got? && 15 * |buf| + 20 < TWO_32
    ensures var m := Decode(g, t, buf, 0, |buf|).val;
      Full(g, t, m) && ValidMsg(g, t, m) && |Encode(g, t, m)| <= 15 * |buf| + 20
  {
    var m := Decode(g, t, buf, 0, |buf|).val;
    BaseIsFull(g, t);
    LoopIsFull(g, t, buf, 0, |buf|, g[t].base);
    LoopWeight(g, t, buf, 0, |buf|, g[t].base);
    BaseWeight(g, t, |g[t].plan|);
    MsgLength(g, t, m);
  }

  /** Decode, encode and decode again: the same message comes back exactly when no double that `encode`
      may omit is minus zero. */
  lemma DecodedComesBack(g: Grammar, t: nat, buf: bytes)
    requires GrammarOk(g) && Light(g) && t < |g| && Decode(g, t, buf, 0, |buf|).Got? && 15 * |buf| + 20 < TWO_32
    ensures var m := Decode(g, t, buf, 0, |buf|).val;
      && Full(g, t, m)
      && ValidMsg(g, t, m)
      && (Decode(g, t, Encode(g, t, m), 0, |Encode(g, t, m)|) == Got(m, |Encode(g, t, m)|) <==> !HasMinusZero(g, t, m))
  {
    var m := Decode(g, t, buf, 0, |buf|).val;
    DecodedCanBeEncoded(g, t, buf);
    DecodedIsNormal(g, t, buf);
    DecodeAll(g, t, m);
    hide *;
  }

  /** No message has a double. */
  predicate NoDoubles(g: Grammar) {
    forall t {:trigger g[t]} | 0 <= t < |g| :: NoDoublesIn(g[t].plan)
  }

  predicate NoDoublesIn(plan: seq<Row>) {
    forall i | 0 <= i < |plan| :: !plan[i].kind.KDouble?
  }

  lemma {:induction false} NoMinusZero(g: Grammar, t: nat, m: Msg)
    requires GrammarOk(g) && NoDoubles(g) && t < |g| && Full(g, t, m)
    ensures !HasMinusZero(g, t, m)
    decreases m, 1
  {
    forall i | 0 <= i < |m.slots| ensures FullSlot(g, g[t].plan[i], m.slots[i]) && !MinusZeroIn(g, g[t].plan[i], m.slots[i]) {
      assert NoDoublesIn(g[t].plan);
      NoMinusZeroIn(g, g[t].plan[i], m.slots[i]);
    }
  }

  lemma {:induction false} NoMinusZeroIn(g: Grammar, row: Row, slot: Slot)
    requires GrammarOk(g) && NoDoubles(g) && KindOk(g, row.kind) && FullSlot(g, row, slot) && !row.kind.KDouble?
    ensures !MinusZeroIn(g, row, slot)
    decreases slot, 0
  {
    forall v | v in slot.vals && row.kind.KMsg? ensures FullVal(g, row.kind, v) && !HasMinusZero(g, row.kind.schema, v.m) {
      assert FullVal(g, row.kind, v);
      NoMinusZero(g, row.kind.schema, v.m);
    }
  }

  /** Without doubles, everything that decodes comes back. */
  lemma ComesBack(g: Grammar, t: nat, buf: bytes)
    requires GrammarOk(g) && Light(g) && NoDoubles(g) && t < |g|
    requires Decode(g, t, buf, 0, |buf|).Got? && 15 * |buf| + 20 < TWO_32
    ensures var m := Decode(g, t, buf, 0, |buf|).val;
      && ValidMsg(g, t, m)
      && Decode(g, t, Encode(g, t, m), 0, |Encode(g, t, m)|) == Got(m, |Encode(g, t, m)|)
  {
    hide *;
    DecodedComesBack(g, t, buf);
    NoMinusZero(g, t, Decode(g, t, buf, 0, |buf|).val);
  }

  /** Decoding nothing but an encoding. */
  lemma DecodeAll(g: Grammar, t: nat, m: Msg)
    requires GrammarOk(g) && t < |g| && ValidMsg(g, t, m)
    ensures |m.slots| == |g[t].plan|
    ensures Decode(g, t, Encode(g, t, m), 0, |Encode(g, t, m)|) == Got(Norm(g, t, m), |Encode(g, t, m)|)
  {
    DecodeEncode(g, t, m, [], []);
    assert [] + Encode(g, t, m) + [] == Encode(g, t, m);
  }

  // ---------------------------------------------------------------- a second round

  lemma {:induction false} ValEncodesAlike(g: Grammar, k: Kind, v: Val)
    requires GrammarOk(g) && KindOk(g, k) && ValidVal(g, k, v)
    ensures ValidVal(g, k, NormVal(g, k, v)) && Payload(g, k, NormVal(g, k, v)) == Payload(g, k, v)
    decreases v, 0
  {
    if k.KMsg? {
      EncodesAlike(g, k.schema, v.m);
    }
  }

  lemma {:induction false} SlotEncodesAlike(g: Grammar, row: Row, slot: Slot)
    requires GrammarOk(g) && KindOk(g, row.kind) && ValidSlot(g, row, slot)
    requires row.rule.Packed? ==> row.kind == KInt32
    requires row.rule.Implicit? ==> ScalarOk(row.kind, row.rule.default)
    ensures ValidSlot(g, row, NormSlot(g, row, slot))
    ensures RowRecords(g, row, NormSlot(g, row, slot)) == RowRecords(g, row, slot)
    decreases slot, 0
  {
    var vs, ns := slot.vals, NormVals(g, row, slot);
    forall j | 0 <= j < |vs|
      ensures ValidVal(g, row.kind, vs[j]) && ValidVal(g, row.kind, ns[j])
      ensures Payload(g, row.kind, ns[j]) == Payload(g, row.kind, vs[j])
    {
      ValEncodesAlike(g, row.kind, vs[j]);
    }
    if row.rule.Implicit? || row.rule.Packed? {
      assert forall j | 0 <= j < |vs| :: ns[j] == NormVal(g, row.kind, vs[j]);
      assert ns == vs;
    }
    assert ValidSlot(g, row, NormSlot(g, row, slot));
    assert RowRecords(g, row, NormSlot(g, row, slot)) == RowRecords(g, row, slot);
  }

  lemma {:induction false} RecordsAlike(g: Grammar, t: nat, m: Msg, n: Msg, k: nat)
    requires GrammarOk(g) && t < |g| && ValidMsg(g, t, m) && ValidMsg(g, t, n) && k <= |m.slots|
    requires forall i | 0 <= i < k :: RowRecords(g, g[t].plan[i], n.slots[i]) == RowRecords(g, g[t].plan[i], m.slots[i])
    ensures Records(g, t, n, k) == Records(g, t, m, k)
    decreases k
  {
    if k > 0 {
      RecordsAlike(g, t, m, n, k - 1);
    }
  }

  /** A message and its normal form are written with the same bytes. */
  lemma {:induction false} EncodesAlike(g: Grammar, t: nat, m: Msg)
    requires GrammarOk(g) && t < |g| && ValidMsg(g, t, m)
    ensures ValidMsg(g, t, Norm(g, t, m)) && Encode(g, t, Norm(g, t, m)) == Encode(g, t, m)
    decreases m, 1
  {
    var n := Norm(g, t, m);
    forall i | 0 <= i < |m.slots|
      ensures ValidSlot(g, g[t].plan[i], n.slots[i])
      ensures RowRecords(g, g[t].plan[i], n.slots[i]) == RowRecords(g, g[t].plan[i], m.slots[i])
    {
      assert ValidSlot(g, g[t].plan[i], m.slots[i]);
      assert RowOk(g, g[t], i);
      SlotEncodesAlike(g, g[t].plan[i], m.slots[i]);
    }
    RecordsAlike(g, t, m, n, |m.slots|);
  }

  /** The same with any bytes around both encodings. */
  lemma SecondRoundAnywhere(g: Grammar, t: nat, m: Msg, before: bytes, after: bytes)
    requires GrammarOk(g) && t < |g| && ValidMsg(g, t, m)
    ensures |m.slots| == |g[t].plan|
    ensures var b, n := Encode(g, t, m), Norm(g, t, m);
      && Decode(g, t, before + b + after, |before|, |b|) == Got(n, |before| + |b|)
      && ValidMsg(g, t, n) && Encode(g, t, n) == b
  {
    hide *;
    SecondRound(g, t, m);
    DecodeEncode(g, t, m, before, after);
  }

  /** After one round trip, further ones change nothing: the normal form can be encoded, is written with the
      same bytes, and comes back as it is. */
  lemma SecondRound(g: Grammar, t: nat, m: Msg)
    requires GrammarOk(g) && t < |g| && ValidMsg(g, t, m)
    ensures |m.slots| == |g[t].plan|
    ensures var n, b := Norm(g, t, m), Encode(g, t, m);
      && Decode(g, t, b, 0, |b|) == Got(n, |b|)
      && ValidMsg(g, t, n)
      && Encode(g, t, n) == b
      && Norm(g, t, n) == n
  {
    DecodeAll(g, t, m);
    EncodesAlike(g, t, m);
    NormTwice(g, t, m);
    hide *;
  }
}
