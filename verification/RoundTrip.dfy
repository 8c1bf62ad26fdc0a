/**
 Decoding what was encoded: into an empty message it is normalisation, into any other message it is a
 merge, whatever bytes stand before and after.
 */
module RoundTrip {
  import opened Wire
  import opened Codec
  import opened Locality
  import opened Streams

  // ---------------------------------------------------------------- the reference: normalise and merge

  /** Normalisation fills each undefined scalar in with its default, at every depth, and keeps the rest. */
  function Norm(g: Grammar, t: nat, m: Msg): (r: Msg)
    requires GrammarOk(g) && t < |g| && |m.slots| == |g[t].plan|
    ensures |r.slots| == |m.slots|
    decreases m, 0
  {
    Msg(seq(|m.slots|, i requires 0 <= i < |m.slots| => NormSlot(g, g[t].plan[i], m.slots[i])))
  }

  function NormSlot(g: Grammar, row: Row, slot: Slot): Slot
    requires GrammarOk(g) && KindOk(g, row.kind)
    decreases slot, 1
  {
    if row.rule.Implicit? && Omitted(row, slot) then Slot([row.rule.default])
    else Slot(NormVals(g, row, slot))
  }

  function NormVals(g: Grammar, row: Row, slot: Slot): (r: seq<Val>)
    requires GrammarOk(g) && KindOk(g, row.kind)
    ensures |r| == |slot.vals|
    decreases slot, 0
  {
    seq(|slot.vals|, j requires 0 <= j < |slot.vals| => NormVal(g, row.kind, slot.vals[j]))
  }

  function NormVal(g: Grammar, k: Kind, v: Val): Val
    requires GrammarOk(g) && KindOk(g, k)
    decreases v, 0
  {
    if k.KMsg? && v.Sub? && |v.m.slots| == |g[k.schema].plan| then Sub(Norm(g, k.schema, v.m)) else v
  }

  /** A second round changes nothing more. */
  lemma {:induction false} NormTwice(g: Grammar, t: nat, m: Msg)
    requires GrammarOk(g) && t < |g| && |m.slots| == |g[t].plan|
    ensures Norm(g, t, Norm(g, t, m)) == Norm(g, t, m)
    decreases m, 0
  {
    var n := Norm(g, t, m);
    forall i | 0 <= i < |m.slots| ensures Norm(g, t, n).slots[i] == n.slots[i] {
      assert RowOk(g, g[t], i);
      NormSlotTwice(g, g[t].plan[i], m.slots[i]);
    }
    assert Norm(g, t, n).slots == n.slots;
  }

  lemma {:induction false} NormSlotTwice(g: Grammar, row: Row, slot: Slot)
    requires GrammarOk(g) && KindOk(g, row.kind) && (row.rule.Implicit? ==> !row.kind.KMsg?)
    ensures NormSlot(g, row, NormSlot(g, row, slot)) == NormSlot(g, row, slot)
    decreases slot, 0
  {
    var once := NormVals(g, row, slot);
    var twice := NormVals(g, row, Slot(once));
    forall j | 0 <= j < |slot.vals| ensures twice[j] == once[j] {
      NormValTwice(g, row.kind, slot.vals[j]);
    }
    assert twice == once;
    if row.rule.Implicit? {
      assert forall j | 0 <= j < |slot.vals| :: once[j] == NormVal(g, row.kind, slot.vals[j]);
      assert once == slot.vals;
    }
  }

  lemma {:induction false} NormValTwice(g: Grammar, k: Kind, v: Val)
    requires GrammarOk(g) && KindOk(g, k)
    ensures NormVal(g, k, NormVal(g, k, v)) == NormVal(g, k, v)
    decreases v, 0
  {
    if k.KMsg? && v.Sub? && |v.m.slots| == |g[k.schema].plan| {
      NormTwice(g, k.schema, v.m);
    }
  }

  /** What `m` leaves behind when it is written after `n`: lists append, a written single value replaces
      the earlier one whole, and an unwritten one leaves it. */
  function Merge(g: Grammar, t: nat, n: Msg, m: Msg): (r: Msg)
    requires GrammarOk(g) && t < |g| && ValidMsg(g, t, m)
    requires |n.slots| == |m.slots|
    ensures |r.slots| == |m.slots|
  {
    Msg(seq(|m.slots|, i requires 0 <= i < |m.slots| => MergeSlot(g, g[t].plan[i], n.slots[i], m.slots[i])))
  }

  function MergeSlot(g: Grammar, row: Row, earlier: Slot, later: Slot): Slot
    requires GrammarOk(g) && KindOk(g, row.kind) && ValidSlot(g, row, later)
  {
    match row.rule
    case Implicit(_) => if Omitted(row, later) then earlier else Slot(NormVals(g, row, later))
    case Explicit => if later.vals == [] then earlier else Slot(NormVals(g, row, later))
    case Repeated => Slot(earlier.vals + NormVals(g, row, later))
    case Packed => Slot(earlier.vals + NormVals(g, row, later))
  }

  lemma MergeIntoBaseIsNorm(g: Grammar, t: nat, m: Msg)
    requires GrammarOk(g) && t < |g| && ValidMsg(g, t, m)
    ensures Merge(g, t, g[t].base, m) == Norm(g, t, m)
  {
    forall i | 0 <= i < |m.slots|
      ensures Merge(g, t, g[t].base, m).slots[i] == Norm(g, t, m).slots[i]
    {
      assert RowOk(g, g[t], i);
    }
    assert Merge(g, t, g[t].base, m).slots == Norm(g, t, m).slots;
  }

  // ---------------------------------------------------------------- the effects of an encoding

  function RowEffects(g: Grammar, i: nat, row: Row, slot: Slot): seq<Effect>
    requires GrammarOk(g) && KindOk(g, row.kind) && ValidSlot(g, row, slot)
  {
    if row.rule.Packed? then [Add(i, slot.vals)]
    else if row.rule.Implicit? && Omitted(row, slot) then []
    else seq(|slot.vals|, j requires 0 <= j < |slot.vals| =>
             if row.rule.Repeated? then Add(i, [NormVal(g, row.kind, slot.vals[j])]) else Set(i, NormVal(g, row.kind, slot.vals[j])))
  }

  function Effects(g: Grammar, t: nat, m: Msg, n: nat): seq<Effect>
    requires GrammarOk(g) && t < |g| && ValidMsg(g, t, m) && n <= |m.slots|
  {
    if n == 0 then [] else Effects(g, t, m, n - 1) + RowEffects(g, n - 1, g[t].plan[n - 1], m.slots[n - 1])
  }

  lemma {:induction false} PushesInto(g: Grammar, i: nat, row: Row, slot: Slot, earlier: Slot, n: nat)
    requires GrammarOk(g) && KindOk(g, row.kind) && ValidSlot(g, row, slot)
    requires row.rule.Repeated? && n <= |slot.vals|
    ensures SlotAfter(earlier, i, RowEffects(g, i, row, slot)[n..]) == Slot(earlier.vals + NormVals(g, row, slot)[n..])
    decreases |slot.vals| - n
  {
    var es, vs := RowEffects(g, i, row, slot), NormVals(g, row, slot);
    if n < |slot.vals| {
      var next := Slot(earlier.vals + [vs[n]]);
      assert es[n..][1..] == es[n + 1..];
      PushesInto(g, i, row, slot, next, n + 1);
      assert next.vals + vs[n + 1..] == earlier.vals + vs[n..];
    } else {
      assert earlier.vals + vs[n..] == earlier.vals;
    }
  }

  lemma RowEffectsMerge(g: Grammar, i: nat, row: Row, earlier: Slot, slot: Slot)
    requires GrammarOk(g) && KindOk(g, row.kind) && ValidSlot(g, row, slot)
    requires row.rule.Packed? ==> row.kind == KInt32
    ensures SlotAfter(earlier, i, RowEffects(g, i, row, slot)) == MergeSlot(g, row, earlier, slot)
  {
    var es := RowEffects(g, i, row, slot);
    match row.rule
    case Repeated =>
      PushesInto(g, i, row, slot, earlier, 0);
      assert es[0..] == es && NormVals(g, row, slot)[0..] == NormVals(g, row, slot);
    case Packed =>
      assert NormVals(g, row, slot) == slot.vals;
    case _ =>
      if es != [] {
        assert es[1..] == [];
        assert NormVals(g, row, slot) == [es[0].val];
      }
  }

  lemma {:induction false} SlotAfterAppend(slot: Slot, i: nat, es: seq<Effect>, fs: seq<Effect>)
    ensures SlotAfter(slot, i, es + fs) == SlotAfter(SlotAfter(slot, i, es), i, fs)
    decreases |es|
  {
    if es == [] {
      assert es + fs == fs;
    } else {
      assert (es + fs)[1..] == es[1..] + fs;
      SlotAfterAppend(SlotStep(slot, i, es[0]), i, es[1..], fs);
    }
  }

  lemma {:induction false} OtherRowsLeaveSlot(slot: Slot, i: nat, es: seq<Effect>)
    requires forall e | e in es :: e.Nop? || e.slot != i
    ensures SlotAfter(slot, i, es) == slot
    decreases |es|
  {
    if es != [] {
      OtherRowsLeaveSlot(slot, i, es[1..]);
    }
  }

  lemma RowEffectsSlot(g: Grammar, i: nat, row: Row, slot: Slot)
    requires GrammarOk(g) && KindOk(g, row.kind) && ValidSlot(g, row, slot)
    ensures forall e | e in RowEffects(g, i, row, slot) :: !e.Nop? && e.slot == i
  {
  }

  lemma RowEffectsOnSlot(g: Grammar, i: nat, row: Row, slot: Slot, earlier: Slot, k: nat)
    requires GrammarOk(g) && KindOk(g, row.kind) && ValidSlot(g, row, slot)
    requires row.rule.Packed? ==> row.kind == KInt32
    ensures SlotAfter(earlier, k, RowEffects(g, i, row, slot)) == if k == i then MergeSlot(g, row, earlier, slot) else earlier
  {
    if i == k {
      RowEffectsMerge(g, i, row, earlier, slot);
    } else {
      RowEffectsSlot(g, i, row, slot);
      OtherRowsLeaveSlot(earlier, k, RowEffects(g, i, row, slot));
    }
  }

  lemma EffectsOfOneMoreRow(g: Grammar, t: nat, earlier: Slot, m: Msg, k: nat, i: nat)
    requires GrammarOk(g) && t < |g| && ValidMsg(g, t, m)
    requires k < |m.slots|
    ensures var before := SlotAfter(earlier, i, Effects(g, t, m, k));
      SlotAfter(earlier, i, Effects(g, t, m, k + 1))
        == if i == k then MergeSlot(g, g[t].plan[k], before, m.slots[k]) else before
  {
    assert RowOk(g, g[t], k);
    var before, row := Effects(g, t, m, k), RowEffects(g, k, g[t].plan[k], m.slots[k]);
    SlotAfterAppend(earlier, i, before, row);
    RowEffectsOnSlot(g, k, g[t].plan[k], m.slots[k], SlotAfter(earlier, i, before), i);
  }

  lemma {:induction false} EffectsMerge(g: Grammar, t: nat, n: Msg, m: Msg, k: nat, i: nat)
    requires GrammarOk(g) && t < |g| && ValidMsg(g, t, m)
    requires |n.slots| == |m.slots| == |g[t].plan| && i < |m.slots| && k <= |m.slots|
    ensures SlotAfter(n.slots[i], i, Effects(g, t, m, k))
         == if i < k then MergeSlot(g, g[t].plan[i], n.slots[i], m.slots[i]) else n.slots[i]
    decreases k
  {
    hide *;
    if k == 0 {
      EffectsOfNoRows(g, t, n.slots[i], m, i);
    } else {
      EffectsMerge(g, t, n, m, k - 1, i);
      EffectsOfOneMoreRow(g, t, n.slots[i], m, k - 1, i);
    }
  }

  lemma EffectsOfNoRows(g: Grammar, t: nat, earlier: Slot, m: Msg, i: nat)
    requires GrammarOk(g) && t < |g| && ValidMsg(g, t, m)
    ensures SlotAfter(earlier, i, Effects(g, t, m, 0)) == earlier
  {
  }

  lemma ApplyEffectsIsMerge(g: Grammar, t: nat, n: Msg, m: Msg)
    requires GrammarOk(g) && t < |g| && ValidMsg(g, t, m)
    requires |n.slots| == |m.slots|
    requires forall e | e in Effects(g, t, m, |m.slots|) :: EffectOk(e, |n.slots|)
    ensures ApplyAll(n, Effects(g, t, m, |m.slots|)) == Merge(g, t, n, m)
  {
    var es := Effects(g, t, m, |m.slots|);
    forall i | 0 <= i < |m.slots| ensures ApplyAll(n, es).slots[i] == Merge(g, t, n, m).slots[i] {
      ApplyAllBySlot(n, es, i);
      EffectsMerge(g, t, n, m, |m.slots|, i);
    }
    assert ApplyAll(n, es).slots == Merge(g, t, n, m).slots;
  }

  // ---------------------------------------------------------------- what each row writes reads back

  lemma Int32Reads(i: int, rest: bytes)
    requires -TWO_31 <= i < TWO_31
    ensures ReadInt32(Varint(Unsigned64(i)) + rest, 0) == Got(i, |Varint(Unsigned64(i))|)
  {
    ReadVarintWritten(Unsigned64(i), rest);
    Int32RoundTrip(i);
  }

  /** A 64-bit varint in any form, anywhere in the input, gives the exact integer when a double holds it
      exactly, and throws otherwise. */
  lemma LongExact(buf: bytes, pos: nat, signed: bool)
    requires ReadVarint(buf, pos).Got?
    ensures var v := ReadVarint(buf, pos);
      var i := if signed then Signed(v.val, TWO_63) else v.val % TWO_64;
      ReadLong(buf, pos, signed) == if -MAX_SAFE <= i <= MAX_SAFE then Got(i, v.pos) else Fail
  {
    hide ReadVarint;
  }

  /** Every integer in that range survives its varint form. */
  lemma LongRoundTrip(i: int, signed: bool, rest: bytes)
    requires -MAX_SAFE <= i <= MAX_SAFE && (signed || 0 <= i)
    ensures ReadLong(Varint(Unsigned64(i)) + rest, 0, signed) == Got(i, |Varint(Unsigned64(i))|)
  {
    ReadVarintWritten(Unsigned64(i), rest);
    LongExact(Varint(Unsigned64(i)) + rest, 0, signed);
    Int64RoundTrip(i);
    hide ReadLong, ReadVarint, Varint;
  }

  lemma BoolReads(b: bool, rest: bytes)
    ensures ReadVarint([if b then 1 else 0] + rest, 0) == Got(if b then 1 else 0, 1)
  {
    var n := if b then 1 else 0;
    assert Varint(n) == [n];
    ReadVarintWritten(n, rest);
  }

  lemma ScalarReads(k: Kind, v: Val, rest: bytes)
    requires ScalarOk(k, v)
    ensures ReadScalar(k, ScalarBytes(k, v) + rest, 0) == Got(v, |ScalarBytes(k, v)|)
  {
    hide ReadVarint, Varint, ReadBytes, ReadInt32, ReadLong, LengthPrefixed;
    match k
    case KStr => ReadBytesWritten(v.bs, rest);
    case KInt32 => Int32Reads(v.i, rest);
    case KBool => BoolReads(v.b, rest);
    case KUint64 => LongRoundTrip(v.i, false, rest);
    case KInt64 => LongRoundTrip(v.i, true, rest);
    case KDouble => assert (v.bs + rest)[0..8] == v.bs;
  }

  lemma PackedReadsCons(i: int, tail: bytes, vs: seq<Val>)
    requires -TWO_31 <= i < TWO_31
    requires ReadPacked(tail, 0, |tail|) == Got(vs, |tail|)
    ensures var head := Varint(Unsigned64(i));
      ReadPacked(head + tail, 0, |head + tail|) == Got([Int(i)] + vs, |head + tail|)
  {
    var head := Varint(Unsigned64(i));
    Int32Reads(i, tail);
    AgreesBehind(head, tail);
    ReadPackedLocal(tail, 0, |tail|, head + tail, |head|);
  }

  lemma {:induction false} PackedReads(vs: seq<Val>)
    requires forall v | v in vs :: ScalarOk(KInt32, v)
    ensures ReadPacked(PackedBytes(vs), 0, |PackedBytes(vs)|) == Got(vs, |PackedBytes(vs)|)
    decreases |vs|
  {
    if vs != [] {
      assert vs[0] in vs;
      PackedReads(vs[1..]);
      PackedReadsCons(vs[0].i, PackedBytes(vs[1..]), vs[1..]);
      assert vs == [vs[0]] + vs[1..];
    }
  }

  lemma PackedReadsBehind(head: bytes, vs: seq<Val>)
    requires forall v | v in vs :: ScalarOk(KInt32, v)
    ensures |head + PackedBytes(vs)| == |head| + |PackedBytes(vs)|
    ensures var body := PackedBytes(vs);
      ReadPacked(head + body, |head|, |body| + |head|) == Got(vs, |head + body|)
  {
    hide *;
    var body := PackedBytes(vs);
    PackedReads(vs);
    AgreesBehind(head, body);
    ReadPackedLocal(body, 0, |body|, head + body, |head|);
  }

  lemma PackedFieldReads(g: Grammar, arm: Arm, vs: seq<Val>)
    requires GrammarOk(g) && KindOk(g, arm.kind) && arm.how.PushPacked?
    requires |PackedBytes(vs)| < TWO_32
    requires forall v | v in vs :: ScalarOk(KInt32, v)
    ensures var payload := LengthPrefixed(PackedBytes(vs));
      ReadField(g, arm, payload, 0) == Got(Add(arm.slot, vs), |payload|)
  {
    hide GrammarOk, KindOk, ReadPacked, ReadUint32, Varint, PackedBytes;
    var body := PackedBytes(vs);
    ReadUint32Written(|body|, body);
    PackedReadsBehind(Varint(|body|), vs);
  }

  /** A length-prefixed sub-message that a loop reads to its end. */
  lemma SubMessageReads(g: Grammar, s: nat, body: bytes, m: Msg)
    requires GrammarOk(g) && s < |g| && |body| < TWO_32
    requires |g[s].base.slots| == |g[s].plan|
    requires Loop(g, s, body, 0, |body|, g[s].base) == Got(m, |body|)
    ensures ReadValue(g, KMsg(s), LengthPrefixed(body), 0) == Got(Sub(m), |LengthPrefixed(body)|)
  {
    var head := Varint(|body|);
    ReadUint32Written(|body|, body);
    LoopBehind(g, s, g[s].base, head, body);
  }

  lemma {:induction false} PayloadReads(g: Grammar, k: Kind, v: Val)
    requires GrammarOk(g) && KindOk(g, k) && ValidVal(g, k, v)
    ensures ReadValue(g, k, Payload(g, k, v), 0) == Got(NormVal(g, k, v), |Payload(g, k, v)|)
    decreases v, 0
  {
    if k.KMsg? {
      DecodeIsolated(g, k.schema, v.m, g[k.schema].base);
      MergeIntoBaseIsNorm(g, k.schema, v.m);
      SubMessageReads(g, k.schema, Encode(g, k.schema, v.m), Norm(g, k.schema, v.m));
    } else {
      ScalarReads(k, v, []);
      assert ScalarBytes(k, v) + [] == ScalarBytes(k, v);
    }
  }

  lemma StepIs(g: Grammar, t: nat, tag: nat, c: bytes, p: nat, e: Effect)
    requires GrammarOk(g) && t < |g| && tag in g[t].arms && p <= |c|
    requires KindOk(g, g[t].arms[tag].kind)
    requires ReadUint32(c, 0) == Got(tag, p)
    requires ReadField(g, g[t].arms[tag], c, p) == Got(e, |c|)
    ensures IsRecord(g, t, c, e)
  {
  }

  /** A tag followed by a payload that reads back is one record. */
  lemma TaggedRecord(g: Grammar, t: nat, tag: nat, payload: bytes, e: Effect)
    requires GrammarOk(g) && t < |g| && tag < TWO_32 && tag in g[t].arms
    requires KindOk(g, g[t].arms[tag].kind)
    requires ReadField(g, g[t].arms[tag], payload, 0) == Got(e, |payload|)
    ensures IsRecord(g, t, Varint(tag) + payload, e)
  {
    hide *;
    ReadUint32Written(tag, payload);
    ReadFieldBehind(g, g[t].arms[tag], Varint(tag), payload);
    StepIs(g, t, tag, Varint(tag) + payload, |Varint(tag)|, e);
  }

  lemma PackedRecord(g: Grammar, t: nat, tag: nat, vs: seq<Val>)
    requires GrammarOk(g) && t < |g| && tag < TWO_32 && tag in g[t].arms
    requires ArmOk(g, g[t], g[t].arms[tag]) && g[t].arms[tag].how.PushPacked?
    requires |PackedBytes(vs)| < TWO_32
    requires forall v | v in vs :: ScalarOk(KInt32, v)
    ensures IsRecord(g, t, Varint(tag) + LengthPrefixed(PackedBytes(vs)), Add(g[t].arms[tag].slot, vs))
  {
    PackedFieldReads(g, g[t].arms[tag], vs);
    TaggedRecord(g, t, tag, LengthPrefixed(PackedBytes(vs)), Add(g[t].arms[tag].slot, vs));
  }

  lemma SingleRecord(g: Grammar, t: nat, i: nat, v: Val)
    requires GrammarOk(g) && t < |g| && i < |g[t].plan| && RowOk(g, g[t], i)
    requires !g[t].plan[i].rule.Packed? && ValidVal(g, g[t].plan[i].kind, v)
    requires var k := g[t].plan[i].kind; ReadValue(g, k, Payload(g, k, v), 0) == Got(NormVal(g, k, v), |Payload(g, k, v)|)
    ensures IsRecord(g, t, Varint(g[t].plan[i].tag) + Payload(g, g[t].plan[i].kind, v),
              if g[t].plan[i].rule.Repeated? then Add(i, [NormVal(g, g[t].plan[i].kind, v)])
              else Set(i, NormVal(g, g[t].plan[i].kind, v)))
  {
    var row := g[t].plan[i];
    TaggedRecord(g, t, row.tag, Payload(g, row.kind, v),
      if row.rule.Repeated? then Add(i, [NormVal(g, row.kind, v)]) else Set(i, NormVal(g, row.kind, v)));
  }

  lemma {:induction false} RowRecordsStream(g: Grammar, t: nat, i: nat, slot: Slot)
    requires GrammarOk(g) && t < |g| && i < |g[t].plan| && RowOk(g, g[t], i)
    requires ValidSlot(g, g[t].plan[i], slot)
    ensures IsStream(g, t, RowRecords(g, g[t].plan[i], slot), RowEffects(g, i, g[t].plan[i], slot))
    decreases slot, 0
  {
    var row := g[t].plan[i];
    assert forall v | v in slot.vals :: ValidVal(g, row.kind, v);
    if row.rule.Packed? {
      PackedRecord(g, t, row.tag, slot.vals);
    } else {
      forall j | 0 <= j < |RowRecords(g, row, slot)|
        ensures IsRecord(g, t, RowRecords(g, row, slot)[j], RowEffects(g, i, row, slot)[j])
      {
        PayloadReads(g, row.kind, slot.vals[j]);
        SingleRecord(g, t, i, slot.vals[j]);
      }
    }
  }

  lemma {:induction false} RecordsStream(g: Grammar, t: nat, m: Msg, n: nat)
    requires GrammarOk(g) && t < |g| && ValidMsg(g, t, m) && n <= |m.slots|
    ensures IsStream(g, t, Records(g, t, m, n), Effects(g, t, m, n))
    decreases m, 0, n
  {
    if n > 0 {
      RecordsStream(g, t, m, n - 1);
      assert RowOk(g, g[t], n - 1);
      RowRecordsStream(g, t, n - 1, m.slots[n - 1]);
      StreamAppend(g, t, Records(g, t, m, n - 1), Effects(g, t, m, n - 1),
        RowRecords(g, g[t].plan[n - 1], m.slots[n - 1]), RowEffects(g, n - 1, g[t].plan[n - 1], m.slots[n - 1]));
    }
  }

  // ---------------------------------------------------------------- main results

  lemma {:induction false} DecodeIsolated(g: Grammar, t: nat, m: Msg, n: Msg)
    requires GrammarOk(g) && t < |g| && ValidMsg(g, t, m)
    requires |n.slots| == |m.slots|
    ensures Loop(g, t, Encode(g, t, m), 0, |Encode(g, t, m)|, n) == Got(Merge(g, t, n, m), |Encode(g, t, m)|)
    decreases m, 1
  {
    var cs, es := Records(g, t, m, |m.slots|), Effects(g, t, m, |m.slots|);
    RecordsStream(g, t, m, |m.slots|);
    LoopOverStream(g, t, cs, es, Flat(cs), 0, |Flat(cs)|, n);
    ApplyEffectsIsMerge(g, t, n, m);
  }

  /** A loop that has built `n` and reaches an encoding of `m`, anywhere in the input, merges `m` into
      `n` and stops exactly at the end of the encoding. */
  lemma DecodeInto(g: Grammar, t: nat, m: Msg, n: Msg, before: bytes, after: bytes)
    requires GrammarOk(g) && t < |g| && ValidMsg(g, t, m)
    requires |n.slots| == |m.slots|
    ensures var b := Encode(g, t, m);
      Loop(g, t, before + b + after, |before|, |before| + |b|, n) == Got(Merge(g, t, n, m), |before| + |b|)
  {
    hide *;
    DecodeIsolated(g, t, m, n);
    LoopBetween(g, t, n, before, Encode(g, t, m), after);
  }

  /** Encode, put any bytes before and after, decode with the length: the message comes back normalised
      and the reader stands right after it. */
  lemma DecodeEncode(g: Grammar, t: nat, m: Msg, before: bytes, after: bytes)
    requires GrammarOk(g) && t < |g| && ValidMsg(g, t, m)
    ensures Decode(g, t, before + Encode(g, t, m) + after, |before|, |Encode(g, t, m)|)
         == Got(Norm(g, t, m), |before| + |Encode(g, t, m)|)
  {
    DecodeInto(g, t, m, g[t].base, before, after);
    MergeIntoBaseIsNorm(g, t, m);
  }

  /** Two encodings back to back decode to the second merged into the first. */
  lemma DecodeConcatenation(g: Grammar, t: nat, m1: Msg, m2: Msg)
    requires GrammarOk(g) && t < |g| && ValidMsg(g, t, m1) && ValidMsg(g, t, m2)
    ensures Decode(g, t, Encode(g, t, m1) + Encode(g, t, m2), 0, |Encode(g, t, m1)| + |Encode(g, t, m2)|)
         == Got(Merge(g, t, Norm(g, t, m1), m2), |Encode(g, t, m1)| + |Encode(g, t, m2)|)
  {
    var b1, b2 := Encode(g, t, m1), Encode(g, t, m2);
    LoopOverEncoding(g, t, m1, b2);
    DecodeInto(g, t, m2, Norm(g, t, m1), b1, []);
    assert b1 + b2 + [] == b1 + b2;
  }

  lemma LoopOverEncoding(g: Grammar, t: nat, m: Msg, after: bytes)
    requires GrammarOk(g) && t < |g| && ValidMsg(g, t, m)
    ensures var b := Encode(g, t, m);
      Decode(g, t, b + after, 0, |b| + |after|) == Loop(g, t, b + after, |b|, |b| + |after|, Norm(g, t, m))
  {
    hide Loop, Records, Effects, Flat, IsStream, Norm, Merge;
    var cs, es := Records(g, t, m, |m.slots|), Effects(g, t, m, |m.slots|);
    RecordsStream(g, t, m, |m.slots|);
    LoopOverStreamThen(g, t, cs, es, after, g[t].base);
    ApplyEffectsIsMerge(g, t, g[t].base, m);
    MergeIntoBaseIsNorm(g, t, m);
  }

  lemma DecodeUpToEncoded(g: Grammar, t: nat, m: Msg, before: bytes, after: bytes)
    requires GrammarOk(g) && t < |g| && ValidMsg(g, t, m)
    ensures |before| <= |before + Encode(g, t, m) + after|
    ensures DecodeUpTo(g, t, before + Encode(g, t, m) + after, |before|, Some(|Encode(g, t, m)|))
         == Got(Norm(g, t, m), |before| + |Encode(g, t, m)|)
  {
    DecodeEncode(g, t, m, before, after);
  }
}
