/**
 What decode can return, on any bytes at all: repeated integers in any cutting, the fold of a record
 stream, how large the result can be, which values it can hold, and when it is its own normal form.
 */
module Decoded {
  import opened Wire
  import opened Codec
  import opened Locality
  import opened Streams
  import opened RoundTrip

  // ---------------------------------------------------------------- repeated integers in any cutting

  /** A repeated integer field arrives in pieces: one element under its own tag, or a packed run. Between
      them may be any other record. */
  datatype Piece = One(i: int) | Run(ints: seq<int>) | Else(c: bytes)

  function Ints(ints: seq<int>): (r: seq<Val>)
    ensures |r| == |ints|
  {
    seq(|ints|, j requires 0 <= j < |ints| => Int(ints[j]))
  }

  predicate Int32s(ints: seq<int>) {
    forall i | i in ints :: -TWO_31 <= i < TWO_31
  }

  predicate PieceOk(g: Grammar, t: nat, slot: nat, p: Piece)
    requires GrammarOk(g) && t < |g|
  {
    match p
    case One(i) => -TWO_31 <= i < TWO_31
    case Run(ints) => Int32s(ints) && |PackedBytes(Ints(ints))| < TWO_32
    case Else(c) =>
      var step := ReadStep(g, t, c, 0);
      step.Next? && step.pos == |c| && (step.effect.Nop? || step.effect.slot != slot)
  }

  predicate PiecesOk(g: Grammar, t: nat, slot: nat, ps: seq<Piece>)
    requires GrammarOk(g) && t < |g|
  {
    forall p | p in ps :: PieceOk(g, t, slot, p)
  }

  function PieceBytes(single: nat, packed: nat, p: Piece): bytes
    requires p.Run? ==> Int32s(p.ints)
    requires p.One? ==> -TWO_31 <= p.i < TWO_31
  {
    match p
    case One(i) => Varint(single) + Varint(Unsigned64(i))
    case Run(ints) => Varint(packed) + LengthPrefixed(PackedBytes(Ints(ints)))
    case Else(c) => c
  }

  function PiecesBytes(g: Grammar, t: nat, slot: nat, single: nat, packed: nat, ps: seq<Piece>): seq<bytes>
    requires GrammarOk(g) && t < |g| && PiecesOk(g, t, slot, ps)
  {
    seq(|ps|, j requires 0 <= j < |ps| => assert PieceOk(g, t, slot, ps[j]); PieceBytes(single, packed, ps[j]))
  }

  /** The integers of the pieces, one after the other. */
  function Elements(ps: seq<Piece>): seq<int> {
    if ps == [] then []
    else ElementsOf(ps[0]) + Elements(ps[1..])
  }

  function ElementsOf(p: Piece): seq<int> {
    match p
    case One(i) => [i]
    case Run(ints) => ints
    case Else(_) => []
  }

  /** The other records. */
  function Others(ps: seq<Piece>): seq<bytes> {
    if ps == [] then []
    else (if ps[0].Else? then [ps[0].c] else []) + Others(ps[1..])
  }

  function PieceEffect(g: Grammar, t: nat, slot: nat, p: Piece): Effect
    requires GrammarOk(g) && t < |g| && PieceOk(g, t, slot, p)
  {
    if p.Else? then ReadStep(g, t, p.c, 0).effect else Add(slot, Ints(ElementsOf(p)))
  }

  function PieceEffects(g: Grammar, t: nat, slot: nat, ps: seq<Piece>): (r: seq<Effect>)
    requires GrammarOk(g) && t < |g| && PiecesOk(g, t, slot, ps)
    ensures |r| == |ps|
  {
    if ps == [] then []
    else
      assert PieceOk(g, t, slot, ps[0]);
      [PieceEffect(g, t, slot, ps[0])] + PieceEffects(g, t, slot, ps[1..])
  }

  function OtherEffects(g: Grammar, t: nat, slot: nat, ps: seq<Piece>): (r: seq<Effect>)
    requires GrammarOk(g) && t < |g| && PiecesOk(g, t, slot, ps)
    ensures |r| == |Others(ps)|
  {
    if ps == [] then []
    else
      assert PieceOk(g, t, slot, ps[0]);
      (if ps[0].Else? then [PieceEffect(g, t, slot, ps[0])] else []) + OtherEffects(g, t, slot, ps[1..])
  }

  lemma PieceIsRecord(g: Grammar, t: nat, slot: nat, single: nat, packed: nat, p: Piece)
    requires GrammarOk(g) && t < |g| && single < TWO_32 && packed < TWO_32
    requires single in g[t].arms && g[t].arms[single] == Arm(slot, KInt32, Push)
    requires packed in g[t].arms && g[t].arms[packed] == Arm(slot, KInt32, PushPacked)
    requires PieceOk(g, t, slot, p)
    ensures IsRecord(g, t, PieceBytes(single, packed, p), PieceEffect(g, t, slot, p))
  {
    assert ArmOk(g, g[t], g[t].arms[single]) && ArmOk(g, g[t], g[t].arms[packed]);
    match p
    case One(i) =>
      Int32Reads(i, []);
      assert Varint(Unsigned64(i)) + [] == Varint(Unsigned64(i));
      assert Ints([i]) == [Int(i)];
      TaggedRecord(g, t, single, Varint(Unsigned64(i)), Add(slot, [Int(i)]));
    case Run(ints) =>
      assert forall j | 0 <= j < |ints| :: ints[j] in ints;
      PackedRecord(g, t, packed, Ints(ints));
    case Else(_) =>
  }

  lemma {:induction false} PiecesAreStream(g: Grammar, t: nat, slot: nat, single: nat, packed: nat, ps: seq<Piece>)
    requires GrammarOk(g) && t < |g| && single < TWO_32 && packed < TWO_32
    requires single in g[t].arms && g[t].arms[single] == Arm(slot, KInt32, Push)
    requires packed in g[t].arms && g[t].arms[packed] == Arm(slot, KInt32, PushPacked)
    requires PiecesOk(g, t, slot, ps)
    ensures IsStream(g, t, PiecesBytes(g, t, slot, single, packed, ps), PieceEffects(g, t, slot, ps))
    ensures IsStream(g, t, Others(ps), OtherEffects(g, t, slot, ps))
    decreases |ps|
  {
    if ps == [] {
      hide GrammarOk, ReadStep;
    } else {
      PiecesAreStream(g, t, slot, single, packed, ps[1..]);
      hide *;
      FirstPiece(g, t, slot, single, packed, ps);
    }
  }

  lemma {:induction false} PieceCons(g: Grammar, t: nat, slot: nat, single: nat, packed: nat, ps: seq<Piece>)
    requires GrammarOk(g) && t < |g| && ps != [] && PiecesOk(g, t, slot, ps) && PiecesOk(g, t, slot, ps[1..])
    ensures PieceOk(g, t, slot, ps[0])
    ensures PiecesBytes(g, t, slot, single, packed, ps)
      == [PieceBytes(single, packed, ps[0])] + PiecesBytes(g, t, slot, single, packed, ps[1..])
    ensures PieceEffects(g, t, slot, ps) == [PieceEffect(g, t, slot, ps[0])] + PieceEffects(g, t, slot, ps[1..])
  {
    assert ps[0] in ps;
    hide GrammarOk, ReadStep, PieceBytes, PieceEffect;
  }

  lemma {:induction false} OtherCons(g: Grammar, t: nat, slot: nat, single: nat, packed: nat, ps: seq<Piece>)
    requires GrammarOk(g) && t < |g| && ps != [] && PiecesOk(g, t, slot, ps) && PiecesOk(g, t, slot, ps[1..])
    ensures PieceOk(g, t, slot, ps[0])
    ensures if ps[0].Else?
      then Others(ps) == [PieceBytes(single, packed, ps[0])] + Others(ps[1..])
        && OtherEffects(g, t, slot, ps) == [PieceEffect(g, t, slot, ps[0])] + OtherEffects(g, t, slot, ps[1..])
      else Others(ps) == Others(ps[1..]) && OtherEffects(g, t, slot, ps) == OtherEffects(g, t, slot, ps[1..])
  {
    assert ps[0] in ps;
    hide GrammarOk, ReadStep, PieceEffect;
  }

  lemma {:induction false} FirstPiece(g: Grammar, t: nat, slot: nat, single: nat, packed: nat, ps: seq<Piece>)
    requires GrammarOk(g) && t < |g| && single < TWO_32 && packed < TWO_32
    requires single in g[t].arms && g[t].arms[single] == Arm(slot, KInt32, Push)
    requires packed in g[t].arms && g[t].arms[packed] == Arm(slot, KInt32, PushPacked)
    requires ps != [] && PiecesOk(g, t, slot, ps) && PiecesOk(g, t, slot, ps[1..])
    requires IsStream(g, t, PiecesBytes(g, t, slot, single, packed, ps[1..]), PieceEffects(g, t, slot, ps[1..]))
    requires IsStream(g, t, Others(ps[1..]), OtherEffects(g, t, slot, ps[1..]))
    ensures IsStream(g, t, PiecesBytes(g, t, slot, single, packed, ps), PieceEffects(g, t, slot, ps))
    ensures IsStream(g, t, Others(ps), OtherEffects(g, t, slot, ps))
  {
    hide *;
    var p, rest := ps[0], ps[1..];
    PieceCons(g, t, slot, single, packed, ps);
    OtherCons(g, t, slot, single, packed, ps);
    PieceIsRecord(g, t, slot, single, packed, p);
    PieceFits(g, t, slot, p);
    var c, e := PieceBytes(single, packed, p), PieceEffect(g, t, slot, p);
    StreamCons(g, t, c, e, PiecesBytes(g, t, slot, single, packed, rest), PieceEffects(g, t, slot, rest));
    StreamCons(g, t, c, e, Others(rest), OtherEffects(g, t, slot, rest));
  }

  lemma PieceFits(g: Grammar, t: nat, slot: nat, p: Piece)
    requires GrammarOk(g) && t < |g| && PieceOk(g, t, slot, p)
    ensures p.Run? ==> Int32s(p.ints)
    ensures p.One? ==> -TWO_31 <= p.i < TWO_31
  {
    hide GrammarOk, ReadStep;
  }

  /** What the pieces do to the list: their integers are appended. */
  lemma {:induction false} PiecesInto(g: Grammar, t: nat, slot: nat, ps: seq<Piece>, earlier: Slot)
    requires GrammarOk(g) && t < |g| && PiecesOk(g, t, slot, ps)
    ensures SlotAfter(earlier, slot, PieceEffects(g, t, slot, ps)) == Slot(earlier.vals + Ints(Elements(ps)))
    decreases |ps|
  {
    if ps == [] {
      assert earlier.vals + Ints([]) == earlier.vals;
    } else {
      assert PieceOk(g, t, slot, ps[0]);
      assert PieceEffects(g, t, slot, ps)[1..] == PieceEffects(g, t, slot, ps[1..]);
      PieceStep(g, t, slot, ps[0], earlier);
      hide GrammarOk, ReadStep, PieceOk, PieceEffect, Ints;
      PiecesInto(g, t, slot, ps[1..], Slot(earlier.vals + Ints(ElementsOf(ps[0]))));
      IntsAppend(earlier.vals, ElementsOf(ps[0]), Elements(ps[1..]));
    }
  }

  lemma PieceStep(g: Grammar, t: nat, slot: nat, p: Piece, earlier: Slot)
    requires GrammarOk(g) && t < |g| && PieceOk(g, t, slot, p)
    ensures SlotStep(earlier, slot, PieceEffect(g, t, slot, p)) == Slot(earlier.vals + Ints(ElementsOf(p)))
  {
    assert earlier.vals + Ints([]) == earlier.vals;
  }

  lemma IntsAppend(vals: seq<Val>, a: seq<int>, b: seq<int>)
    ensures vals + Ints(a) + Ints(b) == vals + Ints(a + b)
  {
    assert Ints(a + b) == Ints(a) + Ints(b);
  }

  /** Any other property is left as the other records leave it. */
  lemma {:induction false} PiecesElsewhere(g: Grammar, t: nat, slot: nat, ps: seq<Piece>, earlier: Slot, i: nat)
    requires GrammarOk(g) && t < |g| && PiecesOk(g, t, slot, ps) && i != slot
    ensures SlotAfter(earlier, i, PieceEffects(g, t, slot, ps)) == SlotAfter(earlier, i, OtherEffects(g, t, slot, ps))
    decreases |ps|
  {
    if ps != [] {
      assert PieceOk(g, t, slot, ps[0]);
      var e := PieceEffect(g, t, slot, ps[0]);
      assert PieceEffects(g, t, slot, ps)[1..] == PieceEffects(g, t, slot, ps[1..]);
      hide GrammarOk, ReadStep, PieceOk;
      PiecesElsewhere(g, t, slot, ps[1..], SlotStep(earlier, i, e), i);
      if ps[0].Else? {
        assert OtherEffects(g, t, slot, ps)[1..] == OtherEffects(g, t, slot, ps[1..]);
      } else {
        assert OtherEffects(g, t, slot, ps) == OtherEffects(g, t, slot, ps[1..]);
      }
    }
  }

  /** However a list of 32-bit integers is cut into single and packed records, and whatever other records
      stand between them, it decodes to the whole list; every other property is what it is without them. */
  lemma AnyCuttingDecodes(g: Grammar, t: nat, slot: nat, single: nat, packed: nat, ps: seq<Piece>)
    requires GrammarOk(g) && t < |g| && single < TWO_32 && packed < TWO_32
    requires single in g[t].arms && g[t].arms[single] == Arm(slot, KInt32, Push)
    requires packed in g[t].arms && g[t].arms[packed] == Arm(slot, KInt32, PushPacked)
    requires PiecesOk(g, t, slot, ps)
    ensures slot < |g[t].base.slots|
    ensures var bs, rest := Flat(PiecesBytes(g, t, slot, single, packed, ps)), Flat(Others(ps));
      var without := Decode(g, t, rest, 0, |rest|);
      && without.Got? && |without.val.slots| == |g[t].base.slots|
      && Decode(g, t, bs, 0, |bs|)
         == Got(Msg(without.val.slots[slot := Slot(g[t].base.slots[slot].vals + Ints(Elements(ps)))]), |bs|)
  {
    assert ArmOk(g, g[t], g[t].arms[single]);
    var base, es, fs := g[t].base, PieceEffects(g, t, slot, ps), OtherEffects(g, t, slot, ps);
    PiecesAreStream(g, t, slot, single, packed, ps);
    DecodeStream(g, t, PiecesBytes(g, t, slot, single, packed, ps), es);
    DecodeStream(g, t, Others(ps), fs);
    hide GrammarOk, Decode, Flat, IsStream, ApplyAll, PieceEffects, OtherEffects;
    var m, n := ApplyAll(base, es), ApplyAll(base, fs);
    forall i: nat | i < |base.slots|
      ensures m.slots[i] == if i == slot then Slot(base.slots[slot].vals + Ints(Elements(ps))) else n.slots[i]
    {
      ApplyAllBySlot(base, es, i);
      ApplyAllBySlot(base, fs, i);
      if i == slot {
        PiecesInto(g, t, slot, ps, base.slots[i]);
      } else {
        PiecesElsewhere(g, t, slot, ps, base.slots[i], i);
      }
    }
    assert m.slots == n.slots[slot := Slot(base.slots[slot].vals + Ints(Elements(ps)))];
  }

  // ---------------------------------------------------------------- every decode is a fold over records

  /** Where a decode loop leaves off: past `end`, or before the tag that stops it. */
  function LeavesAt(g: Grammar, t: nat, buf: bytes, pos: nat, end: int): (k: nat)
    requires GrammarOk(g) && t < |g| && pos <= |buf|
    ensures pos <= k <= |buf|
    decreases |buf| - pos
  {
    if pos >= end then pos
    else match ReadStep(g, t, buf, pos) case Next(_, p) => LeavesAt(g, t, buf, p, end) case _ => pos
  }

  /** The input up to there, cut where the loop turned. */
  function Cut(g: Grammar, t: nat, buf: bytes, pos: nat, end: int): seq<bytes>
    requires GrammarOk(g) && t < |g| && pos <= |buf|
    decreases |buf| - pos
  {
    if pos >= end then []
    else match ReadStep(g, t, buf, pos) case Next(_, p) => [buf[pos..p]] + Cut(g, t, buf, p, end) case _ => []
  }

  function CutEffects(g: Grammar, t: nat, buf: bytes, pos: nat, end: int): seq<Effect>
    requires GrammarOk(g) && t < |g| && pos <= |buf|
    decreases |buf| - pos
  {
    if pos >= end then []
    else match ReadStep(g, t, buf, pos) case Next(e, p) => [e] + CutEffects(g, t, buf, p, end) case _ => []
  }

  lemma SliceIsRecord(g: Grammar, t: nat, buf: bytes, pos: nat)
    requires GrammarOk(g) && t < |g| && pos <= |buf| && ReadStep(g, t, buf, pos).Next?
    ensures IsRecord(g, t, buf[pos..ReadStep(g, t, buf, pos).pos], ReadStep(g, t, buf, pos).effect)
  {
    var c := buf[pos..ReadStep(g, t, buf, pos).pos];
    ReadStepLocal(g, t, buf, pos, c, 0 - pos as int);
  }

  lemma StreamCons(g: Grammar, t: nat, c: bytes, e: Effect, cs: seq<bytes>, es: seq<Effect>)
    requires GrammarOk(g) && t < |g| && IsRecord(g, t, c, e) && IsStream(g, t, cs, es)
    ensures IsStream(g, t, [c] + cs, [e] + es) && Flat([c] + cs) == c + Flat(cs)
  {
    assert ([c] + cs)[1..] == cs;
  }

  lemma {:induction false} CutIsStream(g: Grammar, t: nat, buf: bytes, pos: nat, end: int)
    requires GrammarOk(g) && t < |g| && pos <= |buf|
    ensures IsStream(g, t, Cut(g, t, buf, pos, end), CutEffects(g, t, buf, pos, end))
    ensures Flat(Cut(g, t, buf, pos, end)) == buf[pos..LeavesAt(g, t, buf, pos, end)]
    decreases |buf| - pos
  {
    if pos < end && ReadStep(g, t, buf, pos).Next? {
      var Next(e, p) := ReadStep(g, t, buf, pos);
      SliceIsRecord(g, t, buf, pos);
      CutIsStream(g, t, buf, p, end);
      StreamCons(g, t, buf[pos..p], e, Cut(g, t, buf, p, end), CutEffects(g, t, buf, p, end));
      var k := LeavesAt(g, t, buf, pos, end);
      assert buf[pos..p] + buf[p..k] == buf[pos..k];
    }
  }

  /** Every decode that does not throw, on any bytes, read a stream of whole records and returns the fold
      of their effects; it left off at or past the end it was given, or at an end-group or zero tag. */
  lemma {:induction false} DecodeIsFold(g: Grammar, t: nat, buf: bytes, pos: nat, end: int, m: Msg)
    requires GrammarOk(g) && t < |g| && pos <= |buf| && |m.slots| == |g[t].plan|
    requires Loop(g, t, buf, pos, end, m).Got?
    ensures var k := LeavesAt(g, t, buf, pos, end);
      var r := Loop(g, t, buf, pos, end, m);
      if k >= end then r.pos == k else ReadStep(g, t, buf, k) == Stop(r.pos)
    ensures IsStream(g, t, Cut(g, t, buf, pos, end), CutEffects(g, t, buf, pos, end))
    ensures Flat(Cut(g, t, buf, pos, end)) == buf[pos..LeavesAt(g, t, buf, pos, end)]
    ensures forall e | e in CutEffects(g, t, buf, pos, end) :: EffectOk(e, |m.slots|)
    ensures Loop(g, t, buf, pos, end, m).val == ApplyAll(m, CutEffects(g, t, buf, pos, end))
    decreases |buf| - pos
  {
    CutIsStream(g, t, buf, pos, end);
    StreamEffectsOk(g, t, Cut(g, t, buf, pos, end), CutEffects(g, t, buf, pos, end));
    if pos < end {
      var step := ReadStep(g, t, buf, pos);
      if step.Next? {
        DecodeIsFold(g, t, buf, step.pos, end, Apply(m, step.effect));
        assert CutEffects(g, t, buf, pos, end)[1..] == CutEffects(g, t, buf, step.pos, end);
      }
    }
  }

  // ---------------------------------------------------------------- how much a decode can build

  /** The sub-messages below a message, at every depth. */
  function Subs(m: Msg): nat
    decreases m, 1
  {
    SubsIn(m.slots)
  }

  function SubsIn(slots: seq<Slot>): nat
    decreases slots, 0
  {
    if slots == [] then 0 else SubsOf(slots[0].vals) + SubsIn(slots[1..])
  }

  function SubsOf(vs: seq<Val>): nat
    decreases vs, 0
  {
    if vs == [] then 0 else SubsOfOne(vs[0]) + SubsOf(vs[1..])
  }

  function SubsOfOne(v: Val): nat
    decreases v, 0
  {
    if v.Sub? then 1 + Subs(v.m) else 0
  }

  lemma {:induction false} SubsOfAppend(vs: seq<Val>, ws: seq<Val>)
    ensures SubsOf(vs + ws) == SubsOf(vs) + SubsOf(ws)
    decreases |vs|
  {
    if vs == [] {
      assert vs + ws == ws;
    } else {
      assert (vs + ws)[1..] == vs[1..] + ws;
      SubsOfAppend(vs[1..], ws);
    }
  }

  lemma {:induction false} SubsInUpdate(slots: seq<Slot>, i: nat, slot: Slot)
    requires i < |slots|
    ensures SubsIn(slots[i := slot]) + SubsOf(slots[i].vals) == SubsIn(slots) + SubsOf(slot.vals)
    decreases |slots|
  {
    if i == 0 {
      assert slots[i := slot][1..] == slots[1..];
    } else {
      assert slots[i := slot][1..] == slots[1..][i - 1 := slot];
      SubsInUpdate(slots[1..], i - 1, slot);
    }
  }

  function SubsAdded(e: Effect): nat {
    match e
    case Nop => 0
    case Set(_, v) => SubsOf([v])
    case Add(_, vs) => SubsOf(vs)
  }

  lemma SubsApply(m: Msg, e: Effect)
    requires EffectOk(e, |m.slots|)
    ensures Subs(Apply(m, e)) <= Subs(m) + SubsAdded(e)
  {
    match e
    case Nop =>
    case Set(s, v) => SubsInUpdate(m.slots, s, Slot([v]));
    case Add(s, vs) =>
      SubsInUpdate(m.slots, s, Slot(m.slots[s].vals + vs));
      SubsOfAppend(m.slots[s].vals, vs);
  }

  lemma {:induction false} NoSubsIn(slots: seq<Slot>)
    requires forall i | 0 <= i < |slots| :: slots[i].vals == [] || (|slots[i].vals| == 1 && !slots[i].vals[0].Sub?)
    ensures SubsIn(slots) == 0
    decreases |slots|
  {
    if slots != [] {
      var vals := slots[0].vals;
      assert vals == [] || (vals == [vals[0]] && vals[1..] == []);
      assert SubsOf(vals) == 0;
      NoSubsIn(slots[1..]);
    }
  }

  lemma BaseHasNoSubs(g: Grammar, t: nat)
    requires GrammarOk(g) && t < |g|
    ensures Subs(g[t].base) == 0
  {
    forall i | 0 <= i < |g[t].base.slots|
      ensures g[t].base.slots[i].vals == [] || (|g[t].base.slots[i].vals| == 1 && !g[t].base.slots[i].vals[0].Sub?)
    {
      assert RowOk(g, g[t], i);
    }
    NoSubsIn(g[t].base.slots);
  }

  lemma {:induction false} PackedHasNoSubs(buf: bytes, pos: nat, end: int)
    requires pos <= |buf| && ReadPacked(buf, pos, end).Got?
    ensures SubsOf(ReadPacked(buf, pos, end).val) == 0
    decreases |buf| - pos
  {
    if pos < end {
      PackedHasNoSubs(buf, ReadInt32(buf, pos).pos, end);
      var i, vs := ReadInt32(buf, pos).val, ReadPacked(buf, ReadInt32(buf, pos).pos, end).val;
      assert ([Int(i)] + vs)[1..] == vs;
    }
  }

  lemma {:induction false} ValueSubs(g: Grammar, k: Kind, buf: bytes, pos: nat)
    requires GrammarOk(g) && KindOk(g, k) && pos <= |buf| && ReadValue(g, k, buf, pos).Got?
    ensures 2 * SubsOf([ReadValue(g, k, buf, pos).val]) <= ReadValue(g, k, buf, pos).pos - pos + 1
    decreases |buf| - pos, 0
  {
    var v := ReadValue(g, k, buf, pos).val;
    assert [v][1..] == [];
    if k.KMsg? {
      var len := ReadUint32(buf, pos);
      LoopSubs(g, k.schema, buf, len.pos, len.pos + len.val, g[k.schema].base);
      BaseHasNoSubs(g, k.schema);
    }
  }

  lemma {:induction false} FieldSubs(g: Grammar, arm: Arm, buf: bytes, pos: nat)
    requires GrammarOk(g) && KindOk(g, arm.kind) && pos <= |buf| && ReadField(g, arm, buf, pos).Got?
    ensures 2 * SubsAdded(ReadField(g, arm, buf, pos).val) <= ReadField(g, arm, buf, pos).pos - pos + 1
    decreases |buf| - pos, 1
  {
    if arm.how.PushPacked? {
      var len := ReadUint32(buf, pos);
      PackedHasNoSubs(buf, len.pos, len.val + len.pos);
    } else {
      ValueSubs(g, arm.kind, buf, pos);
    }
  }

  lemma {:induction false} StepSubs(g: Grammar, t: nat, buf: bytes, pos: nat)
    requires GrammarOk(g) && t < |g| && pos <= |buf| && ReadStep(g, t, buf, pos).Next?
    ensures 2 * SubsAdded(ReadStep(g, t, buf, pos).effect) <= ReadStep(g, t, buf, pos).pos - pos
    decreases |buf| - pos, 2
  {
    var tag := ReadUint32(buf, pos);
    if tag.val in g[t].arms {
      assert ArmOk(g, g[t], g[t].arms[tag.val]);
      FieldSubs(g, g[t].arms[tag.val], buf, tag.pos);
    }
  }

  /** On any bytes, a decode builds at most one sub-message for every two bytes it consumes. */
  lemma {:induction false} LoopSubs(g: Grammar, t: nat, buf: bytes, pos: nat, end: int, m: Msg)
    requires GrammarOk(g) && t < |g| && pos <= |buf| && |m.slots| == |g[t].plan|
    requires Loop(g, t, buf, pos, end, m).Got?
    ensures 2 * Subs(Loop(g, t, buf, pos, end, m).val) <= 2 * Subs(m) + Loop(g, t, buf, pos, end, m).pos - pos
    decreases |buf| - pos, 3
  {
    if pos < end {
      var step := ReadStep(g, t, buf, pos);
      if step.Next? {
        StepSubs(g, t, buf, pos);
        SubsApply(m, step.effect);
        LoopSubs(g, t, buf, step.pos, end, Apply(m, step.effect));
      }
    }
  }

  /** How deep sub-messages nest. */
  function Depth(m: Msg): nat
    decreases m, 1
  {
    DepthIn(m.slots)
  }

  function DepthIn(slots: seq<Slot>): nat
    decreases slots, 0
  {
    if slots == [] then 0 else Max(DepthOf(slots[0].vals), DepthIn(slots[1..]))
  }

  function DepthOf(vs: seq<Val>): nat
    decreases vs, 0
  {
    if vs == [] then 0 else Max(DepthOfOne(vs[0]), DepthOf(vs[1..]))
  }

  function DepthOfOne(v: Val): nat
    decreases v, 0
  {
    if v.Sub? then 1 + Depth(v.m) else 0
  }

  function Max(a: nat, b: nat): nat {
    if a < b then b else a
  }

  lemma {:induction false} DepthInAtMostSubs(slots: seq<Slot>)
    ensures DepthIn(slots) <= SubsIn(slots)
    decreases slots, 0
  {
    if slots != [] {
      DepthOfAtMostSubs(slots[0].vals);
      DepthInAtMostSubs(slots[1..]);
    }
  }

  lemma {:induction false} DepthOfAtMostSubs(vs: seq<Val>)
    ensures DepthOf(vs) <= SubsOf(vs)
    decreases vs, 0
  {
    if vs != [] {
      DepthOfOneAtMostSubs(vs[0]);
      DepthOfAtMostSubs(vs[1..]);
    }
  }

  lemma {:induction false} DepthOfOneAtMostSubs(v: Val)
    ensures DepthOfOne(v) <= SubsOfOne(v)
    decreases v, 0
  {
    if v.Sub? {
      DepthAtMostSubs(v.m);
    }
  }

  lemma {:induction false} DepthAtMostSubs(m: Msg)
    ensures Depth(m) <= Subs(m)
    decreases m, 1
  {
    DepthInAtMostSubs(m.slots);
  }

  /** Decoding any input builds at most half as many sub-messages as it has bytes, nested at most that deep. */
  lemma DecodeIsBounded(g: Grammar, t: nat, buf: bytes)
    requires GrammarOk(g) && t < |g| && Decode(g, t, buf, 0, |buf|).Got?
    ensures Subs(Decode(g, t, buf, 0, |buf|).val) <= |buf| / 2
    ensures Depth(Decode(g, t, buf, 0, |buf|).val) <= |buf| / 2
  {
    LoopSubs(g, t, buf, 0, |buf|, g[t].base);
    BaseHasNoSubs(g, t);
    DepthAtMostSubs(Decode(g, t, buf, 0, |buf|).val);
  }

  // ---------------------------------------------------------------- which messages are fixed points

  /** The shape of what decode returns: every defaulted property has its one value. */
  predicate Full(g: Grammar, t: nat, m: Msg)
    requires GrammarOk(g) && t < |g|
    decreases m, 1
  {
    && |m.slots| == |g[t].plan|
    && forall i | 0 <= i < |m.slots| :: FullSlot(g, g[t].plan[i], m.slots[i])
  }

  predicate FullSlot(g: Grammar, row: Row, slot: Slot)
    requires GrammarOk(g) && KindOk(g, row.kind)
    decreases slot, 0
  {
    && (row.rule.Implicit? ==> |slot.vals| == 1)
    && (row.rule.Explicit? ==> |slot.vals| <= 1)
    && forall v | v in slot.vals :: FullVal(g, row.kind, v)
  }

  predicate FullVal(g: Grammar, k: Kind, v: Val)
    requires GrammarOk(g) && KindOk(g, k)
    decreases v, 0
  {
    if k.KMsg? then v.Sub? && Full(g, k.schema, v.m) else ScalarOk(k, v)
  }

  lemma BaseIsFull(g: Grammar, t: nat)
    requires GrammarOk(g) && t < |g|
    ensures Full(g, t, g[t].base)
  {
    forall i | 0 <= i < |g[t].base.slots| ensures FullSlot(g, g[t].plan[i], g[t].base.slots[i]) {
      assert RowOk(g, g[t], i);
    }
  }

  predicate FullEffect(g: Grammar, t: nat, e: Effect)
    requires GrammarOk(g) && t < |g|
  {
    match e
    case Nop => true
    case Set(s, v) => s < |g[t].plan| && HowFor(g[t].plan[s].rule).Assign? && FullVal(g, g[t].plan[s].kind, v)
    case Add(s, vs) => s < |g[t].plan| && !HowFor(g[t].plan[s].rule).Assign? && forall v | v in vs :: FullVal(g, g[t].plan[s].kind, v)
  }

  lemma FullApply(g: Grammar, t: nat, m: Msg, e: Effect)
    requires GrammarOk(g) && t < |g| && Full(g, t, m) && FullEffect(g, t, e)
    ensures EffectOk(e, |m.slots|) && Full(g, t, Apply(m, e))
  {
    var r := Apply(m, e);
    forall i | 0 <= i < |r.slots| ensures FullSlot(g, g[t].plan[i], r.slots[i]) {
      assert FullSlot(g, g[t].plan[i], m.slots[i]);
    }
  }

  lemma {:induction false} PackedIsFull(buf: bytes, pos: nat, end: int)
    requires pos <= |buf| && ReadPacked(buf, pos, end).Got?
    ensures forall v | v in ReadPacked(buf, pos, end).val :: ScalarOk(KInt32, v)
    decreases |buf| - pos
  {
    if pos < end {
      PackedIsFull(buf, ReadInt32(buf, pos).pos, end);
    }
  }

  lemma {:induction false} ValueIsFull(g: Grammar, k: Kind, buf: bytes, pos: nat)
    requires GrammarOk(g) && KindOk(g, k) && pos <= |buf|
    requires ReadValue(g, k, buf, pos).Got?
    ensures FullVal(g, k, ReadValue(g, k, buf, pos).val)
    decreases |buf| - pos, 0
  {
    if k.KMsg? {
      var len := ReadUint32(buf, pos);
      BaseIsFull(g, k.schema);
      LoopIsFull(g, k.schema, buf, len.pos, len.pos + len.val, g[k.schema].base);
    }
  }

  lemma {:induction false} FieldIsFull(g: Grammar, t: nat, arm: Arm, buf: bytes, pos: nat)
    requires GrammarOk(g) && t < |g| && ArmOk(g, g[t], arm) && pos <= |buf|
    requires ReadField(g, arm, buf, pos).Got?
    ensures FullEffect(g, t, ReadField(g, arm, buf, pos).val)
    decreases |buf| - pos, 1
  {
    if arm.how.PushPacked? {
      var len := ReadUint32(buf, pos);
      PackedIsFull(buf, len.pos, len.val + len.pos);
    } else {
      ValueIsFull(g, arm.kind, buf, pos);
    }
  }

  lemma {:induction false} StepIsFull(g: Grammar, t: nat, buf: bytes, pos: nat)
    requires GrammarOk(g) && t < |g| && pos <= |buf|
    requires ReadStep(g, t, buf, pos).Next?
    ensures FullEffect(g, t, ReadStep(g, t, buf, pos).effect)
    decreases |buf| - pos, 2
  {
    var tag := ReadUint32(buf, pos);
    if tag.val in g[t].arms {
      assert ArmOk(g, g[t], g[t].arms[tag.val]);
      FieldIsFull(g, t, g[t].arms[tag.val], buf, tag.pos);
    }
  }

  /** Whatever the bytes, a decode that does not throw returns a full message with every number in range. */
  lemma {:induction false} LoopIsFull(g: Grammar, t: nat, buf: bytes, pos: nat, end: int, m: Msg)
    requires GrammarOk(g) && t < |g| && pos <= |buf| && Full(g, t, m)
    requires Loop(g, t, buf, pos, end, m).Got?
    ensures Full(g, t, Loop(g, t, buf, pos, end, m).val)
    decreases |buf| - pos, 3
  {
    if pos < end {
      var step := ReadStep(g, t, buf, pos);
      if step.Next? {
        StepIsFull(g, t, buf, pos);
        FullApply(g, t, m, step.effect);
        LoopIsFull(g, t, buf, step.pos, end, Apply(m, step.effect));
      }
    }
  }

  /** Some double that `encode` leaves out when it is zero holds minus zero. */
  predicate HasMinusZero(g: Grammar, t: nat, m: Msg)
    requires GrammarOk(g) && t < |g| && Full(g, t, m)
    decreases m, 1
  {
    exists i | 0 <= i < |m.slots| :: MinusZeroIn(g, g[t].plan[i], m.slots[i])
  }

  predicate MinusZeroIn(g: Grammar, row: Row, slot: Slot)
    requires GrammarOk(g) && KindOk(g, row.kind) && FullSlot(g, row, slot)
    decreases slot, 0
  {
    if row.kind.KMsg? then exists v | v in slot.vals && FullVal(g, row.kind, v) :: HasMinusZero(g, row.kind.schema, v.m)
    else row.rule.Implicit? && row.kind.KDouble? && slot.vals[0] == Fixed(MINUS_ZERO)
  }

  lemma {:induction false} NormFixes(g: Grammar, t: nat, m: Msg)
    requires GrammarOk(g) && t < |g| && Full(g, t, m)
    ensures Norm(g, t, m) == m <==> !HasMinusZero(g, t, m)
    decreases m, 1
  {
    forall i | 0 <= i < |m.slots|
      ensures NormSlot(g, g[t].plan[i], m.slots[i]) == m.slots[i] <==> !MinusZeroIn(g, g[t].plan[i], m.slots[i])
    {
      assert RowOk(g, g[t], i);
      NormSlotFixes(g, g[t].plan[i], m.slots[i]);
    }
    assert forall i | 0 <= i < |m.slots| :: Norm(g, t, m).slots[i] == NormSlot(g, g[t].plan[i], m.slots[i]);
    if HasMinusZero(g, t, m) {
      var i :| 0 <= i < |m.slots| && MinusZeroIn(g, g[t].plan[i], m.slots[i]);
      assert Norm(g, t, m).slots[i] != m.slots[i];
    } else {
      assert forall i | 0 <= i < |m.slots| :: Norm(g, t, m).slots[i] == m.slots[i];
      assert Norm(g, t, m).slots == m.slots;
    }
  }

  lemma {:induction false} NormSlotFixes(g: Grammar, row: Row, slot: Slot)
    requires GrammarOk(g) && KindOk(g, row.kind) && FullSlot(g, row, slot)
    requires row.rule.Implicit? ==> !row.kind.KMsg?
    requires row.rule.Implicit? && row.kind.KDouble? ==> row.rule.default == Fixed(PLUS_ZERO)
    ensures NormSlot(g, row, slot) == slot <==> !MinusZeroIn(g, row, slot)
    decreases slot, 0
  {
    var ns := NormVals(g, row, slot);
    if row.kind.KMsg? {
      assert forall v | v in slot.vals :: FullVal(g, row.kind, v);
      forall j | 0 <= j < |slot.vals| && FullVal(g, row.kind, slot.vals[j])
        ensures ns[j] == slot.vals[j] <==> !HasMinusZero(g, row.kind.schema, slot.vals[j].m)
      {
        assert ns[j] == NormVal(g, row.kind, slot.vals[j]);
        NormFixes(g, row.kind.schema, slot.vals[j].m);
      }
      if MinusZeroIn(g, row, slot) {
        var v :| v in slot.vals && FullVal(g, row.kind, v) && HasMinusZero(g, row.kind.schema, v.m);
        var j :| 0 <= j < |slot.vals| && slot.vals[j] == v;
        assert ns[j] != slot.vals[j];
      } else {
        assert forall j | 0 <= j < |slot.vals| :: slot.vals[j] in slot.vals && ns[j] == slot.vals[j];
        assert ns == slot.vals;
      }
    } else {
      assert forall j | 0 <= j < |slot.vals| :: ns[j] == NormVal(g, row.kind, slot.vals[j]);
      assert ns == slot.vals;
      if row.rule.Implicit? {
        assert slot.vals == [slot.vals[0]];
      }
    }
  }

  /** A decoded message is a fixed point of normalisation exactly when no omittable double in it is minus
      zero: `encode` compares it equal to zero and drops it. */
  lemma DecodedIsNormal(g: Grammar, t: nat, buf: bytes)
    requires GrammarOk(g) && t < |g| && Decode(g, t, buf, 0, |buf|).Got?
    ensures Full(g, t, Decode(g, t, buf, 0, |buf|).val)
    ensures var m := Decode(g, t, buf, 0, |buf|).val; Norm(g, t, m) == m <==> !HasMinusZero(g, t, m)
  {
    BaseIsFull(g, t);
    LoopIsFull(g, t, buf, 0, |buf|, g[t].base);
    NormFixes(g, t, Decode(g, t, buf, 0, |buf|).val);
  }
}
