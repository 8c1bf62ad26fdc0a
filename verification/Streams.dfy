/**
 Record streams. Decoding a run of whole records is a fold of their effects, so what a decode returns
 can be argued record by record.
 */
module Streams {
  import opened Wire
  import opened Codec
  import opened Locality

  function ApplyAll(m: Msg, es: seq<Effect>): (r: Msg)
    requires forall e | e in es :: EffectOk(e, |m.slots|)
    ensures |r.slots| == |m.slots|
    decreases |es|
  {
    if es == [] then m else ApplyAll(Apply(m, es[0]), es[1..])
  }

  lemma {:induction false} ApplyAllAppend(m: Msg, es: seq<Effect>, fs: seq<Effect>)
    requires forall e | e in es + fs :: EffectOk(e, |m.slots|)
    ensures forall e | e in es :: EffectOk(e, |m.slots|)
    ensures forall e | e in fs :: EffectOk(e, |m.slots|)
    ensures ApplyAll(m, es + fs) == ApplyAll(ApplyAll(m, es), fs)
    decreases |es|
  {
    assert forall e | e in es :: e in es + fs;
    assert forall e | e in fs :: e in es + fs;
    if es == [] {
      assert es + fs == fs;
    } else {
      assert (es + fs)[1..] == es[1..] + fs;
      ApplyAllAppend(Apply(m, es[0]), es[1..], fs);
    }
  }

  lemma {:induction false} FlatAppend(cs: seq<bytes>, ds: seq<bytes>)
    ensures Flat(cs + ds) == Flat(cs) + Flat(ds)
  {
    if cs == [] {
      assert cs + ds == ds;
    } else {
      assert (cs + ds)[1..] == cs[1..] + ds;
      FlatAppend(cs[1..], ds);
    }
  }

  /** The bytes `c` are one whole record to `decode` of message `t`, and do `e` to the message. */
  predicate IsRecord(g: Grammar, t: nat, c: bytes, e: Effect)
    requires GrammarOk(g) && t < |g|
  {
    ReadStep(g, t, c, 0) == Next(e, |c|)
  }

  predicate IsStream(g: Grammar, t: nat, cs: seq<bytes>, es: seq<Effect>)
    requires GrammarOk(g) && t < |g|
  {
    |cs| == |es| && forall i | 0 <= i < |cs| :: IsRecord(g, t, cs[i], es[i])
  }

  lemma StreamEffectsOk(g: Grammar, t: nat, cs: seq<bytes>, es: seq<Effect>)
    requires GrammarOk(g) && t < |g| && IsStream(g, t, cs, es)
    ensures forall e | e in es :: EffectOk(e, |g[t].plan|)
  {
    forall e | e in es ensures EffectOk(e, |g[t].plan|) {
      var i :| 0 <= i < |es| && es[i] == e;
      assert IsRecord(g, t, cs[i], es[i]);
    }
  }

  lemma StreamAppend(g: Grammar, t: nat, cs: seq<bytes>, es: seq<Effect>, ds: seq<bytes>, fs: seq<Effect>)
    requires GrammarOk(g) && t < |g| && IsStream(g, t, cs, es) && IsStream(g, t, ds, fs)
    ensures IsStream(g, t, cs + ds, es + fs)
  {
  }

  lemma FlatAt(cs: seq<bytes>, buf: bytes, pos: nat)
    requires cs != [] && Agrees(Flat(cs), 0, |Flat(cs)|, buf, pos)
    ensures |Flat(cs)| == |cs[0]| + |Flat(cs[1..])|
    ensures Agrees(cs[0], 0, |cs[0]|, buf, pos)
    ensures Agrees(Flat(cs[1..]), 0, |Flat(cs[1..])|, buf, pos + |cs[0]|)
  {
    assert forall i | 0 <= i < |cs[0]| :: cs[0][i] == Flat(cs)[i];
    assert forall i | 0 <= i < |Flat(cs[1..])| :: Flat(cs[1..])[i] == Flat(cs)[i + |cs[0]|];
  }

  lemma StreamTail(g: Grammar, t: nat, cs: seq<bytes>, es: seq<Effect>)
    requires GrammarOk(g) && t < |g| && IsStream(g, t, cs, es) && cs != []
    ensures IsRecord(g, t, cs[0], es[0]) && IsStream(g, t, cs[1..], es[1..])
    ensures |cs[0]| > 0 && EffectOk(es[0], |g[t].plan|)
  {
    assert IsRecord(g, t, cs[0], es[0]);
    forall i | 0 <= i < |cs| - 1 ensures IsRecord(g, t, cs[1..][i], es[1..][i]) {
      assert IsRecord(g, t, cs[i + 1], es[i + 1]);
    }
  }

  lemma LoopOverRecord(g: Grammar, t: nat, c: bytes, e: Effect, buf: bytes, pos: nat, end: int, m: Msg)
    requires GrammarOk(g) && t < |g| && IsRecord(g, t, c, e)
    requires |m.slots| == |g[t].plan| && pos < end
    requires pos <= |buf| && Agrees(c, 0, |c|, buf, pos)
    ensures |c| > 0 && EffectOk(e, |m.slots|)
    ensures Loop(g, t, buf, pos, end, m) == Loop(g, t, buf, pos + |c|, end, Apply(m, e))
  {
    ReadStepLocal(g, t, c, 0, buf, pos);
  }

  /** Wherever a stream lies in the input, a decode loop that reaches it applies its effects in order
      and arrives at its end. */
  lemma {:induction false} LoopOverStream(g: Grammar, t: nat, cs: seq<bytes>, es: seq<Effect>, buf: bytes,
      pos: nat, end: int, m: Msg)
    requires GrammarOk(g) && t < |g| && IsStream(g, t, cs, es)
    requires |m.slots| == |g[t].plan|
    requires pos <= |buf| && Agrees(Flat(cs), 0, |Flat(cs)|, buf, pos)
    requires pos + |Flat(cs)| <= end
    ensures forall e | e in es :: EffectOk(e, |m.slots|)
    ensures Loop(g, t, buf, pos, end, m) == Loop(g, t, buf, pos + |Flat(cs)|, end, ApplyAll(m, es))
    decreases |cs|
  {
    StreamEffectsOk(g, t, cs, es);
    if cs != [] {
      hide GrammarOk, Loop, Agrees, IsStream, IsRecord;
      FlatAt(cs, buf, pos);
      StreamTail(g, t, cs, es);
      LoopOverRecord(g, t, cs[0], es[0], buf, pos, end, m);
      LoopOverStream(g, t, cs[1..], es[1..], buf, pos + |cs[0]|, end, Apply(m, es[0]));
    }
  }

  lemma LoopOverStreamThen(g: Grammar, t: nat, cs: seq<bytes>, es: seq<Effect>, after: bytes, m: Msg)
    requires GrammarOk(g) && t < |g| && IsStream(g, t, cs, es)
    requires |m.slots| == |g[t].plan|
    ensures |Flat(cs) + after| == |Flat(cs)| + |after|
    ensures forall e | e in es :: EffectOk(e, |m.slots|)
    ensures Loop(g, t, Flat(cs) + after, 0, |Flat(cs)| + |after|, m)
         == Loop(g, t, Flat(cs) + after, |Flat(cs)|, |Flat(cs)| + |after|, ApplyAll(m, es))
  {
    hide *;
    AgreesBefore(Flat(cs), after);
    LoopOverStream(g, t, cs, es, Flat(cs) + after, 0, |Flat(cs)| + |after|, m);
  }

  /** A whole stream, in isolation. */
  lemma DecodeStream(g: Grammar, t: nat, cs: seq<bytes>, es: seq<Effect>)
    requires GrammarOk(g) && t < |g| && IsStream(g, t, cs, es)
    ensures forall e | e in es :: EffectOk(e, |g[t].plan|)
    ensures Decode(g, t, Flat(cs), 0, |Flat(cs)|) == Got(ApplyAll(g[t].base, es), |Flat(cs)|)
  {
    hide Flat, IsStream, ApplyAll;
    LoopOverStream(g, t, cs, es, Flat(cs), 0, |Flat(cs)|, g[t].base);
  }

  // ---------------------------------------------------------------- one property at a time

  /** What a list of effects leaves in one slot that held `slot`. */
  function SlotAfter(slot: Slot, i: nat, es: seq<Effect>): Slot
    decreases |es|
  {
    if es == [] then slot
    else SlotAfter(SlotStep(slot, i, es[0]), i, es[1..])
  }

  function SlotStep(slot: Slot, i: nat, e: Effect): Slot {
    match e
    case Nop => slot
    case Set(s, v) => if s == i then Slot([v]) else slot
    case Add(s, vs) => if s == i then Slot(slot.vals + vs) else slot
  }

  lemma {:induction false} ApplyAllBySlot(m: Msg, es: seq<Effect>, i: nat)
    requires forall e | e in es :: EffectOk(e, |m.slots|)
    requires i < |m.slots|
    ensures ApplyAll(m, es).slots[i] == SlotAfter(m.slots[i], i, es)
    decreases |es|
  {
    if es != [] {
      ApplyAllBySlot(Apply(m, es[0]), es[1..], i);
    }
  }

  /** The effects on one slot, in order. */
  function Touching(i: nat, es: seq<Effect>): seq<Effect> {
    if es == [] then []
    else (if !es[0].Nop? && es[0].slot == i then [es[0]] else []) + Touching(i, es[1..])
  }

  lemma {:induction false} SlotAfterTouching(slot: Slot, i: nat, es: seq<Effect>)
    ensures SlotAfter(slot, i, es) == SlotAfter(slot, i, Touching(i, es))
    decreases |es|
  {
    if es != [] {
      SlotAfterTouching(SlotStep(slot, i, es[0]), i, es[1..]);
      if !es[0].Nop? && es[0].slot == i {
        assert Touching(i, es)[1..] == Touching(i, es[1..]);
      } else {
        assert Touching(i, es) == Touching(i, es[1..]);
      }
    }
  }

  /** Two streams that agree on the order of the records within each field decode to the same message,
      however the fields are interleaved and whatever unknown records either contains. */
  lemma OrderWithinFieldsDecides(g: Grammar, t: nat, cs: seq<bytes>, es: seq<Effect>, ds: seq<bytes>, fs: seq<Effect>)
    requires GrammarOk(g) && t < |g| && IsStream(g, t, cs, es) && IsStream(g, t, ds, fs)
    requires forall i: nat | i < |g[t].plan| :: Touching(i, es) == Touching(i, fs)
    ensures Decode(g, t, Flat(cs), 0, |Flat(cs)|).Got? && Decode(g, t, Flat(ds), 0, |Flat(ds)|).Got?
    ensures Decode(g, t, Flat(cs), 0, |Flat(cs)|).val == Decode(g, t, Flat(ds), 0, |Flat(ds)|).val
  {
    DecodeStream(g, t, cs, es);
    DecodeStream(g, t, ds, fs);
    var base := g[t].base;
    var m, n := ApplyAll(base, es), ApplyAll(base, fs);
    forall i: nat | i < |base.slots| ensures m.slots[i] == n.slots[i] {
      ApplyAllBySlot(base, es, i);
      ApplyAllBySlot(base, fs, i);
      SlotAfterTouching(base.slots[i], i, es);
      SlotAfterTouching(base.slots[i], i, fs);
    }
    assert m.slots == n.slots;
  }
}
