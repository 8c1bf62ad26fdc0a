/**
 One turn of a decode loop, by what its switch does with the tag. These are the equations a hand-written
 loop is checked against.
 */
module Turns {
  import opened Wire
  import opened Codec

  /** Puts a value read for an arm into the message. */
  function Put(m: Msg, slot: nat, how: How, v: Val): (r: Msg)
    requires slot < |m.slots|
    ensures |r.slots| == |m.slots|
  {
    Apply(m, if how.Assign? then Set(slot, v) else Add(slot, [v]))
  }

  lemma DecodeIsLoop(g: Grammar, t: nat, buf: bytes, pos: nat, length: Option<nat>, end: nat)
    requires GrammarOk(g) && t < |g| && pos <= |buf|
    requires end == if length.None? then |buf| else pos + length.value
    ensures |g[t].base.slots| == |g[t].plan|
    ensures DecodeUpTo(g, t, buf, pos, length) == Loop(g, t, buf, pos, end, g[t].base)
  {
  }

  /** A tag some arm takes: the value is read and put in its place, or the loop throws. */
  lemma ArmTurn(g: Grammar, t: nat, buf: bytes, pos: nat, end: int, m: Msg, tag: nat, p: nat, arm: Arm)
    requires GrammarOk(g) && t < |g| && pos <= |buf| && pos < end && |m.slots| == |g[t].plan|
    requires ReadUint32(buf, pos) == Got(tag, p)
    requires tag in g[t].arms && g[t].arms[tag] == arm && !arm.how.PushPacked?
    ensures KindOk(g, arm.kind) && arm.slot < |m.slots| && p <= |buf|
    ensures var v := ReadValue(g, arm.kind, buf, p);
      if v.Fail? then Loop(g, t, buf, pos, end, m).Fail?
      else Loop(g, t, buf, pos, end, m) == Loop(g, t, buf, v.pos, end, Put(m, arm.slot, arm.how, v.val))
  {
    assert ArmOk(g, g[t], g[t].arms[tag]);
    assert ReadStep(g, t, buf, pos) == AfterTag(g, t, tag, buf, p);
    assert ReadField(g, arm, buf, p).Fail? <==> ReadValue(g, arm.kind, buf, p).Fail?;
  }

  lemma ScalarTurn(g: Grammar, t: nat, buf: bytes, pos: nat, end: int, m: Msg, tag: nat, p: nat, arm: Arm)
    requires GrammarOk(g) && t < |g| && pos <= |buf| && pos < end && |m.slots| == |g[t].plan|
    requires ReadUint32(buf, pos) == Got(tag, p)
    requires tag in g[t].arms && g[t].arms[tag] == arm && !arm.how.PushPacked? && !arm.kind.KMsg?
    ensures arm.slot < |m.slots| && p <= |buf|
    ensures var v := ReadScalar(arm.kind, buf, p);
      if v.Fail? then Loop(g, t, buf, pos, end, m).Fail?
      else Loop(g, t, buf, pos, end, m) == Loop(g, t, buf, v.pos, end, Put(m, arm.slot, arm.how, v.val))
  {
    hide *;
    ArmTurn(g, t, buf, pos, end, m, tag, p, arm);
    ValueOfScalar(g, arm.kind, buf, p);
  }

  lemma ValueOfScalar(g: Grammar, k: Kind, buf: bytes, p: nat)
    requires GrammarOk(g) && KindOk(g, k) && p <= |buf| && !k.KMsg?
    ensures ReadValue(g, k, buf, p) == ReadScalar(k, buf, p)
  {
  }

  /** A string or byte array. */
  lemma StrTurn(g: Grammar, t: nat, buf: bytes, pos: nat, end: int, m: Msg, tag: nat, p: nat, slot: nat, how: How)
    requires GrammarOk(g) && t < |g| && pos <= |buf| && pos < end && |m.slots| == |g[t].plan|
    requires ReadUint32(buf, pos) == Got(tag, p)
    requires tag in g[t].arms && g[t].arms[tag] == Arm(slot, KStr, how) && !how.PushPacked?
    ensures slot < |m.slots| && p <= |buf|
    ensures var v := ReadBytes(buf, p);
      if v.Fail? then Loop(g, t, buf, pos, end, m).Fail?
      else Loop(g, t, buf, pos, end, m) == Loop(g, t, buf, v.pos, end, Put(m, slot, how, Str(v.val)))
  {
    hide GrammarOk, Loop, Put;
    ScalarTurn(g, t, buf, pos, end, m, tag, p, Arm(slot, KStr, how));
  }

  /** A flag. */
  lemma BoolTurn(g: Grammar, t: nat, buf: bytes, pos: nat, end: int, m: Msg, tag: nat, p: nat, slot: nat)
    requires GrammarOk(g) && t < |g| && pos <= |buf| && pos < end && |m.slots| == |g[t].plan|
    requires ReadUint32(buf, pos) == Got(tag, p)
    requires tag in g[t].arms && g[t].arms[tag] == Arm(slot, KBool, Assign)
    ensures slot < |m.slots| && p <= |buf|
    ensures var v := ReadScalar(KBool, buf, p);
      if v.Fail? then Loop(g, t, buf, pos, end, m).Fail?
      else Loop(g, t, buf, pos, end, m) == Loop(g, t, buf, v.pos, end, Put(m, slot, Assign, v.val))
  {
    hide *;
    ScalarTurn(g, t, buf, pos, end, m, tag, p, Arm(slot, KBool, Assign));
  }

  /** A double. */
  lemma DoubleTurn(g: Grammar, t: nat, buf: bytes, pos: nat, end: int, m: Msg, tag: nat, p: nat, slot: nat)
    requires GrammarOk(g) && t < |g| && pos <= |buf| && pos < end && |m.slots| == |g[t].plan|
    requires ReadUint32(buf, pos) == Got(tag, p)
    requires tag in g[t].arms && g[t].arms[tag] == Arm(slot, KDouble, Assign)
    ensures slot < |m.slots| && p <= |buf|
    ensures var v := ReadScalar(KDouble, buf, p);
      if v.Fail? then Loop(g, t, buf, pos, end, m).Fail?
      else Loop(g, t, buf, pos, end, m) == Loop(g, t, buf, v.pos, end, Put(m, slot, Assign, v.val))
  {
    hide *;
    ScalarTurn(g, t, buf, pos, end, m, tag, p, Arm(slot, KDouble, Assign));
  }

  /** One 32-bit integer. */
  lemma IntTurn(g: Grammar, t: nat, buf: bytes, pos: nat, end: int, m: Msg, tag: nat, p: nat, slot: nat, how: How)
    requires GrammarOk(g) && t < |g| && pos <= |buf| && pos < end && |m.slots| == |g[t].plan|
    requires ReadUint32(buf, pos) == Got(tag, p)
    requires tag in g[t].arms && g[t].arms[tag] == Arm(slot, KInt32, how) && !how.PushPacked?
    ensures slot < |m.slots| && p <= |buf|
    ensures var v := ReadInt32(buf, p);
      if v.Fail? then Loop(g, t, buf, pos, end, m).Fail?
      else Loop(g, t, buf, pos, end, m) == Loop(g, t, buf, v.pos, end, Put(m, slot, how, Int(v.val)))
  {
    hide GrammarOk, Loop, Put;
    ScalarTurn(g, t, buf, pos, end, m, tag, p, Arm(slot, KInt32, how));
  }

  /** One 32-bit integer of a list. */
  lemma ElementTurn(g: Grammar, t: nat, buf: bytes, pos: nat, end: int, m: Msg, tag: nat, p: nat, slot: nat)
    requires GrammarOk(g) && t < |g| && pos <= |buf| && pos < end && |m.slots| == |g[t].plan|
    requires ReadUint32(buf, pos) == Got(tag, p)
    requires tag in g[t].arms && g[t].arms[tag] == Arm(slot, KInt32, Push)
    ensures slot < |m.slots| && p <= |buf|
    ensures var v := ReadInt32(buf, p);
      if v.Fail? then Loop(g, t, buf, pos, end, m).Fail?
      else Loop(g, t, buf, pos, end, m) == Loop(g, t, buf, v.pos, end, Apply(m, Add(slot, [Int(v.val)])))
  {
    hide GrammarOk, Loop, ReadInt32, ReadUint32;
    IntTurn(g, t, buf, pos, end, m, tag, p, slot, Push);
  }

  /** A 64-bit integer, which must fit a number exactly. */
  lemma LongTurn(g: Grammar, t: nat, buf: bytes, pos: nat, end: int, m: Msg, tag: nat, p: nat, slot: nat, signed: bool)
    requires GrammarOk(g) && t < |g| && pos <= |buf| && pos < end && |m.slots| == |g[t].plan|
    requires ReadUint32(buf, pos) == Got(tag, p)
    requires tag in g[t].arms && g[t].arms[tag] == Arm(slot, if signed then KInt64 else KUint64, Assign)
    ensures slot < |m.slots| && p <= |buf|
    ensures var v := ReadVarint(buf, p);
      if v.Fail? then Loop(g, t, buf, pos, end, m).Fail?
      else var n := LongToNumber(if signed then Signed(v.val, TWO_63) else v.val % TWO_64);
        if n.None? then Loop(g, t, buf, pos, end, m).Fail?
        else Loop(g, t, buf, pos, end, m) == Loop(g, t, buf, v.pos, end, Put(m, slot, Assign, Int(n.value)))
  {
    hide *;
    ScalarTurn(g, t, buf, pos, end, m, tag, p, Arm(slot, if signed then KInt64 else KUint64, Assign));
    LongIsScalar(buf, p, signed);
  }

  lemma LongIsScalar(buf: bytes, p: nat, signed: bool)
    ensures var v, r := ReadVarint(buf, p), ReadScalar(if signed then KInt64 else KUint64, buf, p);
      if v.Fail? then r.Fail?
      else var n := LongToNumber(if signed then Signed(v.val, TWO_63) else v.val % TWO_64);
        if n.None? then r.Fail? else r == Got(Int(n.value), v.pos)
  {
    hide ReadVarint, Signed;
    if signed {
      assert ReadScalar(KInt64, buf, p).Fail? <==> ReadLong(buf, p, true).Fail?;
    } else {
      assert ReadScalar(KUint64, buf, p).Fail? <==> ReadLong(buf, p, false).Fail?;
    }
  }

  /** A sub-message: its length, then a decode that goes on from there. */
  lemma SubTurn(g: Grammar, t: nat, buf: bytes, pos: nat, end: int, m: Msg, tag: nat, p: nat, slot: nat, s: nat,
      how: How)
    requires GrammarOk(g) && t < |g| && s < |g| && pos <= |buf| && pos < end && |m.slots| == |g[t].plan|
    requires ReadUint32(buf, pos) == Got(tag, p)
    requires tag in g[t].arms && g[t].arms[tag] == Arm(slot, KMsg(s), how) && !how.PushPacked?
    ensures slot < |m.slots| && p <= |buf|
    ensures var len := ReadUint32(buf, p);
      if len.Fail? then Loop(g, t, buf, pos, end, m).Fail?
      else var d := DecodeUpTo(g, s, buf, len.pos, Some(len.val));
        if d.Fail? then Loop(g, t, buf, pos, end, m).Fail?
        else Loop(g, t, buf, pos, end, m) == Loop(g, t, buf, d.pos, end, Put(m, slot, how, Sub(d.val)))
  {
    hide *;
    ArmTurn(g, t, buf, pos, end, m, tag, p, Arm(slot, KMsg(s), how));
    ValueOfSub(g, s, buf, p);
  }

  lemma ValueOfSub(g: Grammar, s: nat, buf: bytes, p: nat)
    requires GrammarOk(g) && s < |g| && p <= |buf|
    ensures KindOk(g, KMsg(s))
    ensures var len, v := ReadUint32(buf, p), ReadValue(g, KMsg(s), buf, p);
      if len.Fail? then v.Fail?
      else var d := DecodeUpTo(g, s, buf, len.pos, Some(len.val));
        if d.Fail? then v.Fail? else v == Got(Sub(d.val), d.pos)
  {
    hide ReadUint32, Loop, GrammarOk, ReadScalar;
    var len := ReadUint32(buf, p);
    if len.Got? {
      DecodeIsLoop(g, s, buf, len.pos, Some(len.val), len.pos + len.val);
    }
  }

  /** A packed run of integers: all are pushed, or the loop throws. */
  lemma PackedTurn(g: Grammar, t: nat, buf: bytes, pos: nat, end: int, m: Msg, tag: nat, p: nat, slot: nat)
    requires GrammarOk(g) && t < |g| && pos <= |buf| && pos < end && |m.slots| == |g[t].plan|
    requires ReadUint32(buf, pos) == Got(tag, p)
    requires tag in g[t].arms && g[t].arms[tag] == Arm(slot, KInt32, PushPacked)
    ensures slot < |m.slots| && p <= |buf|
    ensures var len := ReadUint32(buf, p);
      if len.Fail? then Loop(g, t, buf, pos, end, m).Fail?
      else var vs := ReadPacked(buf, len.pos, len.val + len.pos);
        if vs.Fail? then Loop(g, t, buf, pos, end, m).Fail?
        else Loop(g, t, buf, pos, end, m) == Loop(g, t, buf, vs.pos, end, Apply(m, Add(slot, vs.val)))
  {
    assert ArmOk(g, g[t], g[t].arms[tag]);
    assert ReadStep(g, t, buf, pos) == AfterTag(g, t, tag, buf, p);
    hide ReadUint32, ReadPacked, ReadField, GrammarOk, ReadStep, ReadValue;
    FieldOfRun(g, slot, buf, p);
    var f := ReadField(g, Arm(slot, KInt32, PushPacked), buf, p);
    assert AfterTag(g, t, tag, buf, p) == if f.Fail? then Throw else Next(f.val, f.pos);
  }

  lemma FieldOfRun(g: Grammar, slot: nat, buf: bytes, p: nat)
    requires GrammarOk(g) && p <= |buf|
    ensures var len, f := ReadUint32(buf, p), ReadField(g, Arm(slot, KInt32, PushPacked), buf, p);
      if len.Fail? then f.Fail?
      else var vs := ReadPacked(buf, len.pos, len.val + len.pos);
        if vs.Fail? then f.Fail? else f == Got(Add(slot, vs.val), vs.pos)
  {
    hide ReadUint32, ReadPacked, GrammarOk;
  }

  /** A tag no arm takes: the loop stops at an end-group or zero tag, and skips any other record. */
  lemma OtherTurn(g: Grammar, t: nat, buf: bytes, pos: nat, end: int, m: Msg, tag: nat, p: nat)
    requires GrammarOk(g) && t < |g| && pos <= |buf| && pos < end && |m.slots| == |g[t].plan|
    requires ReadUint32(buf, pos) == Got(tag, p)
    requires tag !in g[t].arms
    ensures p <= |buf|
    ensures tag % 8 == 4 || tag == 0 ==> Loop(g, t, buf, pos, end, m) == Got(m, p)
    ensures !(tag % 8 == 4 || tag == 0) ==> var s := Skip(buf, p, tag % 8, None);
      if s.Fail? then Loop(g, t, buf, pos, end, m).Fail?
      else Loop(g, t, buf, pos, end, m) == Loop(g, t, buf, s.pos, end, m)
  {
    assert ReadStep(g, t, buf, pos) == AfterTag(g, t, tag, buf, p);
  }

  lemma NoTagTurn(g: Grammar, t: nat, buf: bytes, pos: nat, end: int, m: Msg)
    requires GrammarOk(g) && t < |g| && pos <= |buf| && pos < end && |m.slots| == |g[t].plan|
    requires ReadUint32(buf, pos).Fail?
    ensures Loop(g, t, buf, pos, end, m).Fail?
  {
  }

  lemma LoopIsOver(g: Grammar, t: nat, buf: bytes, pos: nat, end: int, m: Msg)
    requires GrammarOk(g) && t < |g| && pos <= |buf| && end <= pos && |m.slots| == |g[t].plan|
    ensures Loop(g, t, buf, pos, end, m) == Got(m, pos)
  {
  }
}
