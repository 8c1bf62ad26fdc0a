/**
 A successful decode depends only on the bytes it consumed: the same bytes anywhere in any other input
 decode to the same message and leave the reader at the matching place.
 */
module Locality {
  import opened Wire
  import opened Codec

  lemma ReadVarintLocal(a: bytes, pos: nat, b: bytes, d: int)
    requires ReadVarint(a, pos).Got?
    requires Agrees(a, pos, ReadVarint(a, pos).pos, b, d)
    ensures ReadVarint(b, pos + d) == Got(ReadVarint(a, pos).val, ReadVarint(a, pos).pos + d)
  {
    ReadRawLocal(a, pos, MAX_VARINT_BYTES, b, d);
  }

  lemma ReadScalarLocal(k: Kind, a: bytes, pos: nat, b: bytes, d: int)
    requires !k.KMsg?
    requires ReadScalar(k, a, pos).Got?
    requires Agrees(a, pos, ReadScalar(k, a, pos).pos, b, d)
    ensures ReadScalar(k, b, pos + d) == Got(ReadScalar(k, a, pos).val, ReadScalar(k, a, pos).pos + d)
  {
    match k
    case KStr => ReadBytesLocal(a, pos, b, d);
    case KDouble => assert a[pos..pos + 8] == b[pos + d..pos + d + 8];
    case _ => ReadVarintLocal(a, pos, b, d);
  }

  lemma {:induction false} ReadPackedLocal(a: bytes, pos: nat, end: int, b: bytes, d: int)
    requires pos <= |a|
    requires ReadPacked(a, pos, end).Got?
    requires Agrees(a, pos, ReadPacked(a, pos, end).pos, b, d)
    ensures ReadPacked(b, pos + d, end + d) == Got(ReadPacked(a, pos, end).val, ReadPacked(a, pos, end).pos + d)
    decreases |a| - pos
  {
    if pos < end {
      ReadVarintLocal(a, pos, b, d);
      ReadPackedLocal(a, ReadInt32(a, pos).pos, end, b, d);
    }
  }

  lemma {:induction false} ReadValueLocal(g: Grammar, k: Kind, a: bytes, pos: nat, b: bytes, d: int)
    requires GrammarOk(g) && KindOk(g, k) && pos <= |a|
    requires ReadValue(g, k, a, pos).Got?
    requires Agrees(a, pos, ReadValue(g, k, a, pos).pos, b, d)
    ensures ReadValue(g, k, b, pos + d) == Got(ReadValue(g, k, a, pos).val, ReadValue(g, k, a, pos).pos + d)
    decreases |a| - pos, 0
  {
    hide ReadUint32, ReadScalar;
    if k.KMsg? {
      ReadUint32Local(a, pos, b, d);
      var len := ReadUint32(a, pos);
      LoopLocal(g, k.schema, a, len.pos, len.pos + len.val, g[k.schema].base, b, d);
    } else {
      ReadScalarLocal(k, a, pos, b, d);
    }
  }

  lemma {:induction false} ReadFieldLocal(g: Grammar, arm: Arm, a: bytes, pos: nat, b: bytes, d: int)
    requires GrammarOk(g) && KindOk(g, arm.kind) && pos <= |a|
    requires ReadField(g, arm, a, pos).Got?
    requires Agrees(a, pos, ReadField(g, arm, a, pos).pos, b, d)
    ensures ReadField(g, arm, b, pos + d) == Got(ReadField(g, arm, a, pos).val, ReadField(g, arm, a, pos).pos + d)
    decreases |a| - pos, 1
  {
    hide ReadUint32, ReadValue, ReadPacked;
    if arm.how.PushPacked? {
      ReadUint32Local(a, pos, b, d);
      var len := ReadUint32(a, pos);
      ReadPackedLocal(a, len.pos, len.val + len.pos, b, d);
    } else {
      ReadValueLocal(g, arm.kind, a, pos, b, d);
    }
  }

  /** The same step, `d` bytes further on. */
  function Moved(s: Step, d: int): Step
    requires s.Throw? || 0 <= s.pos + d
  {
    match s
    case Next(e, p) => Next(e, p + d)
    case Stop(p) => Stop(p + d)
    case Throw => Throw
  }

  lemma {:induction false} ReadStepLocal(g: Grammar, t: nat, a: bytes, pos: nat, b: bytes, d: int)
    requires GrammarOk(g) && t < |g| && pos <= |a|
    requires !ReadStep(g, t, a, pos).Throw?
    requires Agrees(a, pos, ReadStep(g, t, a, pos).pos, b, d)
    ensures ReadStep(g, t, b, pos + d) == Moved(ReadStep(g, t, a, pos), d)
    decreases |a| - pos, 2
  {
    ReadUint32Local(a, pos, b, d);
    var tag := ReadUint32(a, pos);
    if tag.val in g[t].arms {
      assert ArmOk(g, g[t], g[t].arms[tag.val]);
      ReadFieldLocal(g, g[t].arms[tag.val], a, tag.pos, b, d);
    } else if tag.val % 8 != 4 && tag.val != 0 {
      SkipLocal(a, tag.pos, tag.val % 8, None, b, d);
    }
  }

  lemma {:induction false} LoopLocal(g: Grammar, t: nat, a: bytes, pos: nat, end: int, m: Msg, b: bytes, d: int)
    requires GrammarOk(g) && t < |g| && pos <= |a| && |m.slots| == |g[t].plan|
    requires Loop(g, t, a, pos, end, m).Got?
    requires Agrees(a, pos, Loop(g, t, a, pos, end, m).pos, b, d)
    ensures Loop(g, t, b, pos + d, end + d, m)
         == Got(Loop(g, t, a, pos, end, m).val, Loop(g, t, a, pos, end, m).pos + d)
    decreases |a| - pos, 3
  {
    if pos < end {
      ReadStepLocal(g, t, a, pos, b, d);
      var step := ReadStep(g, t, a, pos);
      if step.Next? {
        LoopLocal(g, t, a, step.pos, end, Apply(m, step.effect), b, d);
      }
    }
  }

  /** A loop that reads a string to its end does so wherever the string stands. */
  lemma LoopAt(g: Grammar, t: nat, m: Msg, a: bytes, buf: bytes, d: nat)
    requires GrammarOk(g) && t < |g| && |m.slots| == |g[t].plan|
    requires Agrees(a, 0, |a|, buf, d)
    requires Loop(g, t, a, 0, |a|, m).Got? && Loop(g, t, a, 0, |a|, m).pos == |a|
    ensures Loop(g, t, buf, d, d + |a|, m) == Got(Loop(g, t, a, 0, |a|, m).val, d + |a|)
  {
    hide *;
    LoopLocal(g, t, a, 0, |a|, m, buf, d);
  }

  lemma LoopBetween(g: Grammar, t: nat, m: Msg, before: bytes, a: bytes, after: bytes)
    requires GrammarOk(g) && t < |g| && |m.slots| == |g[t].plan|
    requires Loop(g, t, a, 0, |a|, m).Got? && Loop(g, t, a, 0, |a|, m).pos == |a|
    ensures |before + a + after| == |before| + |a| + |after|
    ensures Loop(g, t, before + a + after, |before|, |before| + |a|, m)
         == Got(Loop(g, t, a, 0, |a|, m).val, |before| + |a|)
  {
    hide *;
    AgreesBetween(before, a, after);
    LoopAt(g, t, m, a, before + a + after, |before|);
  }

  lemma LoopBehind(g: Grammar, t: nat, m: Msg, before: bytes, a: bytes)
    requires GrammarOk(g) && t < |g| && |m.slots| == |g[t].plan|
    requires Loop(g, t, a, 0, |a|, m).Got? && Loop(g, t, a, 0, |a|, m).pos == |a|
    ensures |before + a| == |before| + |a|
    ensures Loop(g, t, before + a, |before|, |before| + |a|, m)
         == Got(Loop(g, t, a, 0, |a|, m).val, |before| + |a|)
  {
    hide *;
    AgreesBehind(before, a);
    LoopAt(g, t, m, a, before + a, |before|);
  }

  lemma ReadFieldBehind(g: Grammar, arm: Arm, before: bytes, a: bytes)
    requires GrammarOk(g) && KindOk(g, arm.kind)
    requires ReadField(g, arm, a, 0).Got? && ReadField(g, arm, a, 0).pos == |a|
    ensures |before + a| == |before| + |a|
    ensures ReadField(g, arm, before + a, |before|) == Got(ReadField(g, arm, a, 0).val, |before| + |a|)
  {
    hide *;
    AgreesBehind(before, a);
    ReadFieldLocal(g, arm, a, 0, before + a, |before|);
  }
}
