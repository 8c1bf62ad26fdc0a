/**
 The statements `encode` is made of, one for each way a property is written: each carries the output
 from what the rows before it write to what its own row adds. And the inner loop `decode` has for a
 packed list.
 */
module Statements {
  import opened Wire
  import opened Codec
  import opened Decoded
  import opened Buffers
  import opened Fields

  /** `if (x !== undefined && x !== "")`: a string. */
  method WriteStr(writer: BinaryWriter, tag: nat, s: Option<bytes>, ghost start: bytes, ghost g: Grammar,
      ghost t: nat, ghost m: Msg, ghost n: nat)
    requires GrammarOk(g) && t < |g| && ValidMsg(g, t, m) && n < |m.slots| == |g[t].plan| && tag < TWO_32
    requires g[t].plan[n] == Row(tag, KStr, Implicit(Str([]))) && m.slots[n] == OptStrSlot(s)
    requires writer.buf == Written(start, g, t, m, n)
    modifies writer
    ensures writer.stack == old(writer.stack) && writer.buf == Written(start, g, t, m, n + 1)
  {
    StrWritten(start, g, t, m, n, tag, s);
    hide *;
    if s != None && s != Some([]) {
      writer.Uint32(tag);
      writer.String(s.value);
    }
  }

  /** `if (x !== undefined)`: a string. */
  method WriteOptStr(writer: BinaryWriter, tag: nat, o: Option<bytes>, ghost start: bytes, ghost g: Grammar,
      ghost t: nat, ghost m: Msg, ghost n: nat)
    requires GrammarOk(g) && t < |g| && ValidMsg(g, t, m) && n < |m.slots| == |g[t].plan| && tag < TWO_32
    requires g[t].plan[n] == Row(tag, KStr, Explicit) && m.slots[n] == OptStrSlot(o)
    requires writer.buf == Written(start, g, t, m, n)
    modifies writer
    ensures writer.stack == old(writer.stack) && writer.buf == Written(start, g, t, m, n + 1)
  {
    OptStrWritten(start, g, t, m, n, tag, o);
    hide *;
    if o != None {
      writer.Uint32(tag);
      writer.String(o.value);
    }
  }

  /** `if (x !== false)`: a flag. */
  method WriteBool(writer: BinaryWriter, tag: nat, b: bool, ghost start: bytes, ghost g: Grammar, ghost t: nat,
      ghost m: Msg, ghost n: nat)
    requires GrammarOk(g) && t < |g| && ValidMsg(g, t, m) && n < |m.slots| == |g[t].plan| && tag < TWO_32
    requires g[t].plan[n] == Row(tag, KBool, Implicit(Val.Bool(false))) && m.slots[n] == BoolSlot(b)
    requires writer.buf == Written(start, g, t, m, n)
    modifies writer
    ensures writer.stack == old(writer.stack) && writer.buf == Written(start, g, t, m, n + 1)
  {
    BoolWritten(start, g, t, m, n, tag, b);
    hide *;
    if b != false {
      writer.Uint32(tag);
      writer.Bool(b);
    }
  }

  /** `if (x !== undefined && x !== 0)`: a 64-bit integer. */
  method WriteLong(writer: BinaryWriter, tag: nat, signed: bool, o: Option<int>, ghost start: bytes,
      ghost g: Grammar, ghost t: nat, ghost m: Msg, ghost n: nat)
    requires GrammarOk(g) && t < |g| && ValidMsg(g, t, m) && n < |m.slots| == |g[t].plan| && tag < TWO_32
    requires g[t].plan[n] == Row(tag, if signed then KInt64 else KUint64, Implicit(Int(0))) && m.slots[n] == OptIntSlot(o)
    requires writer.buf == Written(start, g, t, m, n)
    modifies writer
    ensures writer.stack == old(writer.stack) && writer.buf == Written(start, g, t, m, n + 1)
  {
    LongWritten(start, g, t, m, n, tag, signed, o);
    hide Varint, Written, GrammarOk, ValidMsg;
    if o != None && o != Some(0) {
      writer.Uint32(tag);
      if signed {
        writer.Int64(o.value);
      } else {
        writer.Uint64(o.value);
      }
    }
  }

  /** `if (x !== undefined && x !== 0)`: a double. */
  method WriteDouble(writer: BinaryWriter, tag: nat, o: Option<bytes>, ghost start: bytes, ghost g: Grammar,
      ghost t: nat, ghost m: Msg, ghost n: nat)
    requires GrammarOk(g) && t < |g| && ValidMsg(g, t, m) && n < |m.slots| == |g[t].plan| && tag < TWO_32
    requires g[t].plan[n] == Row(tag, KDouble, Implicit(Fixed(PLUS_ZERO))) && m.slots[n] == OptDoubleSlot(o)
    requires writer.buf == Written(start, g, t, m, n)
    modifies writer
    ensures writer.stack == old(writer.stack) && writer.buf == Written(start, g, t, m, n + 1)
  {
    DoubleWritten(start, g, t, m, n, tag, o);
    hide *;
    if o != None && !IsZeroDouble(o.value) {
      writer.Uint32(tag);
      writer.Double(o.value);
    }
  }

  /** `for (const v of xs)`: a list of strings. */
  method WriteStrs(writer: BinaryWriter, tag: nat, ss: seq<bytes>, ghost start: bytes, ghost g: Grammar,
      ghost t: nat, ghost m: Msg, ghost n: nat)
    requires GrammarOk(g) && t < |g| && ValidMsg(g, t, m) && n < |m.slots| == |g[t].plan| && tag < TWO_32
    requires g[t].plan[n] == Row(tag, KStr, Repeated) && m.slots[n] == StrsSlot(ss)
    requires writer.buf == Written(start, g, t, m, n)
    modifies writer
    ensures writer.stack == old(writer.stack) && writer.buf == Written(start, g, t, m, n + 1)
  {
    assert tag < TWO_32;
    hide *;
    ListStarts(start, g, t, m, n);
    StrsAre(ss);
    for i := 0 to |ss|
      invariant writer.stack == old(writer.stack)
      invariant writer.buf == Out(start, g, t, m, n, i)
    {
      StrOfListWritten(start, g, t, m, n, tag, ss, i);
      writer.Uint32(tag);
      writer.String(ss[i]);
    }
  }

  /** `fork()`, an `int32` for each element, `join()`. */
  method WritePacked(writer: BinaryWriter, tag: nat, ints: seq<int>, ghost start: bytes, ghost g: Grammar,
      ghost t: nat, ghost m: Msg, ghost n: nat)
    requires GrammarOk(g) && t < |g| && ValidMsg(g, t, m) && n < |m.slots| == |g[t].plan| && tag < TWO_32
    requires g[t].plan[n] == Row(tag, KInt32, Packed) && m.slots[n] == IntsSlot(ints)
    requires writer.buf == Written(start, g, t, m, n)
    modifies writer
    ensures writer.stack == old(writer.stack) && writer.buf == Written(start, g, t, m, n + 1)
  {
    PackedWritten(start, g, t, m, n, tag, ints);
    PackedStarts(ints);
    hide *;
    writer.Uint32(tag);
    ghost var before := writer.buf;
    writer.Fork();
    for i := 0 to |ints|
      invariant writer.stack == old(writer.stack) + [before]
      invariant writer.buf == PackedBytes(Ints(ints[..i]))
    {
      PackedGoesOn(ints, i);
      writer.Int32(ints[i]);
    }
    writer.Join();
  }

  /** `while (reader.pos < end2)`: pushes integers until the run is over. */
  method ReadInts(reader: BinaryReader, end2: nat) returns (r: Option<seq<int>>)
    requires reader.Valid()
    modifies reader
    ensures reader.Valid()
    ensures var vs := ReadPacked(reader.buf, old(reader.pos), end2);
      if r.None? then vs.Fail? else vs == Got(Ints(r.value), reader.pos)
  {
    hide ReadPacked, ReadInt32, Ints;
    var pushed: seq<int> := [];
    while reader.pos < end2
      invariant reader.Valid() && PackedPrefix(reader.buf, old(reader.pos), reader.pos, end2, pushed)
      decreases |reader.buf| - reader.pos
    {
      ghost var at := reader.pos;
      var v := reader.Int32();
      PackedTail(reader.buf, old(reader.pos), at, end2, pushed);
      if v.None? {
        PackedFails(reader.buf, at, end2);
        return None;
      }
      PackedPrefixGrows(reader.buf, old(reader.pos), at, end2, pushed);
      pushed := pushed + [v.value];
    }
    PackedTail(reader.buf, old(reader.pos), reader.pos, end2, pushed);
    PackedIsOver(reader.buf, reader.pos, end2, pushed);
    return Some(pushed);
  }
}
