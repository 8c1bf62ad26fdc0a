/**
 The reader and the writer that the generated code passes around, as objects with a position and a
 stack of forks.
 */
module Buffers {
  import opened Wire
  import opened Codec

  class BinaryWriter {
    var stack: seq<bytes>  // what was written before each open fork
    var buf: bytes

    constructor ()
      ensures stack == [] && buf == []
    {
      stack, buf := [], [];
    }

    method Uint32(value: nat)
      requires value < TWO_32
      modifies this
      ensures stack == old(stack) && buf == old(buf) + Varint(value)
    {
      buf := buf + Varint(value);
    }

    method Int32(value: int)
      requires -TWO_31 <= value < TWO_31
      modifies this
      ensures stack == old(stack) && buf == old(buf) + Varint(Unsigned64(value))
    {
      buf := buf + Varint(Unsigned64(value));
    }

    method Int64(value: int)
      requires -TWO_63 <= value < TWO_63
      modifies this
      ensures stack == old(stack) && buf == old(buf) + Varint(Unsigned64(value))
    {
      buf := buf + Varint(Unsigned64(value));
    }

    method Uint64(value: int)
      requires 0 <= value < TWO_64
      modifies this
      ensures stack == old(stack) && buf == old(buf) + Varint(Unsigned64(value))
    {
      buf := buf + Varint(Unsigned64(value));
    }

    method Bool(value: bool)
      modifies this
      ensures stack == old(stack) && buf == old(buf) + [if value then 1 else 0]
    {
      buf := buf + [if value then 1 else 0];
    }

    method Double(value: bytes)
      requires |value| == 8
      modifies this
      ensures stack == old(stack) && buf == old(buf) + value
    {
      buf := buf + value;
    }

    /** `string` and `bytes`: a length and the bytes. */
    method String(value: bytes)
      requires |value| < TWO_32
      modifies this
      ensures stack == old(stack) && buf == old(buf) + LengthPrefixed(value)
    {
      buf := buf + LengthPrefixed(value);
    }

    /** Sets what was written aside and starts on a sub-message. */
    method Fork()
      modifies this
      ensures stack == old(stack) + [old(buf)] && buf == []
    {
      stack, buf := stack + [buf], [];
    }

    /** Ends the sub-message: appends it, behind its length, to what was set aside. */
    method Join()
      requires stack != [] && |buf| < TWO_32
      modifies this
      ensures stack == old(stack)[..|old(stack)| - 1]
      ensures buf == old(stack)[|old(stack)| - 1] + LengthPrefixed(old(buf))
    {
      var body := buf;
      buf := stack[|stack| - 1] + LengthPrefixed(body);
      stack := stack[..|stack| - 1];
    }
  }

  /** A reader. A method returns `None` where the original throws; the position is then of no use. */
  class BinaryReader {
    const buf: bytes
    var pos: nat

    constructor (input: bytes)
      ensures buf == input && pos == 0
    {
      buf, pos := input, 0;
    }

    /** A reader that already stands at some place. */
    constructor At(input: bytes, start: nat)
      ensures buf == input && pos == start
    {
      buf, pos := input, start;
    }

    predicate Valid()
      reads this
    {
      pos <= |buf|
    }

    method Uint32() returns (r: Option<nat>)
      requires Valid()
      modifies this
      ensures Valid()
      ensures r.Some? ==> ReadUint32(buf, old(pos)) == Got(r.value, pos)
      ensures r.None? ==> ReadUint32(buf, old(pos)).Fail?
    {
      match ReadUint32(buf, pos)
      case Fail => r := None;
      case Got(v, p) => r, pos := Some(v), p;
    }

    method Int32() returns (r: Option<int>)
      requires Valid()
      modifies this
      ensures Valid()
      ensures r.Some? ==> ReadInt32(buf, old(pos)) == Got(r.value, pos)
      ensures r.None? ==> ReadInt32(buf, old(pos)).Fail?
    {
      match ReadInt32(buf, pos)
      case Fail => r := None;
      case Got(v, p) => r, pos := Some(v), p;
    }

    /** A 64-bit integer, before `longToNumber`. */
    method Int64(signed: bool) returns (r: Option<int>)
      requires Valid()
      modifies this
      ensures Valid()
      ensures r.Some? ==> ReadVarint(buf, old(pos)).Got? && ReadVarint(buf, old(pos)).pos == pos
      ensures r.Some? ==> var v := ReadVarint(buf, old(pos)).val;
        r.value == if signed then Signed(v, TWO_63) else v % TWO_64
      ensures r.None? ==> ReadVarint(buf, old(pos)).Fail?
    {
      match ReadVarint(buf, pos)
      case Fail => r := None;
      case Got(v, p) => r, pos := Some(if signed then Signed(v, TWO_63) else v % TWO_64), p;
    }

    method Bool() returns (r: Option<bool>)
      requires Valid()
      modifies this
      ensures Valid()
      ensures r.Some? ==> ReadScalar(KBool, buf, old(pos)) == Got(Val.Bool(r.value), pos)
      ensures r.None? ==> ReadScalar(KBool, buf, old(pos)).Fail?
    {
      match ReadVarint(buf, pos)
      case Fail => r := None;
      case Got(v, p) => r, pos := Some(v % TWO_64 != 0), p;
    }

    method Double() returns (r: Option<bytes>)
      requires Valid()
      modifies this
      ensures Valid()
      ensures r.Some? ==> ReadScalar(KDouble, buf, old(pos)) == Got(Fixed(r.value), pos)
      ensures r.None? ==> ReadScalar(KDouble, buf, old(pos)).Fail?
    {
      if pos + 8 > |buf| { return None; }
      r, pos := Some(buf[pos..pos + 8]), pos + 8;
    }

    method String() returns (r: Option<bytes>)
      requires Valid()
      modifies this
      ensures Valid()
      ensures r.Some? ==> ReadBytes(buf, old(pos)) == Got(r.value, pos)
      ensures r.None? ==> ReadBytes(buf, old(pos)).Fail?
    {
      match ReadBytes(buf, pos)
      case Fail => r := None;
      case Got(bs, p) => r, pos := Some(bs), p;
    }

    method Skip(wireType: nat) returns (r: Option<()>)
      requires Valid()
      modifies this
      ensures Valid()
      ensures r.Some? ==> Wire.Skip(buf, old(pos), wireType, None).Got? && Wire.Skip(buf, old(pos), wireType, None).pos == pos
      ensures r.None? ==> Wire.Skip(buf, old(pos), wireType, None).Fail?
    {
      match Wire.Skip(buf, pos, wireType, None)
      case Fail => r := None;
      case Got(_, p) => r, pos := Some(()), p;
    }
  }
}
