/**
 The Protocol Buffers wire format: base-128 varints, length-delimited records and groups, read from
 any position of a byte string. A read that would pass the end of the bytes fails.
 */
module Wire {

  type byte = i: int | 0 <= i < 256
  type bytes = seq<byte>

  const TWO_31: int := 0x8000_0000
  const TWO_32: int := 0x1_0000_0000
  const TWO_63: int := 0x8000_0000_0000_0000
  const TWO_64: int := 0x1_0000_0000_0000_0000

  // Number.MAX_SAFE_INTEGER
  const MAX_SAFE: int := 0x1F_FFFF_FFFF_FFFF

  const MAX_VARINT_BYTES: nat := 10

  datatype Option<+T> = None | Some(value: T) {
    function GetOr(default: T): T {
      if Some? then value else default
    }

    predicate IsFailure() {
      None?
    }

    function PropagateFailure<U>(): Option<U>
      requires None?
    {
      None
    }

    function Extract(): T
      requires Some?
    {
      value
    }
  }

  /** The outcome of reading at a position: a value and the position after it, or a thrown error. */
  datatype Read<+T> = Fail | Got(val: T, pos: nat)

  // ---------------------------------------------------------------- varints

  /** The shortest base-128 form: seven bits a byte, low group first, top bit set on all but the last. */
  function Varint(n: nat): (bs: bytes)
    ensures |bs| > 0
  {
    if n < 128 then [n] else [128 + n % 128] + Varint(n / 128)
  }

  /** Reads a varint of at most `k` bytes, whether or not it is the shortest form. */
  function ReadRaw(buf: bytes, pos: nat, k: nat): (r: Read<nat>)
    ensures r.Got? ==> pos < r.pos <= |buf|
    decreases k
  {
    if k == 0 || pos >= |buf| then Fail
    else if buf[pos] < 128 then Got(buf[pos], pos + 1)
    else
      match ReadRaw(buf, pos + 1, k - 1)
      case Fail => Fail
      case Got(v, p) => Got(buf[pos] - 128 + 128 * v, p)
  }

  function ReadVarint(buf: bytes, pos: nat): (r: Read<nat>)
    ensures r.Got? ==> pos < r.pos <= |buf|
  {
    ReadRaw(buf, pos, MAX_VARINT_BYTES)
  }

  /** A 32-bit read keeps the low 32 bits of a longer varint. */
  function ReadUint32(buf: bytes, pos: nat): (r: Read<nat>)
    ensures r.Got? ==> pos < r.pos <= |buf| && r.val < TWO_32
  {
    match ReadVarint(buf, pos)
    case Fail => Fail
    case Got(v, p) => Got(v % TWO_32, p)
  }

  /** The value of `width` bits read as two's complement. */
  function Signed(v: nat, half: int): (i: int)
    requires 0 < half
    ensures -half <= i < half
  {
    var w := v % (2 * half);
    if w < half then w else w - 2 * half
  }

  /** A negative integer goes on the wire as its 64-bit two's complement. */
  function Unsigned64(i: int): nat
    requires -TWO_63 <= i < TWO_64
  {
    if i < 0 then i + TWO_64 else i
  }

  function LengthPrefixed(bs: bytes): bytes {
    Varint(|bs|) + bs
  }

  function ReadBytes(buf: bytes, pos: nat): (r: Read<bytes>)
    ensures r.Got? ==> pos < r.pos <= |buf| && |r.val| < TWO_32
  {
    match ReadUint32(buf, pos)
    case Fail => Fail
    case Got(len, p) => if p + len > |buf| then Fail else Got(buf[p..p + len], p + len)
  }

  // ---------------------------------------------------------------- skipping unknown records

  /** Skips the payload of a record of the given wire type. A group runs to its own end tag, and a
      group inside a group must end with the field number it began with. */
  function Skip(buf: bytes, pos: nat, wireType: nat, field: Option<nat>): (r: Read<()>)
    ensures r.Got? ==> pos <= r.pos <= |buf|
    decreases |buf| - pos, 1
  {
    match wireType
    case 0 => (match ReadVarint(buf, pos) case Fail => Fail case Got(_, p) => Got((), p))
    case 1 => if pos + 8 > |buf| then Fail else Got((), pos + 8)
    case 2 => (match ReadBytes(buf, pos) case Fail => Fail case Got(_, p) => Got((), p))
    case 3 => if pos > |buf| then Fail else SkipGroup(buf, pos, field)
    case 5 => if pos + 4 > |buf| then Fail else Got((), pos + 4)
    case _ => Fail
  }

  function SkipGroup(buf: bytes, pos: nat, field: Option<nat>): (r: Read<()>)
    requires pos <= |buf|
    ensures r.Got? ==> pos < r.pos <= |buf|
    decreases |buf| - pos, 0
  {
    match ReadUint32(buf, pos)
    case Fail => Fail
    case Got(tag, p) => AfterGroupTag(buf, tag, p, field)
  }

  /** What a group does after reading a tag: ends, or skips one record and goes on. */
  function AfterGroupTag(buf: bytes, tag: nat, pos: nat, field: Option<nat>): (r: Read<()>)
    requires pos <= |buf|
    ensures r.Got? ==> pos <= r.pos <= |buf|
    decreases |buf| - pos, 2
  {
    if tag / 8 == 0 then Fail
    else if tag % 8 == 4 then
      if field.Some? && field.value != tag / 8 then Fail else Got((), pos)
    else
      match Skip(buf, pos, tag % 8, Some(tag / 8))
      case Fail => Fail
      case Got(_, q) => SkipGroup(buf, q, field)
  }

  // ---------------------------------------------------------------- reading is local

  /** `b` repeats the bytes of `a` in `[lo, hi)`, moved by `d`. */
  ghost predicate Agrees(a: bytes, lo: nat, hi: nat, b: bytes, d: int) {
    && hi <= |a|
    && 0 <= lo + d
    && hi + d <= |b|
    && forall i | lo <= i < hi :: a[i] == b[i + d]
  }

  lemma {:induction false} ReadRawLocal(a: bytes, pos: nat, k: nat, b: bytes, d: int)
    requires ReadRaw(a, pos, k).Got?
    requires Agrees(a, pos, ReadRaw(a, pos, k).pos, b, d)
    ensures ReadRaw(b, pos + d, k) == Got(ReadRaw(a, pos, k).val, ReadRaw(a, pos, k).pos + d)
    decreases k
  {
    if a[pos] >= 128 {
      ReadRawLocal(a, pos + 1, k - 1, b, d);
    }
  }

  lemma ReadUint32Local(a: bytes, pos: nat, b: bytes, d: int)
    requires ReadUint32(a, pos).Got?
    requires Agrees(a, pos, ReadUint32(a, pos).pos, b, d)
    ensures ReadUint32(b, pos + d) == Got(ReadUint32(a, pos).val, ReadUint32(a, pos).pos + d)
  {
    ReadRawLocal(a, pos, MAX_VARINT_BYTES, b, d);
  }

  lemma ReadBytesLocal(a: bytes, pos: nat, b: bytes, d: int)
    requires ReadBytes(a, pos).Got?
    requires Agrees(a, pos, ReadBytes(a, pos).pos, b, d)
    ensures ReadBytes(b, pos + d) == Got(ReadBytes(a, pos).val, ReadBytes(a, pos).pos + d)
  {
    ReadUint32Local(a, pos, b, d);
    var p, q := ReadUint32(a, pos).pos, ReadBytes(a, pos).pos;
    assert a[p..q] == b[p + d..q + d];
  }

  lemma {:induction false} SkipLocal(a: bytes, pos: nat, wireType: nat, field: Option<nat>, b: bytes, d: int)
    requires Skip(a, pos, wireType, field).Got?
    requires Agrees(a, pos, Skip(a, pos, wireType, field).pos, b, d)
    ensures Skip(b, pos + d, wireType, field) == Got((), Skip(a, pos, wireType, field).pos + d)
    decreases |a| - pos, 1
  {
    match wireType
    case 0 => ReadRawLocal(a, pos, MAX_VARINT_BYTES, b, d);
    case 2 => ReadBytesLocal(a, pos, b, d);
    case 3 => SkipGroupLocal(a, pos, field, b, d);
    case _ =>
  }

  lemma {:induction false} SkipGroupLocal(a: bytes, pos: nat, field: Option<nat>, b: bytes, d: int)
    requires pos <= |a|
    requires SkipGroup(a, pos, field).Got?
    requires Agrees(a, pos, SkipGroup(a, pos, field).pos, b, d)
    ensures SkipGroup(b, pos + d, field) == Got((), SkipGroup(a, pos, field).pos + d)
    decreases |a| - pos, 0
  {
    hide ReadUint32, AfterGroupTag;
    ReadUint32Local(a, pos, b, d);
    var t := ReadUint32(a, pos);
    assert SkipGroup(a, pos, field) == AfterGroupTag(a, t.val, t.pos, field);
    assert SkipGroup(b, pos + d, field) == AfterGroupTag(b, t.val, t.pos + d, field);
    AfterGroupTagLocal(a, t.val, t.pos, field, b, d);
  }

  lemma {:induction false} AfterGroupTagLocal(a: bytes, tag: nat, pos: nat, field: Option<nat>, b: bytes, d: int)
    requires pos <= |a|
    requires AfterGroupTag(a, tag, pos, field).Got?
    requires Agrees(a, pos, AfterGroupTag(a, tag, pos, field).pos, b, d)
    ensures AfterGroupTag(b, tag, pos + d, field) == Got((), AfterGroupTag(a, tag, pos, field).pos + d)
    decreases |a| - pos, 2
  {
    if tag % 8 != 4 {
      SkipLocal(a, pos, tag % 8, Some(tag / 8), b, d);
      SkipGroupLocal(a, Skip(a, pos, tag % 8, Some(tag / 8)).pos, field, b, d);
    }
  }

  // ---------------------------------------------------------------- reading what was written

  /** The number of values that fit in `k` groups of seven bits. */
  function Capacity(k: nat): nat {
    if k == 0 then 1 else 128 * Capacity(k - 1)
  }

  lemma {:induction false} ReadRawVarint(n: nat, k: nat, rest: bytes)
    requires 0 < k && n < Capacity(k)
    ensures ReadRaw(Varint(n) + rest, 0, k) == Got(n, |Varint(n)|)
    decreases k
  {
    var buf := Varint(n) + rest;
    if n >= 128 {
      var tail := Varint(n / 128) + rest;
      ReadRawVarint(n / 128, k - 1, rest);
      assert Agrees(tail, 0, |Varint(n / 128)|, buf, 1);
      ReadRawLocal(tail, 0, k - 1, buf, 1);
    }
  }

  lemma ReadVarintWritten(n: nat, rest: bytes)
    requires n < TWO_64
    ensures ReadVarint(Varint(n) + rest, 0) == Got(n, |Varint(n)|)
  {
    assert Capacity(MAX_VARINT_BYTES) == 1180591620717411303424;
    ReadRawVarint(n, MAX_VARINT_BYTES, rest);
  }

  lemma ReadUint32Written(n: nat, rest: bytes)
    requires n < TWO_32
    ensures ReadUint32(Varint(n) + rest, 0) == Got(n, |Varint(n)|)
  {
    ReadVarintWritten(n, rest);
  }

  /** A string of bytes sits unchanged behind a prefix. */
  lemma AgreesBehind(prefix: bytes, a: bytes)
    ensures |prefix + a| == |prefix| + |a|
    ensures Agrees(a, 0, |a|, prefix + a, |prefix|)
  {
  }

  lemma AgreesBefore(a: bytes, after: bytes)
    ensures |a + after| == |a| + |after|
    ensures Agrees(a, 0, |a|, a + after, 0)
  {
  }

  lemma AgreesBetween(before: bytes, a: bytes, after: bytes)
    ensures |before + a + after| == |before| + |a| + |after|
    ensures Agrees(a, 0, |a|, before + a + after, |before|)
  {
  }

  /** Every 32-bit integer, negatives included, comes back from its ten-byte or shorter form. */
  lemma Int32RoundTrip(i: int)
    requires -TWO_31 <= i < TWO_31
    ensures Signed(Unsigned64(i), TWO_31) == i
  {
    if i < 0 {
      assert i + TWO_64 == (i + TWO_32) + TWO_32 * 0xFFFF_FFFF;
      assert (i + TWO_64) % TWO_32 == i + TWO_32;
    }
  }

  lemma Int64RoundTrip(i: int)
    requires -TWO_63 <= i < TWO_63
    ensures Signed(Unsigned64(i), TWO_63) == i
  {
  }

  lemma ReadBytesWritten(bs: bytes, rest: bytes)
    requires |bs| < TWO_32
    ensures ReadBytes(LengthPrefixed(bs) + rest, 0) == Got(bs, |LengthPrefixed(bs)|)
  {
    ReadUint32Written(|bs|, bs + rest);
    assert LengthPrefixed(bs) + rest == Varint(|bs|) + (bs + rest);
  }
}
