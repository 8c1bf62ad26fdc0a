/**
 What the bytes of the wire format mean, byte by byte: the value of a varint as a sum over its groups of
 seven bits, and every read of a number or a length in terms of it.
 */
module Varints {
  import opened Wire
  import opened Codec

  function Pow128(i: nat): (p: nat)
    ensures p > 0
  {
    if i == 0 then 1 else 128 * Pow128(i - 1)
  }

  /** The sum of the first `n` groups, each weighted by its place. */
  function GroupSum(bs: bytes, n: nat): nat
    requires n <= |bs|
  {
    if n == 0 then 0 else GroupSum(bs, n - 1) + (bs[n - 1] % 128) * Pow128(n - 1)
  }

  function Value(bs: bytes): nat {
    GroupSum(bs, |bs|)
  }

  /** The top bit is set on every byte but the last. */
  predicate IsVarint(bs: bytes) {
    |bs| > 0 && bs[|bs| - 1] < 128 && forall i | 0 <= i < |bs| - 1 :: 128 <= bs[i]
  }

  // ---------------------------------------------------------------- the first group

  lemma Reorder(x: nat, p: nat)
    ensures x * (128 * p) == 128 * (x * p)
  {
  }

  lemma {:induction false} GroupSumBehind(b: byte, bs: bytes, n: nat)
    requires n <= |bs|
    ensures GroupSum([b] + bs, n + 1) == b % 128 + 128 * GroupSum(bs, n)
    decreases n
  {
    if n == 0 {
      assert GroupSum([b] + bs, 1) == GroupSum([b] + bs, 0) + (b % 128) * Pow128(0);
    } else {
      GroupSumBehind(b, bs, n - 1);
      Reorder(bs[n - 1] % 128, Pow128(n - 1));
      assert ([b] + bs)[n] == bs[n - 1];
    }
  }

  lemma ValueBehind(b: byte, bs: bytes)
    ensures Value([b] + bs) == b % 128 + 128 * Value(bs)
  {
    GroupSumBehind(b, bs, |bs|);
  }

  lemma ValueOfOne(b: byte)
    requires b < 128
    ensures Value([b]) == b && IsVarint([b])
  {
    ValueBehind(b, []);
    assert [b] + [] == [b];
  }

  lemma IsVarintBehind(b: byte, bs: bytes)
    requires 128 <= b
    ensures IsVarint([b] + bs) <==> IsVarint(bs)
  {
    if IsVarint([b] + bs) {
      assert ([b] + bs)[|bs|] < 128;
      forall i | 0 <= i < |bs| - 1 ensures 128 <= bs[i] {
        assert ([b] + bs)[i + 1] == bs[i];
      }
      assert ([b] + bs)[|bs|] == bs[|bs| - 1];
    }
  }

  // ---------------------------------------------------------------- writing

  /** What is written for a number is a varint of that value, and as short as one can be: its last group is
      not zero, unless it is the only one. */
  lemma {:induction false} VarintForm(n: nat)
    ensures IsVarint(Varint(n)) && Value(Varint(n)) == n
    ensures |Varint(n)| > 1 ==> Varint(n)[|Varint(n)| - 1] != 0
    decreases n
  {
    if n < 128 {
      ValueOfOne(n);
    } else {
      VarintForm(n / 128);
      ValueBehind(128 + n % 128, Varint(n / 128));
      IsVarintBehind(128 + n % 128, Varint(n / 128));
    }
  }

  /** A length-prefixed string is the varint of its length, then its bytes. */
  lemma LengthPrefixedForm(bs: bytes)
    ensures var whole := LengthPrefixed(bs);
      var head := |whole| - |bs|;
      && 0 < head
      && IsVarint(whole[..head])
      && Value(whole[..head]) == |bs|
      && whole[head..] == bs
  {
    VarintForm(|bs|);
    assert LengthPrefixed(bs)[..|Varint(|bs|)|] == Varint(|bs|);
  }

  /** A signed number is written as the unsigned 64-bit number it is congruent to. */
  lemma Unsigned64Exact(i: int)
    requires -TWO_63 <= i < TWO_64
    ensures 0 <= Unsigned64(i) < 0x1_0000_0000_0000_0000
    ensures (Unsigned64(i) - i) % 0x1_0000_0000_0000_0000 == 0
  {
  }

  // ---------------------------------------------------------------- reading

  /** Reading gives a value and a position exactly when the bytes up to there are a varint of that value,
      of at most so many bytes. */
  lemma {:induction false} ReadRawExact(buf: bytes, pos: nat, k: nat, v: nat, p: nat)
    ensures ReadRaw(buf, pos, k) == Got(v, p)
      <==> pos < p <= |buf| && p - pos <= k && IsVarint(buf[pos..p]) && Value(buf[pos..p]) == v
    decreases k
  {
    if k > 0 && pos < |buf| {
      if buf[pos] < 128 {
        OneByte(buf, pos, p);
      } else {
        if pos + 1 < p <= |buf| {
          assert buf[pos..p] == [buf[pos]] + buf[pos + 1..p];
          ValueBehind(buf[pos], buf[pos + 1..p]);
          IsVarintBehind(buf[pos], buf[pos + 1..p]);
        }
        ManyBytes(buf, pos, k, v, p);
      }
    }
  }

  /** A byte below 128 is a varint by itself, and begins no longer one. */
  lemma OneByte(buf: bytes, pos: nat, p: nat)
    requires pos < |buf| && buf[pos] < 128
    ensures pos < p <= |buf| && IsVarint(buf[pos..p]) ==> p == pos + 1
    ensures IsVarint(buf[pos..pos + 1]) && Value(buf[pos..pos + 1]) == buf[pos]
  {
    assert buf[pos..pos + 1] == [buf[pos]];
    ValueOfOne(buf[pos]);
    if pos + 1 < p <= |buf| {
      assert buf[pos..p][0] == buf[pos];
    }
  }

  lemma {:induction false} ManyBytes(buf: bytes, pos: nat, k: nat, v: nat, p: nat)
    requires 0 < k && pos < |buf| && 128 <= buf[pos]
    requires pos + 1 < p <= |buf| ==>
      && (IsVarint(buf[pos..p]) <==> IsVarint(buf[pos + 1..p]))
      && Value(buf[pos..p]) == buf[pos] - 128 + 128 * Value(buf[pos + 1..p])
    ensures ReadRaw(buf, pos, k) == Got(v, p)
      <==> pos < p <= |buf| && p - pos <= k && IsVarint(buf[pos..p]) && Value(buf[pos..p]) == v
    decreases k, 0
  {
    var tail := ReadRaw(buf, pos + 1, k - 1);
    if tail.Got? {
      ReadRawExact(buf, pos + 1, k - 1, tail.val, tail.pos);
    }
    if pos + 1 < p <= |buf| {
      ReadRawExact(buf, pos + 1, k - 1, Value(buf[pos + 1..p]), p);
    } else if p == pos + 1 {
      assert buf[pos..p][0] == buf[pos];
    }
  }

  /** A varint of at most ten bytes stands at `pos` and ends before `p`. */
  predicate VarintAt(buf: bytes, pos: nat, p: nat) {
    pos < p <= |buf| && p - pos <= 10 && IsVarint(buf[pos..p])
  }

  /** Every read of a number, by the value of the varint it reads: 32-bit reads keep the low 32 bits, signed
      ones as two's complement, a flag is any value but zero, and 64-bit integers throw beyond 2^53 - 1. */
  lemma NumbersExact(buf: bytes, pos: nat, p: nat)
    requires VarintAt(buf, pos, p)
    ensures var v := Value(buf[pos..p]);
      && ReadVarint(buf, pos) == Got(v, p)
      && ReadUint32(buf, pos) == Got(v % 0x1_0000_0000, p)
      && ReadInt32(buf, pos).Got? && ReadInt32(buf, pos).pos == p
      && -0x8000_0000 <= ReadInt32(buf, pos).val < 0x8000_0000
      && (ReadInt32(buf, pos).val - v) % 0x1_0000_0000 == 0
      && ReadScalar(KBool, buf, pos) == Got(Bool(v % 0x1_0000_0000_0000_0000 != 0), p)
      && (var u := v % 0x1_0000_0000_0000_0000;
          ReadLong(buf, pos, false) == if u <= 9007199254740991 then Got(u, p) else Fail)
      && (var u := v % 0x1_0000_0000_0000_0000;
          var i := if u < 0x8000_0000_0000_0000 then u else u - 0x1_0000_0000_0000_0000;
          ReadLong(buf, pos, true) == if -9007199254740991 <= i <= 9007199254740991 then Got(i, p) else Fail)
  {
    var v := Value(buf[pos..p]);
    ReadRawExact(buf, pos, 10, v, p);
    hide ReadRaw, Value, IsVarint;
    SignedExact(v, TWO_31);
  }

  lemma SignedExact(v: nat, half: int)
    requires half == TWO_31
    ensures (Signed(v, half) - v) % 0x1_0000_0000 == 0
  {
    var w := v % 0x1_0000_0000;
    assert (w - v) % 0x1_0000_0000 == 0;
    assert (w - 0x1_0000_0000 - v) % 0x1_0000_0000 == 0;
  }

  /** Without a varint of at most ten bytes every such read throws. */
  lemma NoNumber(buf: bytes, pos: nat)
    requires forall p: nat | pos < p <= |buf| :: !VarintAt(buf, pos, p)
    ensures ReadVarint(buf, pos).Fail? && ReadUint32(buf, pos).Fail? && ReadInt32(buf, pos).Fail?
    ensures ReadScalar(KBool, buf, pos).Fail? && ReadLong(buf, pos, false).Fail? && ReadLong(buf, pos, true).Fail?
    ensures ReadBytes(buf, pos).Fail?
  {
    var r := ReadVarint(buf, pos);
    if r.Got? {
      ReadRawExact(buf, pos, 10, r.val, r.pos);
      assert VarintAt(buf, pos, r.pos);
    }
  }

  /** A string is as many bytes as the varint before it says, in its low 32 bits; too few throw. */
  lemma BytesExact(buf: bytes, pos: nat, p: nat)
    requires VarintAt(buf, pos, p)
    ensures var n := Value(buf[pos..p]) % 0x1_0000_0000;
      ReadBytes(buf, pos) == if p + n <= |buf| then Got(buf[p..p + n], p + n) else Fail
  {
    NumbersExact(buf, pos, p);
    hide Value, ReadInt32, ReadLong, ReadScalar, IsVarint;
  }

  // ---------------------------------------------------------------- skipping

  /** What skipping passes over, by wire type: a varint, eight bytes, a length and its bytes, a group, four
      bytes; it throws at an end tag and at the two wire types there are not. */
  lemma SkipExact(buf: bytes, pos: nat, field: Option<nat>)
    ensures Skip(buf, pos, 0, field).Got? <==> ReadVarint(buf, pos).Got?
    ensures Skip(buf, pos, 0, field).Got? ==> Skip(buf, pos, 0, field).pos == ReadVarint(buf, pos).pos
    ensures Skip(buf, pos, 1, field) == if pos + 8 <= |buf| then Got((), pos + 8) else Fail
    ensures Skip(buf, pos, 2, field).Got? <==> ReadBytes(buf, pos).Got?
    ensures Skip(buf, pos, 2, field).Got? ==> Skip(buf, pos, 2, field).pos == ReadBytes(buf, pos).pos
    ensures Skip(buf, pos, 3, field) == if pos <= |buf| then SkipGroup(buf, pos, field) else Fail
    ensures Skip(buf, pos, 5, field) == if pos + 4 <= |buf| then Got((), pos + 4) else Fail
    ensures Skip(buf, pos, 4, field).Fail? && Skip(buf, pos, 6, field).Fail? && Skip(buf, pos, 7, field).Fail?
  {
    hide ReadVarint, ReadBytes, SkipGroup;
  }

  /** A group ends at an end tag: its own, if it is inside another group, whatever number otherwise; another
      number, and the number zero, throw. */
  lemma GroupEndExact(buf: bytes, pos: nat, p: nat, field: Option<nat>)
    requires VarintAt(buf, pos, p)
    ensures var tag := Value(buf[pos..p]) % 0x1_0000_0000;
      && (tag / 8 == 0 ==> SkipGroup(buf, pos, field).Fail?)
      && (tag / 8 != 0 && tag % 8 == 4 ==>
            if field == None || field == Some(tag / 8) then SkipGroup(buf, pos, field) == Got((), p)
            else SkipGroup(buf, pos, field).Fail?)
  {
    NumbersExact(buf, pos, p);
    hide Value, ReadInt32, ReadLong, ReadScalar, ReadUint32, IsVarint, Skip;
  }
}
