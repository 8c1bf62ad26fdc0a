/**
 Single properties of a message and what their rows write: the equations a hand-written `encode` is
 checked against.
 */
module Fields {
  import opened Wire
  import opened Codec
  import opened Streams
  import opened RoundTrip
  import opened Decoded

  function OptStrSlot(o: Option<bytes>): Slot {
    if o.Some? then Slot([Str(o.value)]) else Slot([])
  }

  function BoolSlot(b: bool): Slot {
    Slot([Bool(b)])
  }

  function OptIntSlot(o: Option<int>): Slot {
    if o.Some? then Slot([Int(o.value)]) else Slot([])
  }

  function OptDoubleSlot(o: Option<bytes>): Slot {
    if o.Some? then Slot([Fixed(o.value)]) else Slot([])
  }

  function StrsSlot(ss: seq<bytes>): Slot {
    Slot(seq(|ss|, i requires 0 <= i < |ss| => Str(ss[i])))
  }

  function IntsSlot(ints: seq<int>): Slot {
    Slot(Ints(ints))
  }

  function OptSubSlot(o: Option<Msg>): Slot {
    if o.Some? then Slot([Sub(o.value)]) else Slot([])
  }

  function SubsSlot(ms: seq<Msg>): Slot {
    Slot(seq(|ms|, i requires 0 <= i < |ms| => Sub(ms[i])))
  }

  // ---------------------------------------------------------------- what the rows write

  /** The output after the first `n` rows of `encode` and the first `j` records of the next. */
  ghost function Out(start: bytes, g: Grammar, t: nat, m: Msg, n: nat, j: nat): bytes
    requires GrammarOk(g) && t < |g| && ValidMsg(g, t, m) && n < |m.slots|
    requires j <= |RowRecords(g, g[t].plan[n], m.slots[n])|
  {
    start + Flat(Records(g, t, m, n)) + Flat(RowRecords(g, g[t].plan[n], m.slots[n])[..j])
  }

  /** The output after the first `n` rows. */
  ghost function Written(start: bytes, g: Grammar, t: nat, m: Msg, n: nat): bytes
    requires GrammarOk(g) && t < |g| && ValidMsg(g, t, m) && n <= |m.slots|
  {
    start + Flat(Records(g, t, m, n))
  }

  lemma FlatOne(c: bytes)
    ensures Flat([c]) == c
  {
    assert [c][1..] == [];
  }

  lemma WrittenNone(start: bytes, g: Grammar, t: nat, m: Msg)
    requires GrammarOk(g) && t < |g| && ValidMsg(g, t, m)
    ensures Written(start, g, t, m, 0) == start
  {
  }

  lemma WrittenAll(start: bytes, g: Grammar, t: nat, m: Msg)
    requires GrammarOk(g) && t < |g| && ValidMsg(g, t, m)
    ensures Written(start, g, t, m, |m.slots|) == start + Encode(g, t, m)
  {
  }

  lemma RowStarts(start: bytes, g: Grammar, t: nat, m: Msg, n: nat)
    requires GrammarOk(g) && t < |g| && ValidMsg(g, t, m) && n < |m.slots|
    ensures Out(start, g, t, m, n, 0) == Written(start, g, t, m, n)
  {
  }

  lemma RowEnds(start: bytes, g: Grammar, t: nat, m: Msg, n: nat)
    requires GrammarOk(g) && t < |g| && ValidMsg(g, t, m) && n < |m.slots|
    ensures ValidSlot(g, g[t].plan[n], m.slots[n])
    ensures Out(start, g, t, m, n, |RowRecords(g, g[t].plan[n], m.slots[n])|) == Written(start, g, t, m, n + 1)
  {
    var cs, ds := Records(g, t, m, n), RowRecords(g, g[t].plan[n], m.slots[n]);
    FlatAppend(cs, ds);
    assert ds[..|ds|] == ds;
    assert start + (Flat(cs) + Flat(ds)) == start + Flat(cs) + Flat(ds);
  }

  lemma RowGoesOn(start: bytes, g: Grammar, t: nat, m: Msg, n: nat, j: nat)
    requires GrammarOk(g) && t < |g| && ValidMsg(g, t, m) && n < |m.slots|
    requires ValidSlot(g, g[t].plan[n], m.slots[n]) && j < |RowRecords(g, g[t].plan[n], m.slots[n])|
    ensures Out(start, g, t, m, n, j + 1) == Out(start, g, t, m, n, j) + RowRecords(g, g[t].plan[n], m.slots[n])[j]
  {
    var ds := RowRecords(g, g[t].plan[n], m.slots[n]);
    FlatAppend(ds[..j], [ds[j]]);
    FlatOne(ds[j]);
    assert ds[..j + 1] == ds[..j] + [ds[j]];
    hide RowRecords, Records, Flat, ValidSlot, ValidMsg;
    assert start + Flat(Records(g, t, m, n)) + (Flat(ds[..j]) + ds[j]) == start + Flat(Records(g, t, m, n)) + Flat(ds[..j]) + ds[j];
  }

  /** A row that writes no record. */
  lemma RowSilent(start: bytes, g: Grammar, t: nat, m: Msg, n: nat)
    requires GrammarOk(g) && t < |g| && ValidMsg(g, t, m) && n < |m.slots|
    requires ValidSlot(g, g[t].plan[n], m.slots[n]) && RowRecords(g, g[t].plan[n], m.slots[n]) == []
    ensures Written(start, g, t, m, n + 1) == Written(start, g, t, m, n)
  {
    hide *;
    RowStarts(start, g, t, m, n);
    RowEnds(start, g, t, m, n);
  }

  /** A row that writes one record. */
  lemma RowSpeaks(start: bytes, g: Grammar, t: nat, m: Msg, n: nat, tag: bytes, payload: bytes)
    requires GrammarOk(g) && t < |g| && ValidMsg(g, t, m) && n < |m.slots|
    requires ValidSlot(g, g[t].plan[n], m.slots[n]) && RowRecords(g, g[t].plan[n], m.slots[n]) == [tag + payload]
    ensures Written(start, g, t, m, n + 1) == Written(start, g, t, m, n) + tag + payload
  {
    hide *;
    RowStarts(start, g, t, m, n);
    RowGoesOn(start, g, t, m, n, 0);
    RowEnds(start, g, t, m, n);
    assert Written(start, g, t, m, n) + (tag + payload) == Written(start, g, t, m, n) + tag + payload;
  }

  lemma SlotIsValid(g: Grammar, t: nat, m: Msg, n: nat)
    requires GrammarOk(g) && t < |g| && ValidMsg(g, t, m) && n < |m.slots|
    ensures |m.slots| == |g[t].plan|
    ensures KindOk(g, g[t].plan[n].kind)
    ensures ValidSlot(g, g[t].plan[n], m.slots[n])
  {
  }

  /** A single value: unless it is missing or, for a row with a default, equal to it, its tag and payload. */
  lemma ScalarWritten(start: bytes, g: Grammar, t: nat, m: Msg, n: nat)
    requires GrammarOk(g) && t < |g| && ValidMsg(g, t, m) && n < |m.slots| == |g[t].plan|
    requires !g[t].plan[n].kind.KMsg? && (g[t].plan[n].rule.Implicit? || g[t].plan[n].rule.Explicit?)
    ensures |m.slots[n].vals| <= 1
    ensures m.slots[n].vals != [] ==> ScalarOk(g[t].plan[n].kind, m.slots[n].vals[0])
    ensures var row, slot := g[t].plan[n], m.slots[n];
      Written(start, g, t, m, n + 1)
        == if slot.vals == [] || (row.rule.Implicit? && Omitted(row, slot)) then Written(start, g, t, m, n)
           else Written(start, g, t, m, n) + Varint(row.tag) + ScalarBytes(row.kind, slot.vals[0])
  {
    hide GrammarOk, ValidMsg, Written, Varint, ScalarBytes, Omitted, KindOk;
    SlotIsValid(g, t, m, n);
    var row, slot := g[t].plan[n], m.slots[n];
    assert slot.vals != [] ==> ValidVal(g, row.kind, slot.vals[0]);
    if slot.vals == [] || (row.rule.Implicit? && Omitted(row, slot)) {
      RowSilent(start, g, t, m, n);
    } else {
      RowSpeaks(start, g, t, m, n, Varint(row.tag), ScalarBytes(row.kind, slot.vals[0]));
    }
  }

  /** A string, unless it is undefined or empty. */
  lemma StrWritten(start: bytes, g: Grammar, t: nat, m: Msg, n: nat, tag: nat, s: Option<bytes>)
    requires GrammarOk(g) && t < |g| && ValidMsg(g, t, m) && n < |m.slots| == |g[t].plan|
    requires g[t].plan[n] == Row(tag, KStr, Implicit(Str([]))) && m.slots[n] == OptStrSlot(s)
    ensures s.Some? ==> |s.value| < TWO_32
    ensures Written(start, g, t, m, n + 1)
         == if s == None || s == Some([]) then Written(start, g, t, m, n)
            else Written(start, g, t, m, n) + Varint(tag) + LengthPrefixed(s.value)
  {
    hide GrammarOk, ValidMsg, Written, Varint, LengthPrefixed;
    ScalarWritten(start, g, t, m, n);
  }

  /** A string, unless it is undefined. */
  lemma OptStrWritten(start: bytes, g: Grammar, t: nat, m: Msg, n: nat, tag: nat, o: Option<bytes>)
    requires GrammarOk(g) && t < |g| && ValidMsg(g, t, m) && n < |m.slots| == |g[t].plan|
    requires g[t].plan[n] == Row(tag, KStr, Explicit) && m.slots[n] == OptStrSlot(o)
    ensures o.Some? ==> |o.value| < TWO_32
    ensures Written(start, g, t, m, n + 1)
         == if o == None then Written(start, g, t, m, n)
            else Written(start, g, t, m, n) + Varint(tag) + LengthPrefixed(o.value)
  {
    hide GrammarOk, ValidMsg, Written, Varint, LengthPrefixed;
    ScalarWritten(start, g, t, m, n);
  }

  /** A flag, unless it is false. */
  lemma BoolWritten(start: bytes, g: Grammar, t: nat, m: Msg, n: nat, tag: nat, b: bool)
    requires GrammarOk(g) && t < |g| && ValidMsg(g, t, m) && n < |m.slots| == |g[t].plan|
    requires g[t].plan[n] == Row(tag, KBool, Implicit(Bool(false))) && m.slots[n] == BoolSlot(b)
    ensures Written(start, g, t, m, n + 1)
         == if b == false then Written(start, g, t, m, n)
            else Written(start, g, t, m, n) + Varint(tag) + [if b then 1 else 0]
  {
    hide GrammarOk, ValidMsg, Written, Varint;
    ScalarWritten(start, g, t, m, n);
  }

  /** A 64-bit integer, unless it is undefined or zero. */
  lemma LongWritten(start: bytes, g: Grammar, t: nat, m: Msg, n: nat, tag: nat, signed: bool, o: Option<int>)
    requires GrammarOk(g) && t < |g| && ValidMsg(g, t, m) && n < |m.slots| == |g[t].plan|
    requires g[t].plan[n] == Row(tag, if signed then KInt64 else KUint64, Implicit(Int(0))) && m.slots[n] == OptIntSlot(o)
    ensures o.Some? ==> (if signed then -MAX_SAFE else 0) <= o.value <= MAX_SAFE
    ensures Written(start, g, t, m, n + 1)
         == if o == None || o == Some(0) then Written(start, g, t, m, n)
            else Written(start, g, t, m, n) + Varint(tag) + Varint(Unsigned64(o.value))
  {
    hide GrammarOk, ValidMsg, Written, Varint;
    ScalarWritten(start, g, t, m, n);
  }

  /** A double, unless it is undefined or compares equal to zero. */
  lemma DoubleWritten(start: bytes, g: Grammar, t: nat, m: Msg, n: nat, tag: nat, o: Option<bytes>)
    requires GrammarOk(g) && t < |g| && ValidMsg(g, t, m) && n < |m.slots| == |g[t].plan|
    requires g[t].plan[n] == Row(tag, KDouble, Implicit(Fixed(PLUS_ZERO))) && m.slots[n] == OptDoubleSlot(o)
    ensures o.Some? ==> |o.value| == 8
    ensures Written(start, g, t, m, n + 1)
         == if o == None || IsZeroDouble(o.value) then Written(start, g, t, m, n)
            else Written(start, g, t, m, n) + Varint(tag) + o.value
  {
    hide GrammarOk, ValidMsg, Written, Varint;
    ScalarWritten(start, g, t, m, n);
  }

  /** A sub-message, unless it is undefined. */
  lemma OptSubWritten(start: bytes, g: Grammar, t: nat, m: Msg, n: nat, tag: nat, s: nat, o: Option<Msg>)
    requires GrammarOk(g) && t < |g| && ValidMsg(g, t, m) && n < |m.slots| == |g[t].plan| && s < |g|
    requires g[t].plan[n] == Row(tag, KMsg(s), Explicit) && m.slots[n] == OptSubSlot(o)
    ensures o.Some? ==> ValidMsg(g, s, o.value) && |Encode(g, s, o.value)| < TWO_32
    ensures Written(start, g, t, m, n + 1)
         == if o == None then Written(start, g, t, m, n)
            else Written(start, g, t, m, n) + Varint(tag) + LengthPrefixed(Encode(g, s, o.value))
  {
    hide GrammarOk, ValidMsg, Written, Varint, LengthPrefixed, Encode;
    SlotIsValid(g, t, m, n);
    if o.Some? {
      assert ValidVal(g, KMsg(s), m.slots[n].vals[0]);
      RowSpeaks(start, g, t, m, n, Varint(tag), LengthPrefixed(Encode(g, s, o.value)));
    } else {
      RowSilent(start, g, t, m, n);
    }
  }

  /** A list: its records one after the other. */
  lemma ListStarts(start: bytes, g: Grammar, t: nat, m: Msg, n: nat)
    requires GrammarOk(g) && t < |g| && ValidMsg(g, t, m) && n < |m.slots| == |g[t].plan|
    requires g[t].plan[n].rule.Repeated?
    ensures ValidSlot(g, g[t].plan[n], m.slots[n])
    ensures |RowRecords(g, g[t].plan[n], m.slots[n])| == |m.slots[n].vals|
    ensures Out(start, g, t, m, n, 0) == Written(start, g, t, m, n)
    ensures Out(start, g, t, m, n, |m.slots[n].vals|) == Written(start, g, t, m, n + 1)
  {
    hide GrammarOk, ValidMsg, Written, Out, Varint;
    SlotIsValid(g, t, m, n);
    RowStarts(start, g, t, m, n);
    RowEnds(start, g, t, m, n);
  }

  lemma SubWritten(start: bytes, g: Grammar, t: nat, m: Msg, n: nat, tag: nat, s: nat, ms: seq<Msg>, j: nat)
    requires GrammarOk(g) && t < |g| && ValidMsg(g, t, m) && n < |m.slots| == |g[t].plan| && s < |g|
    requires g[t].plan[n] == Row(tag, KMsg(s), Repeated) && m.slots[n] == SubsSlot(ms) && j < |ms|
    ensures ValidSlot(g, g[t].plan[n], m.slots[n]) && j < |RowRecords(g, g[t].plan[n], m.slots[n])|
    ensures ValidMsg(g, s, ms[j]) && |Encode(g, s, ms[j])| < TWO_32
    ensures Out(start, g, t, m, n, j + 1) == Out(start, g, t, m, n, j) + Varint(tag) + LengthPrefixed(Encode(g, s, ms[j]))
  {
    hide GrammarOk, ValidMsg, Written, Out, Varint, LengthPrefixed, Encode;
    SlotIsValid(g, t, m, n);
    assert ValidVal(g, KMsg(s), m.slots[n].vals[j]);
    RowGoesOn(start, g, t, m, n, j);
    var head, payload := Varint(tag), LengthPrefixed(Encode(g, s, ms[j]));
    assert RowRecords(g, g[t].plan[n], m.slots[n])[j] == head + payload;
    Regroup(Out(start, g, t, m, n, j), head, payload);
  }

  lemma Regroup(a: bytes, b: bytes, c: bytes)
    ensures a + (b + c) == a + b + c
  {
  }

  lemma StrOfListWritten(start: bytes, g: Grammar, t: nat, m: Msg, n: nat, tag: nat, ss: seq<bytes>, j: nat)
    requires GrammarOk(g) && t < |g| && ValidMsg(g, t, m) && n < |m.slots| == |g[t].plan|
    requires g[t].plan[n] == Row(tag, KStr, Repeated) && m.slots[n] == StrsSlot(ss) && j < |ss|
    ensures ValidSlot(g, g[t].plan[n], m.slots[n]) && j < |RowRecords(g, g[t].plan[n], m.slots[n])|
    ensures |ss[j]| < TWO_32
    ensures Out(start, g, t, m, n, j + 1) == Out(start, g, t, m, n, j) + Varint(tag) + LengthPrefixed(ss[j])
  {
    hide GrammarOk, ValidMsg, Written, Out, Varint, LengthPrefixed;
    SlotIsValid(g, t, m, n);
    assert ValidVal(g, KStr, m.slots[n].vals[j]);
    RowGoesOn(start, g, t, m, n, j);
    assert RowRecords(g, g[t].plan[n], m.slots[n])[j] == Varint(tag) + LengthPrefixed(ss[j]);
    Regroup(Out(start, g, t, m, n, j), Varint(tag), LengthPrefixed(ss[j]));
  }

  /** A packed list: one record, even for an empty list. */
  lemma PackedWritten(start: bytes, g: Grammar, t: nat, m: Msg, n: nat, tag: nat, ints: seq<int>)
    requires GrammarOk(g) && t < |g| && ValidMsg(g, t, m) && n < |m.slots| == |g[t].plan|
    requires g[t].plan[n] == Row(tag, KInt32, Packed) && m.slots[n] == IntsSlot(ints)
    ensures Int32s(ints) && |PackedBytes(Ints(ints))| < TWO_32
    ensures Written(start, g, t, m, n + 1)
         == Written(start, g, t, m, n) + Varint(tag) + LengthPrefixed(PackedBytes(Ints(ints)))
  {
    hide GrammarOk, ValidMsg, Written, Varint, LengthPrefixed, PackedBytes;
    SlotIsValid(g, t, m, n);
    forall i | i in ints ensures -TWO_31 <= i < TWO_31 {
      var j :| 0 <= j < |ints| && ints[j] == i;
      assert ValidVal(g, KInt32, m.slots[n].vals[j]);
    }
    RowSpeaks(start, g, t, m, n, Varint(tag), LengthPrefixed(PackedBytes(Ints(ints))));
  }

  /** The inner loop of a packed list appends one varint at a time. */
  lemma {:induction false} PackedGrows(ints: seq<int>, i: int)
    requires -TWO_31 <= i < TWO_31
    ensures PackedBytes(Ints(ints + [i])) == PackedBytes(Ints(ints)) + Varint(Unsigned64(i))
    decreases |ints|
  {
    if ints == [] {
      assert Ints(ints + [i])[1..] == [];
    } else {
      assert Ints(ints + [i])[1..] == Ints(ints[1..] + [i]);
      assert Ints(ints)[1..] == Ints(ints[1..]);
      PackedGrows(ints[1..], i);
    }
  }

  /** The inner loop of a packed field, after pushing `done`, has the rest still to read. */
  lemma {:induction false} PackedTail(buf: bytes, start: nat, pos: nat, end: int, pushed: seq<int>)
    requires start <= |buf| && pos <= |buf| && PackedPrefix(buf, start, pos, end, pushed)
    ensures var rest, all := ReadPacked(buf, pos, end), ReadPacked(buf, start, end);
      if rest.Fail? then all.Fail? else all == Got(Ints(pushed) + rest.val, rest.pos)
    decreases |pushed|
  {
    if pushed == [] {
      assert forall vs: seq<Val> :: Ints(pushed) + vs == vs;
    } else {
      var first := ReadInt32(buf, start);
      PackedTail(buf, first.pos, pos, end, pushed[1..]);
      var rest := ReadPacked(buf, pos, end);
      if rest.Got? {
        assert Ints(pushed) + rest.val == [Int(pushed[0])] + (Ints(pushed[1..]) + rest.val);
      }
    }
  }

  /** `pushed` are the integers read from `start` up to `pos`, each begun before `end`. */
  ghost predicate PackedPrefix(buf: bytes, start: nat, pos: nat, end: int, pushed: seq<int>)
    decreases |pushed|
  {
    if pushed == [] then start == pos
    else
      && start < end
      && ReadInt32(buf, start).Got?
      && ReadInt32(buf, start).val == pushed[0]
      && PackedPrefix(buf, ReadInt32(buf, start).pos, pos, end, pushed[1..])
  }

  lemma {:induction false} PackedPrefixGrows(buf: bytes, start: nat, pos: nat, end: int, pushed: seq<int>)
    requires PackedPrefix(buf, start, pos, end, pushed) && pos < end && ReadInt32(buf, pos).Got?
    ensures PackedPrefix(buf, start, ReadInt32(buf, pos).pos, end, pushed + [ReadInt32(buf, pos).val])
    decreases |pushed|
  {
    var i := ReadInt32(buf, pos);
    if pushed != [] {
      PackedPrefixGrows(buf, ReadInt32(buf, start).pos, pos, end, pushed[1..]);
      assert (pushed + [i.val])[1..] == pushed[1..] + [i.val];
    } else {
      assert ([] + [i.val])[1..] == [];
    }
  }

  lemma SameSlots(a: Msg, b: Msg)
    requires |a.slots| == |b.slots| && forall i | 0 <= i < |a.slots| :: a.slots[i] == b.slots[i]
    ensures a == b
  {
    assert a.slots == b.slots;
  }

  lemma NothingBefore(body: bytes)
    ensures [] + body == body
  {
  }

  lemma BaseLists()
    ensures StrsSlot([]) == Slot([]) && IntsSlot([]) == Slot([])
  {
    assert StrsSlot([]).vals == [] && IntsSlot([]).vals == [];
  }

  lemma StrsAre(ss: seq<bytes>)
    ensures |StrsSlot(ss).vals| == |ss|
  {
  }

  lemma PackedStarts(ints: seq<int>)
    ensures PackedBytes(Ints(ints[..0])) == [] && ints[..|ints|] == ints
  {
  }

  lemma PackedGoesOn(ints: seq<int>, i: nat)
    requires Int32s(ints) && i < |ints|
    ensures -TWO_31 <= ints[i] < TWO_31
    ensures PackedBytes(Ints(ints[..i + 1])) == PackedBytes(Ints(ints[..i])) + Varint(Unsigned64(ints[i]))
  {
    assert ints[i] in ints;
    PackedGrows(ints[..i], ints[i]);
    assert ints[..i + 1] == ints[..i] + [ints[i]];
  }

  lemma PackedIsOver(buf: bytes, pos: nat, end: int, pushed: seq<int>)
    requires pos <= |buf| && end <= pos
    ensures ReadPacked(buf, pos, end) == Got([], pos) && Ints(pushed) + [] == Ints(pushed)
  {
  }

  lemma PackedFails(buf: bytes, pos: nat, end: int)
    requires pos <= |buf| && pos < end && ReadInt32(buf, pos).Fail?
    ensures ReadPacked(buf, pos, end).Fail?
  {
  }

  lemma OneInt(i: int)
    ensures Ints([i]) == [Int(i)]
  {
  }

  // ---------------------------------------------------------------- normalising single properties

  lemma NormStr(g: Grammar, tag: nat, s: Option<bytes>)
    requires GrammarOk(g)
    ensures NormSlot(g, Row(tag, KStr, Implicit(Str([]))), OptStrSlot(s)) == OptStrSlot(Some(if s.Some? then s.value else []))
  {
    var row := Row(tag, KStr, Implicit(Str([])));
    assert s.Some? ==> NormVals(g, row, OptStrSlot(s)) == [Str(s.value)];
  }

  lemma NormOptStr(g: Grammar, tag: nat, o: Option<bytes>)
    requires GrammarOk(g)
    ensures NormSlot(g, Row(tag, KStr, Explicit), OptStrSlot(o)) == OptStrSlot(o)
  {
    assert NormVals(g, Row(tag, KStr, Explicit), OptStrSlot(o)) == OptStrSlot(o).vals;
  }

  lemma NormBool(g: Grammar, tag: nat, b: bool)
    requires GrammarOk(g)
    ensures NormSlot(g, Row(tag, KBool, Implicit(Bool(false))), BoolSlot(b)) == BoolSlot(b)
  {
    assert NormVals(g, Row(tag, KBool, Implicit(Bool(false))), BoolSlot(b)) == [Bool(b)];
  }

  lemma NormLong(g: Grammar, tag: nat, k: Kind, o: Option<int>)
    requires GrammarOk(g) && (k == KInt64 || k == KUint64)
    ensures NormSlot(g, Row(tag, k, Implicit(Int(0))), OptIntSlot(o)) == OptIntSlot(Some(if o.Some? then o.value else 0))
  {
    assert o.Some? ==> NormVals(g, Row(tag, k, Implicit(Int(0))), OptIntSlot(o)) == [Int(o.value)];
  }

  lemma NormDouble(g: Grammar, tag: nat, o: Option<bytes>)
    requires GrammarOk(g)
    ensures NormSlot(g, Row(tag, KDouble, Implicit(Fixed(PLUS_ZERO))), OptDoubleSlot(o))
         == OptDoubleSlot(Some(if o.Some? && !IsZeroDouble(o.value) then o.value else PLUS_ZERO))
  {
    assert o.Some? ==> NormVals(g, Row(tag, KDouble, Implicit(Fixed(PLUS_ZERO))), OptDoubleSlot(o)) == [Fixed(o.value)];
  }

  lemma NormStrs(g: Grammar, tag: nat, ss: seq<bytes>)
    requires GrammarOk(g)
    ensures NormSlot(g, Row(tag, KStr, Repeated), StrsSlot(ss)) == StrsSlot(ss)
  {
    assert NormVals(g, Row(tag, KStr, Repeated), StrsSlot(ss)) == StrsSlot(ss).vals;
  }

  lemma NormInts(g: Grammar, tag: nat, ints: seq<int>)
    requires GrammarOk(g)
    ensures NormSlot(g, Row(tag, KInt32, Packed), IntsSlot(ints)) == IntsSlot(ints)
  {
    assert NormVals(g, Row(tag, KInt32, Packed), IntsSlot(ints)) == IntsSlot(ints).vals;
  }

  lemma NormOptSub(g: Grammar, tag: nat, s: nat, o: Option<Msg>, n: Option<Msg>)
    requires GrammarOk(g) && s < |g| && (o.Some? <==> n.Some?)
    requires o.Some? ==> |o.value.slots| == |g[s].plan| && Norm(g, s, o.value) == n.value
    ensures NormSlot(g, Row(tag, KMsg(s), Explicit), OptSubSlot(o)) == OptSubSlot(n)
  {
    hide Norm, GrammarOk;
    assert NormVals(g, Row(tag, KMsg(s), Explicit), OptSubSlot(o)) == OptSubSlot(n).vals;
  }

  lemma NormSubs(g: Grammar, tag: nat, s: nat, ms: seq<Msg>, ns: seq<Msg>)
    requires GrammarOk(g) && s < |g| && |ms| == |ns|
    requires forall i | 0 <= i < |ms| :: |ms[i].slots| == |g[s].plan| && Norm(g, s, ms[i]) == ns[i]
    ensures NormSlot(g, Row(tag, KMsg(s), Repeated), SubsSlot(ms)) == SubsSlot(ns)
  {
    hide Norm, GrammarOk;
    assert NormVals(g, Row(tag, KMsg(s), Repeated), SubsSlot(ms)) == SubsSlot(ns).vals;
  }

  /** Normalisation makes property `i` of `m` that of `r`. */
  predicate NormsAt(g: Grammar, t: nat, m: Msg, r: Msg, i: nat)
    requires GrammarOk(g) && t < |g| && |m.slots| == |r.slots| == |g[t].plan| && i < |m.slots|
  {
    KindOk(g, g[t].plan[i].kind) && NormSlot(g, g[t].plan[i], m.slots[i]) == r.slots[i]
  }

  lemma NormAt(g: Grammar, t: nat, m: Msg, r: Msg)
    requires GrammarOk(g) && t < |g| && |m.slots| == |r.slots| == |g[t].plan|
    requires forall i | 0 <= i < |m.slots| :: NormsAt(g, t, m, r, i)
    ensures Norm(g, t, m) == r
  {
    forall i | 0 <= i < |m.slots| ensures Norm(g, t, m).slots[i] == r.slots[i] {
      assert NormsAt(g, t, m, r, i);
    }
    SameSlots(Norm(g, t, m), r);
  }

  // ---------------------------------------------------------------- a property is read off its slot

  lemma OptStrSame(a: Option<bytes>, b: Option<bytes>)
    requires OptStrSlot(a) == OptStrSlot(b)
    ensures a == b
  {
    assert OptStrSlot(a).vals == OptStrSlot(b).vals;
    if a.Some? && b.Some? {
      assert OptStrSlot(a).vals[0] == OptStrSlot(b).vals[0];
    }
  }

  lemma BoolSame(a: bool, b: bool)
    requires BoolSlot(a) == BoolSlot(b)
    ensures a == b
  {
    assert BoolSlot(a).vals[0] == BoolSlot(b).vals[0];
  }

  lemma LongSame(a: Option<int>, b: Option<int>)
    requires OptIntSlot(a) == OptIntSlot(b)
    ensures a == b
  {
    assert OptIntSlot(a).vals == OptIntSlot(b).vals;
    if a.Some? && b.Some? {
      assert OptIntSlot(a).vals[0] == OptIntSlot(b).vals[0];
    }
  }

  lemma DoubleSame(a: Option<bytes>, b: Option<bytes>)
    requires OptDoubleSlot(a) == OptDoubleSlot(b)
    ensures a == b
  {
    assert OptDoubleSlot(a).vals == OptDoubleSlot(b).vals;
    if a.Some? && b.Some? {
      assert OptDoubleSlot(a).vals[0] == OptDoubleSlot(b).vals[0];
    }
  }

  lemma StrsSame(a: seq<bytes>, b: seq<bytes>)
    requires StrsSlot(a) == StrsSlot(b)
    ensures a == b
  {
    var vs, ws := StrsSlot(a).vals, StrsSlot(b).vals;
    assert |vs| == |a| && |ws| == |b|;
    forall i | 0 <= i < |a| ensures a[i] == b[i] {
      assert vs[i] == Str(a[i]) && ws[i] == Str(b[i]);
    }
  }

  lemma IntsSame(a: seq<int>, b: seq<int>)
    requires IntsSlot(a) == IntsSlot(b)
    ensures a == b
  {
    var vs, ws := IntsSlot(a).vals, IntsSlot(b).vals;
    assert |vs| == |a| && |ws| == |b|;
    forall i | 0 <= i < |a| ensures a[i] == b[i] {
      assert vs[i] == Int(a[i]) && ws[i] == Int(b[i]);
    }
  }

  lemma OptSubSame(a: Option<Msg>, b: Option<Msg>)
    requires OptSubSlot(a) == OptSubSlot(b)
    ensures a == b
  {
    assert OptSubSlot(a).vals == OptSubSlot(b).vals;
    if a.Some? && b.Some? {
      assert OptSubSlot(a).vals[0] == OptSubSlot(b).vals[0];
    }
  }

  lemma SubsSame(a: seq<Msg>, b: seq<Msg>)
    requires SubsSlot(a) == SubsSlot(b)
    ensures a == b
  {
    var vs, ws := SubsSlot(a).vals, SubsSlot(b).vals;
    assert |vs| == |a| && |ws| == |b|;
    forall i | 0 <= i < |a| ensures a[i] == b[i] {
      assert vs[i] == Sub(a[i]) && ws[i] == Sub(b[i]);
    }
  }
}
