/**
 `google/protobuf/descriptor.ts`: the codecs of `UninterpretedOption`, its `NamePart` and
 `SourceCodeInfo_Location` as the file writes them, checked against the tables.
 */
module DescriptorCodec {
  import opened Wire
  import opened Codec
  import opened Decoded
  import opened Buffers
  import opened Fields
  import opened Turns
  import opened Statements
  import opened RoundTrip
  import opened DescriptorSchemas

  // The messages. A property that may be undefined is an option; `createBase` gives the first values.

  datatype NamePart = NamePart(
    namePart: bytes,
    isExtension: bool)

  function CreateBaseNamePart(): NamePart {
    NamePart([], false)
  }

  datatype UninterpretedOption = UninterpretedOption(
    name: seq<NamePart>,
    identifierValue: Option<bytes>,
    positiveIntValue: Option<int>,
    negativeIntValue: Option<int>,
    doubleValue: Option<bytes>,
    stringValue: Option<bytes>,
    aggregateValue: Option<bytes>)

  function CreateBaseUninterpretedOption(): UninterpretedOption {
    UninterpretedOption([], Some([]), Some(0), Some(0), Some(PLUS_ZERO), Some([]), Some([]))
  }

  datatype Location = Location(
    path: seq<int>,
    span: seq<int>,
    leadingComments: Option<bytes>,
    trailingComments: Option<bytes>,
    leadingDetachedComments: seq<bytes>)

  function CreateBaseLocation(): Location {
    Location([], [], Some([]), Some([]), [])
  }

  // ---------------------------------------------------------------- NamePart

  /** The message as the tables see it. */
  function NamePartMsg(m: NamePart): Msg
  {
    Msg([
      OptStrSlot(Some(m.namePart)),
      BoolSlot(m.isExtension)])
  }

  function NamePartMsgs(ms: seq<NamePart>): (r: seq<Msg>)
    ensures |r| == |ms|
  {
    seq(|ms|, i requires 0 <= i < |ms| => NamePartMsg(ms[i]))
  }

  lemma NamePartMsgsAre(ms: seq<NamePart>)
    ensures |SubsSlot(NamePartMsgs(ms)).vals| == |ms|
    ensures forall i | 0 <= i < |ms| :: NamePartMsgs(ms)[i] == NamePartMsg(ms[i])
  {
  }

  lemma NamePartMsgsAppend(ms: seq<NamePart>, m: NamePart)
    ensures SubsSlot(NamePartMsgs(ms + [m])) == Slot(SubsSlot(NamePartMsgs(ms)).vals + [Sub(NamePartMsg(m))])
  {
    hide NamePartMsg;
    var l, r := NamePartMsgs(ms + [m]), NamePartMsgs(ms);
    assert forall i | 0 <= i < |ms| :: l[i] == r[i];
    assert SubsSlot(l).vals == SubsSlot(r).vals + [Sub(NamePartMsg(m))];
  }

  lemma NamePartTable()
    ensures DescriptorGrammar()[UNINTERPRETED_OPTION_NAME_PART] == UninterpretedOption_NamePartSchema()
  {
  }

  lemma NamePartRows(m: NamePart)
    ensures var plan, slots := DescriptorGrammar()[UNINTERPRETED_OPTION_NAME_PART].plan, NamePartMsg(m).slots;
      && |plan| == |slots| == 2
      && plan[0] == Row(10, KStr, Implicit(Str([]))) && slots[0] == OptStrSlot(Some(m.namePart))
      && plan[1] == Row(16, KBool, Implicit(Val.Bool(false))) && slots[1] == BoolSlot(m.isExtension)
  {
    NamePartTable();
    hide DescriptorGrammar;
  }

  lemma NamePartArms()
    ensures var arms := DescriptorGrammar()[UNINTERPRETED_OPTION_NAME_PART].arms;
      && arms.Keys == {10, 16}
      && arms[10] == Arm(0, KStr, Assign)
      && arms[16] == Arm(1, KBool, Assign)
  {
    NamePartTable();
    hide DescriptorGrammar;
    assert UninterpretedOption_NamePartSchema().arms.Keys == {10, 16};
  }

  lemma NamePartBase()
    ensures DescriptorGrammar()[UNINTERPRETED_OPTION_NAME_PART].base == NamePartMsg(CreateBaseNamePart())
  {
    NamePartTable();
    hide DescriptorGrammar;
    SameSlots(DescriptorGrammar()[UNINTERPRETED_OPTION_NAME_PART].base, NamePartMsg(CreateBaseNamePart()));
  }

  /** `encode`: only appends, leaves the forks as they were, and what it appends is the encoding. */
  method EncodeNamePart(message: NamePart, writer: BinaryWriter)
    requires ValidMsg(DescriptorGrammar(), UNINTERPRETED_OPTION_NAME_PART, NamePartMsg(message))
    modifies writer
    ensures writer.stack == old(writer.stack)
    ensures writer.buf == old(writer.buf) + Encode(DescriptorGrammar(), UNINTERPRETED_OPTION_NAME_PART, NamePartMsg(message))
  {
    assert 16 < TWO_32 && UNINTERPRETED_OPTION_NAME_PART < |DescriptorGrammar()|;
    hide *;
    ghost var start, g, t, m := writer.buf, DescriptorGrammar(), UNINTERPRETED_OPTION_NAME_PART, NamePartMsg(message);
    NamePartRows(message);
    WrittenNone(start, g, t, m);
    WriteStr(writer, 10, Some(message.namePart), start, g, t, m, 0);
    WriteBool(writer, 16, message.isExtension, start, g, t, m, 1);
    WrittenAll(start, g, t, m);
  }

  /** `NamePart.encode(v, writer.uint32(tag).fork()).join()` */
  method WriteNamePart(writer: BinaryWriter, tag: nat, message: NamePart)
    requires tag < TWO_32 && ValidMsg(DescriptorGrammar(), UNINTERPRETED_OPTION_NAME_PART, NamePartMsg(message))
    requires |Encode(DescriptorGrammar(), UNINTERPRETED_OPTION_NAME_PART, NamePartMsg(message))| < TWO_32
    modifies writer
    ensures writer.stack == old(writer.stack)
    ensures writer.buf == old(writer.buf) + Varint(tag)
      + LengthPrefixed(Encode(DescriptorGrammar(), UNINTERPRETED_OPTION_NAME_PART, NamePartMsg(message)))
  {
    hide DescriptorGrammar, GrammarOk, ValidMsg, Encode, Varint, LengthPrefixed, NamePartMsg;
    writer.Uint32(tag);
    writer.Fork();
    EncodeNamePart(message, writer);
    NothingBefore(Encode(DescriptorGrammar(), UNINTERPRETED_OPTION_NAME_PART, NamePartMsg(message)));
    writer.Join();
  }

  /** `for (const v of xs)`: a list of sub-messages. */
  method WriteNameParts(writer: BinaryWriter, tag: nat, messages: seq<NamePart>, ghost start: bytes, ghost g: Grammar,
      ghost t: nat, ghost m: Msg, ghost n: nat)
    requires g == DescriptorGrammar() && t < |g| && ValidMsg(g, t, m) && n < |m.slots| == |g[t].plan| && tag < TWO_32
    requires g[t].plan[n] == Row(tag, KMsg(UNINTERPRETED_OPTION_NAME_PART), Repeated) && m.slots[n] == SubsSlot(NamePartMsgs(messages))
    requires writer.buf == Written(start, g, t, m, n)
    modifies writer
    ensures writer.stack == old(writer.stack) && writer.buf == Written(start, g, t, m, n + 1)
  {
    assert tag < TWO_32 && UNINTERPRETED_OPTION_NAME_PART < |g|;
    hide *;
    ListStarts(start, g, t, m, n);
    NamePartMsgsAre(messages);
    for i := 0 to |messages|
      invariant writer.stack == old(writer.stack)
      invariant writer.buf == Out(start, g, t, m, n, i)
    {
      SubWritten(start, g, t, m, n, tag, UNINTERPRETED_OPTION_NAME_PART, NamePartMsgs(messages), i);
      WriteNamePart(writer, tag, messages[i]);
    }
  }

  lemma NamePartSetNamePart(m: NamePart, v: bytes)
    ensures Put(NamePartMsg(m), 0, Assign, Str(v)) == NamePartMsg(m.(namePart := v))
  {
    SameSlots(Put(NamePartMsg(m), 0, Assign, Str(v)), NamePartMsg(m.(namePart := v)));
  }

  lemma NamePartSetIsExtension(m: NamePart, v: bool)
    ensures Put(NamePartMsg(m), 1, Assign, Val.Bool(v)) == NamePartMsg(m.(isExtension := v))
  {
    SameSlots(Put(NamePartMsg(m), 1, Assign, Val.Bool(v)), NamePartMsg(m.(isExtension := v)));
  }

  /** `decode`: reads what the tables say, or throws where they do. */
  method DecodeNamePart(reader: BinaryReader, length: Option<nat>) returns (r: Option<NamePart>)
    requires reader.Valid()
    modifies reader
    ensures reader.Valid()
    ensures var d := DecodeUpTo(DescriptorGrammar(), UNINTERPRETED_OPTION_NAME_PART, reader.buf, old(reader.pos), length);
      if r.None? then d.Fail? else d == Got(NamePartMsg(r.value), reader.pos)
  {
    ghost var g, t := DescriptorGrammar(), UNINTERPRETED_OPTION_NAME_PART;
    NamePartArms();
    NamePartBase();
    hide DescriptorGrammar, GrammarOk, Loop, DecodeUpTo, ReadUint32, ReadBytes, ReadScalar, ReadInt32,
      ReadPacked, ReadVarint, ReadValue, ReadField, ReadStep, AfterTag, Skip, Put, Apply, Signed, LongToNumber, Varint,
      Ints, NamePartMsg;
    var end := if length.None? then |reader.buf| else reader.pos + length.value;
    var message := CreateBaseNamePart();
    DecodeIsLoop(g, t, reader.buf, reader.pos, length, end);
    while reader.pos < end
      invariant reader.Valid()
      invariant |NamePartMsg(message).slots| == |g[t].plan|
      invariant Loop(g, t, reader.buf, old(reader.pos), end, g[t].base)
        == Loop(g, t, reader.buf, reader.pos, end, NamePartMsg(message))
      decreases |reader.buf| - reader.pos
    {
      ghost var pos, m := reader.pos, NamePartMsg(message);
      var read := reader.Uint32();
      if read.None? {
        NoTagTurn(g, t, reader.buf, pos, end, m);
        return None;
      }
      var tag := read.value;
      match tag / 8 {
        case 1 =>
          if tag == 10 {
            StrTurn(g, t, reader.buf, pos, end, m, 10, reader.pos, 0, Assign);
            var v :- reader.String();
            NamePartSetNamePart(message, v);
            message := message.(namePart := v);
            continue;
          }
        case 2 =>
          if tag == 16 {
            BoolTurn(g, t, reader.buf, pos, end, m, 16, reader.pos, 1);
            var v :- reader.Bool();
            NamePartSetIsExtension(message, v);
            message := message.(isExtension := v);
            continue;
          }
        case _ =>
      }
      OtherTurn(g, t, reader.buf, pos, end, m, tag, reader.pos);
      if tag % 8 == 4 || tag == 0 {
        return Some(message);
      }
      var _ :- reader.Skip(tag % 8);
    }
    LoopIsOver(g, t, reader.buf, reader.pos, end, NamePartMsg(message));
    return Some(message);
  }

  // ---------------------------------------------------------------- UninterpretedOption

  /** The message as the tables see it. */
  function UninterpretedOptionMsg(m: UninterpretedOption): Msg
  {
    Msg([
      SubsSlot(NamePartMsgs(m.name)),
      OptStrSlot(m.identifierValue),
      OptIntSlot(m.positiveIntValue),
      OptIntSlot(m.negativeIntValue),
      OptDoubleSlot(m.doubleValue),
      OptStrSlot(m.stringValue),
      OptStrSlot(m.aggregateValue)])
  }

  lemma UninterpretedOptionTable()
    ensures DescriptorGrammar()[UNINTERPRETED_OPTION] == UninterpretedOptionSchema()
  {
  }

  lemma UninterpretedOptionRows(m: UninterpretedOption)
    ensures var plan, slots := DescriptorGrammar()[UNINTERPRETED_OPTION].plan, UninterpretedOptionMsg(m).slots;
      && |plan| == |slots| == 7
      && plan[0] == Row(18, KMsg(UNINTERPRETED_OPTION_NAME_PART), Repeated) && slots[0] == SubsSlot(NamePartMsgs(m.name))
      && plan[1] == Row(26, KStr, Implicit(Str([]))) && slots[1] == OptStrSlot(m.identifierValue)
      && plan[2] == Row(32, KUint64, Implicit(Int(0))) && slots[2] == OptIntSlot(m.positiveIntValue)
      && plan[3] == Row(40, KInt64, Implicit(Int(0))) && slots[3] == OptIntSlot(m.negativeIntValue)
      && plan[4] == Row(49, KDouble, Implicit(Fixed(PLUS_ZERO))) && slots[4] == OptDoubleSlot(m.doubleValue)
      && plan[5] == Row(58, KStr, Implicit(Str([]))) && slots[5] == OptStrSlot(m.stringValue)
      && plan[6] == Row(66, KStr, Implicit(Str([]))) && slots[6] == OptStrSlot(m.aggregateValue)
  {
    UninterpretedOptionTable();
    hide DescriptorGrammar;
  }

  lemma UninterpretedOptionArms()
    ensures var arms := DescriptorGrammar()[UNINTERPRETED_OPTION].arms;
      && arms.Keys == {18, 26, 32, 40, 49, 58, 66}
      && arms[18] == Arm(0, KMsg(UNINTERPRETED_OPTION_NAME_PART), Push)
      && arms[26] == Arm(1, KStr, Assign)
      && arms[32] == Arm(2, KUint64, Assign)
      && arms[40] == Arm(3, KInt64, Assign)
      && arms[49] == Arm(4, KDouble, Assign)
      && arms[58] == Arm(5, KStr, Assign)
      && arms[66] == Arm(6, KStr, Assign)
  {
    UninterpretedOptionTable();
    hide DescriptorGrammar;
    assert UninterpretedOptionSchema().arms.Keys == {18, 26, 32, 40, 49, 58, 66};
  }

  lemma UninterpretedOptionBase()
    ensures DescriptorGrammar()[UNINTERPRETED_OPTION].base == UninterpretedOptionMsg(CreateBaseUninterpretedOption())
  {
    UninterpretedOptionTable();
    hide DescriptorGrammar;
    assert SubsSlot(NamePartMsgs([])).vals == [];
    SameSlots(DescriptorGrammar()[UNINTERPRETED_OPTION].base, UninterpretedOptionMsg(CreateBaseUninterpretedOption()));
  }

  /** `encode`: only appends, leaves the forks as they were, and what it appends is the encoding. */
  method EncodeUninterpretedOption(message: UninterpretedOption, writer: BinaryWriter)
    requires ValidMsg(DescriptorGrammar(), UNINTERPRETED_OPTION, UninterpretedOptionMsg(message))
    modifies writer
    ensures writer.stack == old(writer.stack)
    ensures writer.buf == old(writer.buf) + Encode(DescriptorGrammar(), UNINTERPRETED_OPTION, UninterpretedOptionMsg(message))
  {
    assert 66 < TWO_32 && UNINTERPRETED_OPTION < |DescriptorGrammar()| && UNINTERPRETED_OPTION_NAME_PART < |DescriptorGrammar()|;
    hide *;
    ghost var start, g, t, m := writer.buf, DescriptorGrammar(), UNINTERPRETED_OPTION, UninterpretedOptionMsg(message);
    UninterpretedOptionRows(message);
    WrittenNone(start, g, t, m);
    WriteNameParts(writer, 18, message.name, start, g, t, m, 0);
    WriteStr(writer, 26, message.identifierValue, start, g, t, m, 1);
    WriteLong(writer, 32, false, message.positiveIntValue, start, g, t, m, 2);
    WriteLong(writer, 40, true, message.negativeIntValue, start, g, t, m, 3);
    WriteDouble(writer, 49, message.doubleValue, start, g, t, m, 4);
    WriteStr(writer, 58, message.stringValue, start, g, t, m, 5);
    WriteStr(writer, 66, message.aggregateValue, start, g, t, m, 6);
    WrittenAll(start, g, t, m);
  }

  lemma UninterpretedOptionPushName(m: UninterpretedOption, v: NamePart)
    ensures Put(UninterpretedOptionMsg(m), 0, Push, Sub(NamePartMsg(v))) == UninterpretedOptionMsg(m.(name := m.name + [v]))
  {
    NamePartMsgsAppend(m.name, v);
    hide NamePartMsgs, SubsSlot;
    SameSlots(Put(UninterpretedOptionMsg(m), 0, Push, Sub(NamePartMsg(v))), UninterpretedOptionMsg(m.(name := m.name + [v])));
  }

  lemma UninterpretedOptionSetIdentifierValue(m: UninterpretedOption, v: bytes)
    ensures Put(UninterpretedOptionMsg(m), 1, Assign, Str(v)) == UninterpretedOptionMsg(m.(identifierValue := Some(v)))
  {
    SameSlots(Put(UninterpretedOptionMsg(m), 1, Assign, Str(v)), UninterpretedOptionMsg(m.(identifierValue := Some(v))));
  }

  lemma UninterpretedOptionSetPositiveIntValue(m: UninterpretedOption, v: int)
    ensures Put(UninterpretedOptionMsg(m), 2, Assign, Int(v)) == UninterpretedOptionMsg(m.(positiveIntValue := Some(v)))
  {
    SameSlots(Put(UninterpretedOptionMsg(m), 2, Assign, Int(v)), UninterpretedOptionMsg(m.(positiveIntValue := Some(v))));
  }

  lemma UninterpretedOptionSetNegativeIntValue(m: UninterpretedOption, v: int)
    ensures Put(UninterpretedOptionMsg(m), 3, Assign, Int(v)) == UninterpretedOptionMsg(m.(negativeIntValue := Some(v)))
  {
    SameSlots(Put(UninterpretedOptionMsg(m), 3, Assign, Int(v)), UninterpretedOptionMsg(m.(negativeIntValue := Some(v))));
  }

  lemma UninterpretedOptionSetDoubleValue(m: UninterpretedOption, v: bytes)
    ensures Put(UninterpretedOptionMsg(m), 4, Assign, Fixed(v)) == UninterpretedOptionMsg(m.(doubleValue := Some(v)))
  {
    SameSlots(Put(UninterpretedOptionMsg(m), 4, Assign, Fixed(v)), UninterpretedOptionMsg(m.(doubleValue := Some(v))));
  }

  lemma UninterpretedOptionSetStringValue(m: UninterpretedOption, v: bytes)
    ensures Put(UninterpretedOptionMsg(m), 5, Assign, Str(v)) == UninterpretedOptionMsg(m.(stringValue := Some(v)))
  {
    SameSlots(Put(UninterpretedOptionMsg(m), 5, Assign, Str(v)), UninterpretedOptionMsg(m.(stringValue := Some(v))));
  }

  lemma UninterpretedOptionSetAggregateValue(m: UninterpretedOption, v: bytes)
    ensures Put(UninterpretedOptionMsg(m), 6, Assign, Str(v)) == UninterpretedOptionMsg(m.(aggregateValue := Some(v)))
  {
    SameSlots(Put(UninterpretedOptionMsg(m), 6, Assign, Str(v)), UninterpretedOptionMsg(m.(aggregateValue := Some(v))));
  }

  /** `decode`: reads what the tables say, or throws where they do. */
  method DecodeUninterpretedOption(reader: BinaryReader, length: Option<nat>) returns (r: Option<UninterpretedOption>)
    requires reader.Valid()
    modifies reader
    ensures reader.Valid()
    ensures var d := DecodeUpTo(DescriptorGrammar(), UNINTERPRETED_OPTION, reader.buf, old(reader.pos), length);
      if r.None? then d.Fail? else d == Got(UninterpretedOptionMsg(r.value), reader.pos)
  {
    ghost var g, t := DescriptorGrammar(), UNINTERPRETED_OPTION;
    UninterpretedOptionArms();
    UninterpretedOptionBase();
    hide DescriptorGrammar, GrammarOk, Loop, DecodeUpTo, ReadUint32, ReadBytes, ReadScalar, ReadInt32,
      ReadPacked, ReadVarint, ReadValue, ReadField, ReadStep, AfterTag, Skip, Put, Apply, Signed, LongToNumber, Varint,
      Ints, NamePartMsg, UninterpretedOptionMsg;
    var end := if length.None? then |reader.buf| else reader.pos + length.value;
    var message := CreateBaseUninterpretedOption();
    DecodeIsLoop(g, t, reader.buf, reader.pos, length, end);
    while reader.pos < end
      invariant reader.Valid()
      invariant |UninterpretedOptionMsg(message).slots| == |g[t].plan|
      invariant Loop(g, t, reader.buf, old(reader.pos), end, g[t].base)
        == Loop(g, t, reader.buf, reader.pos, end, UninterpretedOptionMsg(message))
      decreases |reader.buf| - reader.pos
    {
      ghost var pos, m := reader.pos, UninterpretedOptionMsg(message);
      var read := reader.Uint32();
      if read.None? {
        NoTagTurn(g, t, reader.buf, pos, end, m);
        return None;
      }
      var tag := read.value;
      match tag / 8 {
        case 2 =>
          if tag == 18 {
            SubTurn(g, t, reader.buf, pos, end, m, 18, reader.pos, 0, UNINTERPRETED_OPTION_NAME_PART, Push);
            var len :- reader.Uint32();
            var v :- DecodeNamePart(reader, Some(len));
            UninterpretedOptionPushName(message, v);
            message := message.(name := message.name + [v]);
            continue;
          }
        case 3 =>
          if tag == 26 {
            StrTurn(g, t, reader.buf, pos, end, m, 26, reader.pos, 1, Assign);
            var v :- reader.String();
            UninterpretedOptionSetIdentifierValue(message, v);
            message := message.(identifierValue := Some(v));
            continue;
          }
        case 4 =>
          if tag == 32 {
            LongTurn(g, t, reader.buf, pos, end, m, 32, reader.pos, 2, false);
            var long :- reader.Int64(false);
            var v :- LongToNumber(long);
            UninterpretedOptionSetPositiveIntValue(message, v);
            message := message.(positiveIntValue := Some(v));
            continue;
          }
        case 5 =>
          if tag == 40 {
            LongTurn(g, t, reader.buf, pos, end, m, 40, reader.pos, 3, true);
            var long :- reader.Int64(true);
            var v :- LongToNumber(long);
            UninterpretedOptionSetNegativeIntValue(message, v);
            message := message.(negativeIntValue := Some(v));
            continue;
          }
        case 6 =>
          if tag == 49 {
            DoubleTurn(g, t, reader.buf, pos, end, m, 49, reader.pos, 4);
            var v :- reader.Double();
            UninterpretedOptionSetDoubleValue(message, v);
            message := message.(doubleValue := Some(v));
            continue;
          }
        case 7 =>
          if tag == 58 {
            StrTurn(g, t, reader.buf, pos, end, m, 58, reader.pos, 5, Assign);
            var v :- reader.String();
            UninterpretedOptionSetStringValue(message, v);
            message := message.(stringValue := Some(v));
            continue;
          }
        case 8 =>
          if tag == 66 {
            StrTurn(g, t, reader.buf, pos, end, m, 66, reader.pos, 6, Assign);
            var v :- reader.String();
            UninterpretedOptionSetAggregateValue(message, v);
            message := message.(aggregateValue := Some(v));
            continue;
          }
        case _ =>
      }
      OtherTurn(g, t, reader.buf, pos, end, m, tag, reader.pos);
      if tag % 8 == 4 || tag == 0 {
        return Some(message);
      }
      var _ :- reader.Skip(tag % 8);
    }
    LoopIsOver(g, t, reader.buf, reader.pos, end, UninterpretedOptionMsg(message));
    return Some(message);
  }

  // ---------------------------------------------------------------- Location

  /** The message as the tables see it. */
  function LocationMsg(m: Location): Msg
  {
    Msg([
      IntsSlot(m.path),
      IntsSlot(m.span),
      OptStrSlot(m.leadingComments),
      OptStrSlot(m.trailingComments),
      StrsSlot(m.leadingDetachedComments)])
  }

  lemma LocationTable()
    ensures DescriptorGrammar()[SOURCE_CODE_INFO_LOCATION] == SourceCodeInfo_LocationSchema()
  {
  }

  lemma LocationRows(m: Location)
    ensures var plan, slots := DescriptorGrammar()[SOURCE_CODE_INFO_LOCATION].plan, LocationMsg(m).slots;
      && |plan| == |slots| == 5
      && plan[0] == Row(10, KInt32, Packed) && slots[0] == IntsSlot(m.path)
      && plan[1] == Row(18, KInt32, Packed) && slots[1] == IntsSlot(m.span)
      && plan[2] == Row(26, KStr, Implicit(Str([]))) && slots[2] == OptStrSlot(m.leadingComments)
      && plan[3] == Row(34, KStr, Implicit(Str([]))) && slots[3] == OptStrSlot(m.trailingComments)
      && plan[4] == Row(50, KStr, Repeated) && slots[4] == StrsSlot(m.leadingDetachedComments)
  {
    LocationTable();
    hide DescriptorGrammar;
  }

  lemma LocationArms()
    ensures var arms := DescriptorGrammar()[SOURCE_CODE_INFO_LOCATION].arms;
      && arms.Keys == {8, 10, 16, 18, 26, 34, 50}
      && arms[8] == Arm(0, KInt32, Push)
      && arms[10] == Arm(0, KInt32, PushPacked)
      && arms[16] == Arm(1, KInt32, Push)
      && arms[18] == Arm(1, KInt32, PushPacked)
      && arms[26] == Arm(2, KStr, Assign)
      && arms[34] == Arm(3, KStr, Assign)
      && arms[50] == Arm(4, KStr, Push)
  {
    LocationTable();
    hide DescriptorGrammar;
    assert SourceCodeInfo_LocationSchema().arms.Keys == {8, 10, 16, 18, 26, 34, 50};
  }

  lemma LocationBase()
    ensures DescriptorGrammar()[SOURCE_CODE_INFO_LOCATION].base == LocationMsg(CreateBaseLocation())
  {
    LocationTable();
    hide DescriptorGrammar;
    BaseLists();
    SameSlots(DescriptorGrammar()[SOURCE_CODE_INFO_LOCATION].base, LocationMsg(CreateBaseLocation()));
  }

  /** `encode`: only appends, leaves the forks as they were, and what it appends is the encoding. */
  method EncodeLocation(message: Location, writer: BinaryWriter)
    requires ValidMsg(DescriptorGrammar(), SOURCE_CODE_INFO_LOCATION, LocationMsg(message))
    modifies writer
    ensures writer.stack == old(writer.stack)
    ensures writer.buf == old(writer.buf) + Encode(DescriptorGrammar(), SOURCE_CODE_INFO_LOCATION, LocationMsg(message))
  {
    assert 50 < TWO_32 && SOURCE_CODE_INFO_LOCATION < |DescriptorGrammar()|;
    hide *;
    ghost var start, g, t, m := writer.buf, DescriptorGrammar(), SOURCE_CODE_INFO_LOCATION, LocationMsg(message);
    LocationRows(message);
    WrittenNone(start, g, t, m);
    WritePacked(writer, 10, message.path, start, g, t, m, 0);
    WritePacked(writer, 18, message.span, start, g, t, m, 1);
    WriteStr(writer, 26, message.leadingComments, start, g, t, m, 2);
    WriteStr(writer, 34, message.trailingComments, start, g, t, m, 3);
    WriteStrs(writer, 50, message.leadingDetachedComments, start, g, t, m, 4);
    WrittenAll(start, g, t, m);
  }

  lemma LocationPushOnePath(m: Location, i: int)
    ensures Apply(LocationMsg(m), Add(0, [Int(i)])) == LocationMsg(m.(path := m.path + [i]))
  {
    OneInt(i);
    LocationPushPath(m, [i]);
  }

  lemma LocationPushPath(m: Location, ints: seq<int>)
    ensures Apply(LocationMsg(m), Add(0, Ints(ints))) == LocationMsg(m.(path := m.path + ints))
  {
    assert Ints(m.path + ints) == Ints(m.path) + Ints(ints);
    SameSlots(Apply(LocationMsg(m), Add(0, Ints(ints))), LocationMsg(m.(path := m.path + ints)));
  }

  lemma LocationPushOneSpan(m: Location, i: int)
    ensures Apply(LocationMsg(m), Add(1, [Int(i)])) == LocationMsg(m.(span := m.span + [i]))
  {
    OneInt(i);
    LocationPushSpan(m, [i]);
  }

  lemma LocationPushSpan(m: Location, ints: seq<int>)
    ensures Apply(LocationMsg(m), Add(1, Ints(ints))) == LocationMsg(m.(span := m.span + ints))
  {
    assert Ints(m.span + ints) == Ints(m.span) + Ints(ints);
    SameSlots(Apply(LocationMsg(m), Add(1, Ints(ints))), LocationMsg(m.(span := m.span + ints)));
  }

  lemma LocationSetLeadingComments(m: Location, v: bytes)
    ensures Put(LocationMsg(m), 2, Assign, Str(v)) == LocationMsg(m.(leadingComments := Some(v)))
  {
    SameSlots(Put(LocationMsg(m), 2, Assign, Str(v)), LocationMsg(m.(leadingComments := Some(v))));
  }

  lemma LocationSetTrailingComments(m: Location, v: bytes)
    ensures Put(LocationMsg(m), 3, Assign, Str(v)) == LocationMsg(m.(trailingComments := Some(v)))
  {
    SameSlots(Put(LocationMsg(m), 3, Assign, Str(v)), LocationMsg(m.(trailingComments := Some(v))));
  }

  lemma LocationPushLeadingDetachedComments(m: Location, v: bytes)
    ensures Put(LocationMsg(m), 4, Push, Str(v)) == LocationMsg(m.(leadingDetachedComments := m.leadingDetachedComments + [v]))
  {
    assert StrsSlot(m.leadingDetachedComments + [v]).vals == StrsSlot(m.leadingDetachedComments).vals + [Str(v)];
    SameSlots(Put(LocationMsg(m), 4, Push, Str(v)), LocationMsg(m.(leadingDetachedComments := m.leadingDetachedComments + [v])));
  }

  /** `decode`: reads what the tables say, or throws where they do. */
  method DecodeLocation(reader: BinaryReader, length: Option<nat>) returns (r: Option<Location>)
    requires reader.Valid()
    modifies reader
    ensures reader.Valid()
    ensures var d := DecodeUpTo(DescriptorGrammar(), SOURCE_CODE_INFO_LOCATION, reader.buf, old(reader.pos), length);
      if r.None? then d.Fail? else d == Got(LocationMsg(r.value), reader.pos)
  {
    ghost var g, t := DescriptorGrammar(), SOURCE_CODE_INFO_LOCATION;
    LocationArms();
    LocationBase();
    hide DescriptorGrammar, GrammarOk, Loop, DecodeUpTo, ReadUint32, ReadBytes, ReadScalar, ReadInt32,
      ReadPacked, ReadVarint, ReadValue, ReadField, ReadStep, AfterTag, Skip, Put, Apply, Signed, LongToNumber, Varint,
      Ints, LocationMsg;
    var end := if length.None? then |reader.buf| else reader.pos + length.value;
    var message := CreateBaseLocation();
    DecodeIsLoop(g, t, reader.buf, reader.pos, length, end);
    while reader.pos < end
      invariant reader.Valid()
      invariant |LocationMsg(message).slots| == |g[t].plan|
      invariant Loop(g, t, reader.buf, old(reader.pos), end, g[t].base)
        == Loop(g, t, reader.buf, reader.pos, end, LocationMsg(message))
      decreases |reader.buf| - reader.pos
    {
      ghost var pos, m := reader.pos, LocationMsg(message);
      var read := reader.Uint32();
      if read.None? {
        NoTagTurn(g, t, reader.buf, pos, end, m);
        return None;
      }
      var tag := read.value;
      match tag / 8 {
        case 1 =>
          if tag == 8 {
            ElementTurn(g, t, reader.buf, pos, end, m, 8, reader.pos, 0);
            var v :- reader.Int32();
            LocationPushOnePath(message, v);
            message := message.(path := message.path + [v]);
            continue;
          }
          if tag == 10 {
            PackedTurn(g, t, reader.buf, pos, end, m, 10, reader.pos, 0);
            var len :- reader.Uint32();
            var end2 := len + reader.pos;
            var ints :- ReadInts(reader, end2);
            LocationPushPath(message, ints);
            message := message.(path := message.path + ints);
            continue;
          }
        case 2 =>
          if tag == 16 {
            ElementTurn(g, t, reader.buf, pos, end, m, 16, reader.pos, 1);
            var v :- reader.Int32();
            LocationPushOneSpan(message, v);
            message := message.(span := message.span + [v]);
            continue;
          }
          if tag == 18 {
            PackedTurn(g, t, reader.buf, pos, end, m, 18, reader.pos, 1);
            var len :- reader.Uint32();
            var end2 := len + reader.pos;
            var ints :- ReadInts(reader, end2);
            LocationPushSpan(message, ints);
            message := message.(span := message.span + ints);
            continue;
          }
        case 3 =>
          if tag == 26 {
            StrTurn(g, t, reader.buf, pos, end, m, 26, reader.pos, 2, Assign);
            var v :- reader.String();
            LocationSetLeadingComments(message, v);
            message := message.(leadingComments := Some(v));
            continue;
          }
        case 4 =>
          if tag == 34 {
            StrTurn(g, t, reader.buf, pos, end, m, 34, reader.pos, 3, Assign);
            var v :- reader.String();
            LocationSetTrailingComments(message, v);
            message := message.(trailingComments := Some(v));
            continue;
          }
        case 6 =>
          if tag == 50 {
            StrTurn(g, t, reader.buf, pos, end, m, 50, reader.pos, 4, Push);
            var v :- reader.String();
            LocationPushLeadingDetachedComments(message, v);
            message := message.(leadingDetachedComments := message.leadingDetachedComments + [v]);
            continue;
          }
        case _ =>
      }
      OtherTurn(g, t, reader.buf, pos, end, m, tag, reader.pos);
      if tag % 8 == 4 || tag == 0 {
        return Some(message);
      }
      var _ :- reader.Skip(tag % 8);
    }
    LoopIsOver(g, t, reader.buf, reader.pos, end, LocationMsg(message));
    return Some(message);
  }

  // ---------------------------------------------------------------- there and back

  lemma {:induction false} NamePartNorm(m: NamePart)
    ensures |NamePartMsg(m).slots| == |DescriptorGrammar()[UNINTERPRETED_OPTION_NAME_PART].plan|
    ensures Norm(DescriptorGrammar(), UNINTERPRETED_OPTION_NAME_PART, NamePartMsg(m)) == NamePartMsg(m)
  {
    var g, t := DescriptorGrammar(), UNINTERPRETED_OPTION_NAME_PART;
    assert UNINTERPRETED_OPTION_NAME_PART < |g|;
    hide DescriptorGrammar, GrammarOk, Norm, NormSlot, NamePartMsg, OptStrSlot, BoolSlot, OptSubSlot, SubsSlot,
      OptIntSlot, OptDoubleSlot, StrsSlot, IntsSlot;
    NamePartRows(m);
    assert forall i | 0 <= i < 2 :: KindOk(g, g[t].plan[i].kind);
    NormStr(g, 10, Some(m.namePart));
    NormBool(g, 16, m.isExtension);
    NormAt(g, t, NamePartMsg(m), NamePartMsg(m));
  }

  lemma NamePartsNorm(ms: seq<NamePart>)
    ensures forall i | 0 <= i < |ms| ::
      var s := NamePartMsgs(ms)[i];
        |s.slots| == |DescriptorGrammar()[UNINTERPRETED_OPTION_NAME_PART].plan|
        && Norm(DescriptorGrammar(), UNINTERPRETED_OPTION_NAME_PART, s) == s
  {
    forall i | 0 <= i < |ms|
      ensures var s := NamePartMsgs(ms)[i];
        |s.slots| == |DescriptorGrammar()[UNINTERPRETED_OPTION_NAME_PART].plan|
        && Norm(DescriptorGrammar(), UNINTERPRETED_OPTION_NAME_PART, s) == s
    {
      NamePartNorm(ms[i]);
    }
  }

  lemma {:induction false} NamePartSame(a: NamePart, b: NamePart)
    requires NamePartMsg(a) == NamePartMsg(b)
    ensures a == b
  {
    NamePartRows(a);
    NamePartRows(b);
    hide DescriptorGrammar, NamePartMsg, OptStrSlot, BoolSlot, OptSubSlot, SubsSlot, OptIntSlot, OptDoubleSlot,
      StrsSlot, IntsSlot;
    OptStrSame(Some(a.namePart), Some(b.namePart));
    BoolSame(a.isExtension, b.isExtension);
  }

  /** Undefined scalars become their defaults, and a double that compares equal to zero becomes plus zero. */
  function NormalUninterpretedOption(m: UninterpretedOption): UninterpretedOption {
    UninterpretedOption(
      m.name,
      Some(m.identifierValue.GetOr([])),
      Some(m.positiveIntValue.GetOr(0)),
      Some(m.negativeIntValue.GetOr(0)),
      Some(if m.doubleValue.Some? && !IsZeroDouble(m.doubleValue.value) then m.doubleValue.value else PLUS_ZERO),
      Some(m.stringValue.GetOr([])),
      Some(m.aggregateValue.GetOr([])))
  }

  lemma UninterpretedOptionNorm(m: UninterpretedOption)
    ensures |UninterpretedOptionMsg(m).slots| == |DescriptorGrammar()[UNINTERPRETED_OPTION].plan|
    ensures Norm(DescriptorGrammar(), UNINTERPRETED_OPTION, UninterpretedOptionMsg(m))
      == UninterpretedOptionMsg(NormalUninterpretedOption(m))
  {
    assert UNINTERPRETED_OPTION < |DescriptorGrammar()|;
    hide *;
    var g, t, a, b := DescriptorGrammar(), UNINTERPRETED_OPTION, UninterpretedOptionMsg(m),
      UninterpretedOptionMsg(NormalUninterpretedOption(m));
    UninterpretedOptionRows(m);
    UninterpretedOptionRows(NormalUninterpretedOption(m));
    UninterpretedOptionNorm0To3(m, g, t, a, b);
    UninterpretedOptionNorm3To7(m, g, t, a, b);
    NormAt(g, t, a, b);
  }

  lemma UninterpretedOptionNorm0To3(m: UninterpretedOption, g: Grammar, t: nat, a: Msg, b: Msg)
    requires g == DescriptorGrammar() && t == UNINTERPRETED_OPTION
    requires a == UninterpretedOptionMsg(m) && b == UninterpretedOptionMsg(NormalUninterpretedOption(m))
    requires |a.slots| == |b.slots| == |g[t].plan| == 7
    ensures forall i | 0 <= i < 3 :: NormsAt(g, t, a, b, i)
  {
    assert UNINTERPRETED_OPTION_NAME_PART < |g|;
    hide DescriptorGrammar, GrammarOk, Norm, NormSlot, UninterpretedOptionMsg, OptStrSlot, SubsSlot, OptIntSlot,
      OptDoubleSlot;
    UninterpretedOptionRows(m);
    UninterpretedOptionRows(NormalUninterpretedOption(m));
    NamePartsNorm(m.name);
    NormSubs(g, 18, UNINTERPRETED_OPTION_NAME_PART, NamePartMsgs(m.name), NamePartMsgs(m.name));
    NormStr(g, 26, m.identifierValue);
    NormLong(g, 32, KUint64, m.positiveIntValue);
  }

  lemma UninterpretedOptionNorm3To7(m: UninterpretedOption, g: Grammar, t: nat, a: Msg, b: Msg)
    requires g == DescriptorGrammar() && t == UNINTERPRETED_OPTION
    requires a == UninterpretedOptionMsg(m) && b == UninterpretedOptionMsg(NormalUninterpretedOption(m))
    requires |a.slots| == |b.slots| == |g[t].plan| == 7
    ensures forall i | 3 <= i < 7 :: NormsAt(g, t, a, b, i)
  {
    assert UNINTERPRETED_OPTION_NAME_PART < |g|;
    hide DescriptorGrammar, GrammarOk, Norm, NormSlot, UninterpretedOptionMsg, OptStrSlot, SubsSlot, OptIntSlot,
      OptDoubleSlot;
    UninterpretedOptionRows(m);
    UninterpretedOptionRows(NormalUninterpretedOption(m));
    NormLong(g, 40, KInt64, m.negativeIntValue);
    NormDouble(g, 49, m.doubleValue);
    NormStr(g, 58, m.stringValue);
    NormStr(g, 66, m.aggregateValue);
  }

  lemma {:induction false} UninterpretedOptionSame(a: UninterpretedOption, b: UninterpretedOption)
    requires UninterpretedOptionMsg(a) == UninterpretedOptionMsg(b)
    ensures a == b
  {
    UninterpretedOptionRows(a);
    UninterpretedOptionRows(b);
    hide DescriptorGrammar, UninterpretedOptionMsg, OptStrSlot, BoolSlot, OptSubSlot, SubsSlot, OptIntSlot,
      OptDoubleSlot, StrsSlot, IntsSlot;
    SubsSame(NamePartMsgs(a.name), NamePartMsgs(b.name));
    forall i | 0 <= i < |a.name| ensures a.name[i] == b.name[i] {
      assert NamePartMsgs(a.name)[i] == NamePartMsgs(b.name)[i];
      NamePartSame(a.name[i], b.name[i]);
    }
    OptStrSame(a.identifierValue, b.identifierValue);
    LongSame(a.positiveIntValue, b.positiveIntValue);
    LongSame(a.negativeIntValue, b.negativeIntValue);
    DoubleSame(a.doubleValue, b.doubleValue);
    OptStrSame(a.stringValue, b.stringValue);
    OptStrSame(a.aggregateValue, b.aggregateValue);
  }

  /** What `encode` wrote, wherever it stands, `decode` reads back normalised, and leaves the reader right after it. */
  method UninterpretedOptionRoundTrip(message: UninterpretedOption, before: bytes,
      after: bytes) returns (r: Option<UninterpretedOption>, pos: nat)
    requires ValidMsg(DescriptorGrammar(), UNINTERPRETED_OPTION, UninterpretedOptionMsg(message))
    ensures r == Some(NormalUninterpretedOption(message))
    ensures pos == |before| + |Encode(DescriptorGrammar(), UNINTERPRETED_OPTION, UninterpretedOptionMsg(message))|
  {
    UninterpretedOptionNorm(message);
    assert UNINTERPRETED_OPTION < |DescriptorGrammar()|;
    hide *;
    var writer := new BinaryWriter();
    EncodeUninterpretedOption(message, writer);
    var body := writer.buf;
    NothingBefore(Encode(DescriptorGrammar(), UNINTERPRETED_OPTION, UninterpretedOptionMsg(message)));
    var reader := new BinaryReader.At(before + body + after, |before|);
    r := DecodeUninterpretedOption(reader, Some(|body|));
    DecodeUpToEncoded(DescriptorGrammar(), UNINTERPRETED_OPTION, UninterpretedOptionMsg(message), before, after);
    UninterpretedOptionSame(r.value, NormalUninterpretedOption(message));
    pos := reader.pos;
  }

  /** Undefined comments become empty ones. */
  function NormalLocation(m: Location): Location {
    Location(m.path, m.span, Some(m.leadingComments.GetOr([])), Some(m.trailingComments.GetOr([])), m.leadingDetachedComments)
  }

  lemma {:induction false} LocationNorm(m: Location)
    ensures |LocationMsg(m).slots| == |DescriptorGrammar()[SOURCE_CODE_INFO_LOCATION].plan|
    ensures Norm(DescriptorGrammar(), SOURCE_CODE_INFO_LOCATION, LocationMsg(m)) == LocationMsg(NormalLocation(m))
  {
    var g, t := DescriptorGrammar(), SOURCE_CODE_INFO_LOCATION;
    assert SOURCE_CODE_INFO_LOCATION < |g|;
    hide DescriptorGrammar, GrammarOk, Norm, NormSlot, LocationMsg, OptStrSlot, BoolSlot, OptSubSlot, SubsSlot,
      OptIntSlot, OptDoubleSlot, StrsSlot, IntsSlot;
    LocationRows(m);
    LocationRows(NormalLocation(m));
    assert forall i | 0 <= i < 5 :: KindOk(g, g[t].plan[i].kind);
    NormInts(g, 10, m.path);
    NormInts(g, 18, m.span);
    NormStr(g, 26, m.leadingComments);
    NormStr(g, 34, m.trailingComments);
    NormStrs(g, 50, m.leadingDetachedComments);
    NormAt(g, t, LocationMsg(m), LocationMsg(NormalLocation(m)));
  }

  lemma {:induction false} LocationSame(a: Location, b: Location)
    requires LocationMsg(a) == LocationMsg(b)
    ensures a == b
  {
    LocationRows(a);
    LocationRows(b);
    hide DescriptorGrammar, LocationMsg, OptStrSlot, BoolSlot, OptSubSlot, SubsSlot, OptIntSlot, OptDoubleSlot,
      StrsSlot, IntsSlot;
    IntsSame(a.path, b.path);
    IntsSame(a.span, b.span);
    OptStrSame(a.leadingComments, b.leadingComments);
    OptStrSame(a.trailingComments, b.trailingComments);
    StrsSame(a.leadingDetachedComments, b.leadingDetachedComments);
  }

  /** What `encode` wrote, wherever it stands, `decode` reads back normalised, and leaves the reader right after it. */
  method LocationRoundTrip(message: Location, before: bytes, after: bytes) returns (r: Option<Location>, pos: nat)
    requires ValidMsg(DescriptorGrammar(), SOURCE_CODE_INFO_LOCATION, LocationMsg(message))
    ensures r == Some(NormalLocation(message))
    ensures pos == |before| + |Encode(DescriptorGrammar(), SOURCE_CODE_INFO_LOCATION, LocationMsg(message))|
  {
    LocationNorm(message);
    assert SOURCE_CODE_INFO_LOCATION < |DescriptorGrammar()|;
    hide *;
    var writer := new BinaryWriter();
    EncodeLocation(message, writer);
    var body := writer.buf;
    NothingBefore(Encode(DescriptorGrammar(), SOURCE_CODE_INFO_LOCATION, LocationMsg(message)));
    var reader := new BinaryReader.At(before + body + after, |before|);
    r := DecodeLocation(reader, Some(|body|));
    DecodeUpToEncoded(DescriptorGrammar(), SOURCE_CODE_INFO_LOCATION, LocationMsg(message), before, after);
    LocationSame(r.value, NormalLocation(message));
    pos := reader.pos;
  }
}
