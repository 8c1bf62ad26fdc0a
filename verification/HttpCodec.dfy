/**
 `google/api/http.ts`: the codecs of `Http`, `HttpRule` and `CustomHttpPattern` as the file writes them,
 checked against the tables.
 */
module HttpCodec {
  import opened Wire
  import opened Codec
  import opened Buffers
  import opened Fields
  import opened Turns
  import opened Statements
  import opened RoundTrip
  import opened HttpSchemas

  // The messages. A property that may be undefined is an option; `createBase` gives the first values.

  datatype CustomHttpPattern = CustomHttpPattern(
    kind: bytes,
    path: bytes)

  function CreateBaseCustomHttpPattern(): CustomHttpPattern {
    CustomHttpPattern([], [])
  }

  datatype HttpRule = HttpRule(
    selector: bytes,
    get: Option<bytes>,
    put: Option<bytes>,
    post: Option<bytes>,
    delete: Option<bytes>,
    patch: Option<bytes>,
    custom: Option<CustomHttpPattern>,
    body: bytes,
    responseBody: bytes,
    additionalBindings: seq<HttpRule>)

  function CreateBaseHttpRule(): HttpRule {
    HttpRule([], None, None, None, None, None, None, [], [], [])
  }

  datatype Http = Http(
    rules: seq<HttpRule>,
    fullyDecodeReservedExpansion: bool)

  function CreateBaseHttp(): Http {
    Http([], false)
  }

  // ---------------------------------------------------------------- CustomHttpPattern

  /** The message as the tables see it. */
  function CustomHttpPatternMsg(m: CustomHttpPattern): Msg
  {
    Msg([
      OptStrSlot(Some(m.kind)),
      OptStrSlot(Some(m.path))])
  }

  function OptCustomHttpPatternMsg(o: Option<CustomHttpPattern>): Option<Msg> {
    if o.Some? then Some(CustomHttpPatternMsg(o.value)) else None
  }

  lemma OptCustomHttpPatternIs(o: Option<CustomHttpPattern>)
    ensures OptCustomHttpPatternMsg(o) == if o == None then None else Some(CustomHttpPatternMsg(o.value))
  {
  }

  lemma CustomHttpPatternTable()
    ensures HttpGrammar()[CUSTOM_HTTP_PATTERN] == CustomHttpPatternSchema()
  {
  }

  lemma CustomHttpPatternRows(m: CustomHttpPattern)
    ensures var plan, slots := HttpGrammar()[CUSTOM_HTTP_PATTERN].plan, CustomHttpPatternMsg(m).slots;
      && |plan| == |slots| == 2
      && plan[0] == Row(10, KStr, Implicit(Str([]))) && slots[0] == OptStrSlot(Some(m.kind))
      && plan[1] == Row(18, KStr, Implicit(Str([]))) && slots[1] == OptStrSlot(Some(m.path))
  {
    CustomHttpPatternTable();
    hide HttpGrammar;
  }

  lemma CustomHttpPatternArms()
    ensures var arms := HttpGrammar()[CUSTOM_HTTP_PATTERN].arms;
      && arms.Keys == {10, 18}
      && arms[10] == Arm(0, KStr, Assign)
      && arms[18] == Arm(1, KStr, Assign)
  {
    CustomHttpPatternTable();
    hide HttpGrammar;
    assert CustomHttpPatternSchema().arms.Keys == {10, 18};
  }

  lemma CustomHttpPatternBase()
    ensures HttpGrammar()[CUSTOM_HTTP_PATTERN].base == CustomHttpPatternMsg(CreateBaseCustomHttpPattern())
  {
    CustomHttpPatternTable();
    hide HttpGrammar;
    SameSlots(HttpGrammar()[CUSTOM_HTTP_PATTERN].base, CustomHttpPatternMsg(CreateBaseCustomHttpPattern()));
  }

  /** `encode`: only appends, leaves the forks as they were, and what it appends is the encoding. */
  method EncodeCustomHttpPattern(message: CustomHttpPattern, writer: BinaryWriter)
    requires ValidMsg(HttpGrammar(), CUSTOM_HTTP_PATTERN, CustomHttpPatternMsg(message))
    modifies writer
    ensures writer.stack == old(writer.stack)
    ensures writer.buf == old(writer.buf) + Encode(HttpGrammar(), CUSTOM_HTTP_PATTERN, CustomHttpPatternMsg(message))
  {
    assert 18 < TWO_32 && CUSTOM_HTTP_PATTERN < |HttpGrammar()|;
    hide *;
    ghost var start, g, t, m := writer.buf, HttpGrammar(), CUSTOM_HTTP_PATTERN, CustomHttpPatternMsg(message);
    CustomHttpPatternRows(message);
    WrittenNone(start, g, t, m);
    WriteStr(writer, 10, Some(message.kind), start, g, t, m, 0);
    WriteStr(writer, 18, Some(message.path), start, g, t, m, 1);
    WrittenAll(start, g, t, m);
  }

  /** `CustomHttpPattern.encode(v, writer.uint32(tag).fork()).join()` */
  method WriteCustomHttpPattern(writer: BinaryWriter, tag: nat, message: CustomHttpPattern)
    requires tag < TWO_32 && ValidMsg(HttpGrammar(), CUSTOM_HTTP_PATTERN, CustomHttpPatternMsg(message))
    requires |Encode(HttpGrammar(), CUSTOM_HTTP_PATTERN, CustomHttpPatternMsg(message))| < TWO_32
    modifies writer
    ensures writer.stack == old(writer.stack)
    ensures writer.buf == old(writer.buf) + Varint(tag)
      + LengthPrefixed(Encode(HttpGrammar(), CUSTOM_HTTP_PATTERN, CustomHttpPatternMsg(message)))
  {
    hide HttpGrammar, GrammarOk, ValidMsg, Encode, Varint, LengthPrefixed, CustomHttpPatternMsg;
    writer.Uint32(tag);
    writer.Fork();
    EncodeCustomHttpPattern(message, writer);
    NothingBefore(Encode(HttpGrammar(), CUSTOM_HTTP_PATTERN, CustomHttpPatternMsg(message)));
    writer.Join();
  }

  lemma CustomHttpPatternSetKind(m: CustomHttpPattern, v: bytes)
    ensures Put(CustomHttpPatternMsg(m), 0, Assign, Str(v)) == CustomHttpPatternMsg(m.(kind := v))
  {
    SameSlots(Put(CustomHttpPatternMsg(m), 0, Assign, Str(v)), CustomHttpPatternMsg(m.(kind := v)));
  }

  lemma CustomHttpPatternSetPath(m: CustomHttpPattern, v: bytes)
    ensures Put(CustomHttpPatternMsg(m), 1, Assign, Str(v)) == CustomHttpPatternMsg(m.(path := v))
  {
    SameSlots(Put(CustomHttpPatternMsg(m), 1, Assign, Str(v)), CustomHttpPatternMsg(m.(path := v)));
  }

  /** `decode`: reads what the tables say, or throws where they do. */
  method DecodeCustomHttpPattern(reader: BinaryReader, length: Option<nat>) returns (r: Option<CustomHttpPattern>)
    requires reader.Valid()
    modifies reader
    ensures reader.Valid()
    ensures var d := DecodeUpTo(HttpGrammar(), CUSTOM_HTTP_PATTERN, reader.buf, old(reader.pos), length);
      if r.None? then d.Fail? else d == Got(CustomHttpPatternMsg(r.value), reader.pos)
  {
    ghost var g, t := HttpGrammar(), CUSTOM_HTTP_PATTERN;
    CustomHttpPatternArms();
    CustomHttpPatternBase();
    hide HttpGrammar, GrammarOk, Loop, DecodeUpTo, ReadUint32, ReadBytes, ReadScalar, ReadInt32, ReadPacked,
      ReadVarint, ReadValue, ReadField, ReadStep, AfterTag, Skip, Put, Apply, Signed, LongToNumber, Varint,
      CustomHttpPatternMsg;
    var end := if length.None? then |reader.buf| else reader.pos + length.value;
    var message := CreateBaseCustomHttpPattern();
    DecodeIsLoop(g, t, reader.buf, reader.pos, length, end);
    while reader.pos < end
      invariant reader.Valid()
      invariant |CustomHttpPatternMsg(message).slots| == |g[t].plan|
      invariant Loop(g, t, reader.buf, old(reader.pos), end, g[t].base)
        == Loop(g, t, reader.buf, reader.pos, end, CustomHttpPatternMsg(message))
      decreases |reader.buf| - reader.pos
    {
      ghost var pos, m := reader.pos, CustomHttpPatternMsg(message);
      var read := reader.Uint32();
      if read.None? {
        NoTagTurn(g, t, reader.buf, pos, end, m);
        return None;
      }
      var tag := read.value;
      match tag / 8 {
        case 1 =>
          if tag == 10 {
            StrTurn(g, t, reader.buf, pos, end, m, 10, reader.pos, 0, Assign);
            var v :- reader.String();
            CustomHttpPatternSetKind(message, v);
            message := message.(kind := v);
            continue;
          }
        case 2 =>
          if tag == 18 {
            StrTurn(g, t, reader.buf, pos, end, m, 18, reader.pos, 1, Assign);
            var v :- reader.String();
            CustomHttpPatternSetPath(message, v);
            message := message.(path := v);
            continue;
          }
        case _ =>
      }
      OtherTurn(g, t, reader.buf, pos, end, m, tag, reader.pos);
      if tag % 8 == 4 || tag == 0 {
        return Some(message);
      }
      var _ :- reader.Skip(tag % 8);
    }
    LoopIsOver(g, t, reader.buf, reader.pos, end, CustomHttpPatternMsg(message));
    return Some(message);
  }

  // ---------------------------------------------------------------- HttpRule

  /** The message as the tables see it. */
  function HttpRuleMsg(m: HttpRule): Msg
    decreases m, 1
  {
    Msg([
      OptStrSlot(Some(m.selector)),
      OptStrSlot(m.get),
      OptStrSlot(m.put),
      OptStrSlot(m.post),
      OptStrSlot(m.delete),
      OptStrSlot(m.patch),
      OptSubSlot(OptCustomHttpPatternMsg(m.custom)),
      OptStrSlot(Some(m.body)),
      OptStrSlot(Some(m.responseBody)),
      SubsSlot(HttpRuleMsgs(m.additionalBindings))])
  }

  function HttpRuleMsgs(ms: seq<HttpRule>): (r: seq<Msg>)
    ensures |r| == |ms|
    decreases ms, 0
  {
    seq(|ms|, i requires 0 <= i < |ms| => HttpRuleMsg(ms[i]))
  }

  lemma HttpRuleMsgsAre(ms: seq<HttpRule>)
    ensures |SubsSlot(HttpRuleMsgs(ms)).vals| == |ms|
    ensures forall i | 0 <= i < |ms| :: HttpRuleMsgs(ms)[i] == HttpRuleMsg(ms[i])
  {
  }

  lemma HttpRuleMsgsAppend(ms: seq<HttpRule>, m: HttpRule)
    ensures SubsSlot(HttpRuleMsgs(ms + [m])) == Slot(SubsSlot(HttpRuleMsgs(ms)).vals + [Sub(HttpRuleMsg(m))])
  {
    hide HttpRuleMsg;
    var l, r := HttpRuleMsgs(ms + [m]), HttpRuleMsgs(ms);
    assert forall i | 0 <= i < |ms| :: l[i] == r[i];
    assert SubsSlot(l).vals == SubsSlot(r).vals + [Sub(HttpRuleMsg(m))];
  }

  lemma HttpRuleTable()
    ensures HttpGrammar()[HTTP_RULE] == HttpRuleSchema()
  {
  }

  lemma HttpRuleRows(m: HttpRule)
    ensures var plan, slots := HttpGrammar()[HTTP_RULE].plan, HttpRuleMsg(m).slots;
      && |plan| == |slots| == 10
      && plan[0] == Row(10, KStr, Implicit(Str([]))) && slots[0] == OptStrSlot(Some(m.selector))
      && plan[1] == Row(18, KStr, Explicit) && slots[1] == OptStrSlot(m.get)
      && plan[2] == Row(26, KStr, Explicit) && slots[2] == OptStrSlot(m.put)
      && plan[3] == Row(34, KStr, Explicit) && slots[3] == OptStrSlot(m.post)
      && plan[4] == Row(42, KStr, Explicit) && slots[4] == OptStrSlot(m.delete)
      && plan[5] == Row(50, KStr, Explicit) && slots[5] == OptStrSlot(m.patch)
      && plan[6] == Row(66, KMsg(CUSTOM_HTTP_PATTERN), Explicit) && slots[6] == OptSubSlot(OptCustomHttpPatternMsg(m.custom))
      && plan[7] == Row(58, KStr, Implicit(Str([]))) && slots[7] == OptStrSlot(Some(m.body))
      && plan[8] == Row(98, KStr, Implicit(Str([]))) && slots[8] == OptStrSlot(Some(m.responseBody))
      && plan[9] == Row(90, KMsg(HTTP_RULE), Repeated) && slots[9] == SubsSlot(HttpRuleMsgs(m.additionalBindings))
  {
    HttpRuleTable();
    hide HttpGrammar;
  }

  lemma HttpRuleArms()
    ensures var arms := HttpGrammar()[HTTP_RULE].arms;
      && arms.Keys == {10, 18, 26, 34, 42, 50, 66, 58, 98, 90}
      && arms[10] == Arm(0, KStr, Assign)
      && arms[18] == Arm(1, KStr, Assign)
      && arms[26] == Arm(2, KStr, Assign)
      && arms[34] == Arm(3, KStr, Assign)
      && arms[42] == Arm(4, KStr, Assign)
      && arms[50] == Arm(5, KStr, Assign)
      && arms[66] == Arm(6, KMsg(CUSTOM_HTTP_PATTERN), Assign)
      && arms[58] == Arm(7, KStr, Assign)
      && arms[98] == Arm(8, KStr, Assign)
      && arms[90] == Arm(9, KMsg(HTTP_RULE), Push)
  {
    HttpRuleTable();
    hide HttpGrammar;
    assert HttpRuleSchema().arms.Keys == {10, 18, 26, 34, 42, 50, 66, 58, 98, 90};
  }

  lemma HttpRuleBase()
    ensures HttpGrammar()[HTTP_RULE].base == HttpRuleMsg(CreateBaseHttpRule())
  {
    HttpRuleTable();
    hide HttpGrammar;
    assert SubsSlot(HttpRuleMsgs([])).vals == [];
    SameSlots(HttpGrammar()[HTTP_RULE].base, HttpRuleMsg(CreateBaseHttpRule()));
  }

  /** `encode`: only appends, leaves the forks as they were, and what it appends is the encoding. */
  method EncodeHttpRule(message: HttpRule, writer: BinaryWriter)
    requires ValidMsg(HttpGrammar(), HTTP_RULE, HttpRuleMsg(message))
    modifies writer
    ensures writer.stack == old(writer.stack)
    ensures writer.buf == old(writer.buf) + Encode(HttpGrammar(), HTTP_RULE, HttpRuleMsg(message))
    decreases message, 1
  {
    assert 98 < TWO_32 && CUSTOM_HTTP_PATTERN < |HttpGrammar()| && HTTP_RULE < |HttpGrammar()|;
    hide *;
    ghost var start, g, t, m := writer.buf, HttpGrammar(), HTTP_RULE, HttpRuleMsg(message);
    HttpRuleRows(message);
    WrittenNone(start, g, t, m);
    WriteStr(writer, 10, Some(message.selector), start, g, t, m, 0);
    WriteOptStr(writer, 18, message.get, start, g, t, m, 1);
    WriteOptStr(writer, 26, message.put, start, g, t, m, 2);
    WriteOptStr(writer, 34, message.post, start, g, t, m, 3);
    WriteOptStr(writer, 42, message.delete, start, g, t, m, 4);
    WriteOptStr(writer, 50, message.patch, start, g, t, m, 5);
    OptSubWritten(start, g, t, m, 6, 66, CUSTOM_HTTP_PATTERN, OptCustomHttpPatternMsg(message.custom));
    OptCustomHttpPatternIs(message.custom);
    if message.custom != None {
      WriteCustomHttpPattern(writer, 66, message.custom.value);
    }
    WriteStr(writer, 58, Some(message.body), start, g, t, m, 7);
    WriteStr(writer, 98, Some(message.responseBody), start, g, t, m, 8);
    WriteHttpRules(writer, 90, message.additionalBindings, start, g, t, m, 9);
    WrittenAll(start, g, t, m);
  }

  /** `HttpRule.encode(v, writer.uint32(tag).fork()).join()` */
  method WriteHttpRule(writer: BinaryWriter, tag: nat, message: HttpRule)
    requires tag < TWO_32 && ValidMsg(HttpGrammar(), HTTP_RULE, HttpRuleMsg(message))
    requires |Encode(HttpGrammar(), HTTP_RULE, HttpRuleMsg(message))| < TWO_32
    modifies writer
    ensures writer.stack == old(writer.stack)
    ensures writer.buf == old(writer.buf) + Varint(tag)
      + LengthPrefixed(Encode(HttpGrammar(), HTTP_RULE, HttpRuleMsg(message)))
    decreases message, 2
  {
    hide HttpGrammar, GrammarOk, ValidMsg, Encode, Varint, LengthPrefixed, HttpRuleMsg;
    writer.Uint32(tag);
    writer.Fork();
    EncodeHttpRule(message, writer);
    NothingBefore(Encode(HttpGrammar(), HTTP_RULE, HttpRuleMsg(message)));
    writer.Join();
  }

  /** `for (const v of xs)`: a list of sub-messages. */
  method WriteHttpRules(writer: BinaryWriter, tag: nat, messages: seq<HttpRule>, ghost start: bytes, ghost g: Grammar,
      ghost t: nat, ghost m: Msg, ghost n: nat)
    requires g == HttpGrammar() && t < |g| && ValidMsg(g, t, m) && n < |m.slots| == |g[t].plan| && tag < TWO_32
    requires g[t].plan[n] == Row(tag, KMsg(HTTP_RULE), Repeated) && m.slots[n] == SubsSlot(HttpRuleMsgs(messages))
    requires writer.buf == Written(start, g, t, m, n)
    modifies writer
    ensures writer.stack == old(writer.stack) && writer.buf == Written(start, g, t, m, n + 1)
    decreases messages, 0
  {
    assert tag < TWO_32 && HTTP_RULE < |g|;
    hide *;
    ListStarts(start, g, t, m, n);
    HttpRuleMsgsAre(messages);
    for i := 0 to |messages|
      invariant writer.stack == old(writer.stack)
      invariant writer.buf == Out(start, g, t, m, n, i)
    {
      SubWritten(start, g, t, m, n, tag, HTTP_RULE, HttpRuleMsgs(messages), i);
      WriteHttpRule(writer, tag, messages[i]);
    }
  }

  lemma HttpRuleSetSelector(m: HttpRule, v: bytes)
    ensures Put(HttpRuleMsg(m), 0, Assign, Str(v)) == HttpRuleMsg(m.(selector := v))
  {
    SameSlots(Put(HttpRuleMsg(m), 0, Assign, Str(v)), HttpRuleMsg(m.(selector := v)));
  }

  lemma HttpRuleSetGet(m: HttpRule, v: bytes)
    ensures Put(HttpRuleMsg(m), 1, Assign, Str(v)) == HttpRuleMsg(m.(get := Some(v)))
  {
    SameSlots(Put(HttpRuleMsg(m), 1, Assign, Str(v)), HttpRuleMsg(m.(get := Some(v))));
  }

  lemma HttpRuleSetPut(m: HttpRule, v: bytes)
    ensures Put(HttpRuleMsg(m), 2, Assign, Str(v)) == HttpRuleMsg(m.(put := Some(v)))
  {
    SameSlots(Put(HttpRuleMsg(m), 2, Assign, Str(v)), HttpRuleMsg(m.(put := Some(v))));
  }

  lemma HttpRuleSetPost(m: HttpRule, v: bytes)
    ensures Put(HttpRuleMsg(m), 3, Assign, Str(v)) == HttpRuleMsg(m.(post := Some(v)))
  {
    SameSlots(Put(HttpRuleMsg(m), 3, Assign, Str(v)), HttpRuleMsg(m.(post := Some(v))));
  }

  lemma HttpRuleSetDelete(m: HttpRule, v: bytes)
    ensures Put(HttpRuleMsg(m), 4, Assign, Str(v)) == HttpRuleMsg(m.(delete := Some(v)))
  {
    SameSlots(Put(HttpRuleMsg(m), 4, Assign, Str(v)), HttpRuleMsg(m.(delete := Some(v))));
  }

  lemma HttpRuleSetPatch(m: HttpRule, v: bytes)
    ensures Put(HttpRuleMsg(m), 5, Assign, Str(v)) == HttpRuleMsg(m.(patch := Some(v)))
  {
    SameSlots(Put(HttpRuleMsg(m), 5, Assign, Str(v)), HttpRuleMsg(m.(patch := Some(v))));
  }

  lemma HttpRuleSetCustom(m: HttpRule, v: CustomHttpPattern)
    ensures Put(HttpRuleMsg(m), 6, Assign, Sub(CustomHttpPatternMsg(v))) == HttpRuleMsg(m.(custom := Some(v)))
  {
    SameSlots(Put(HttpRuleMsg(m), 6, Assign, Sub(CustomHttpPatternMsg(v))), HttpRuleMsg(m.(custom := Some(v))));
  }

  lemma HttpRuleSetBody(m: HttpRule, v: bytes)
    ensures Put(HttpRuleMsg(m), 7, Assign, Str(v)) == HttpRuleMsg(m.(body := v))
  {
    SameSlots(Put(HttpRuleMsg(m), 7, Assign, Str(v)), HttpRuleMsg(m.(body := v)));
  }

  lemma HttpRuleSetResponseBody(m: HttpRule, v: bytes)
    ensures Put(HttpRuleMsg(m), 8, Assign, Str(v)) == HttpRuleMsg(m.(responseBody := v))
  {
    SameSlots(Put(HttpRuleMsg(m), 8, Assign, Str(v)), HttpRuleMsg(m.(responseBody := v)));
  }

  lemma HttpRulePushAdditionalBindings(m: HttpRule, v: HttpRule)
    ensures Put(HttpRuleMsg(m), 9, Push, Sub(HttpRuleMsg(v))) == HttpRuleMsg(m.(additionalBindings := m.additionalBindings + [v]))
  {
    HttpRuleMsgsAppend(m.additionalBindings, v);
    hide HttpRuleMsgs, SubsSlot;
    SameSlots(Put(HttpRuleMsg(m), 9, Push, Sub(HttpRuleMsg(v))), HttpRuleMsg(m.(additionalBindings := m.additionalBindings + [v])));
  }

  /** `decode`: reads what the tables say, or throws where they do. */
  method DecodeHttpRule(reader: BinaryReader, length: Option<nat>) returns (r: Option<HttpRule>)
    requires reader.Valid()
    modifies reader
    ensures reader.Valid()
    ensures var d := DecodeUpTo(HttpGrammar(), HTTP_RULE, reader.buf, old(reader.pos), length);
      if r.None? then d.Fail? else d == Got(HttpRuleMsg(r.value), reader.pos)
    decreases |reader.buf| - reader.pos
  {
    ghost var g, t := HttpGrammar(), HTTP_RULE;
    HttpRuleArms();
    HttpRuleBase();
    hide HttpGrammar, GrammarOk, Loop, DecodeUpTo, ReadUint32, ReadBytes, ReadScalar, ReadInt32, ReadPacked,
      ReadVarint, ReadValue, ReadField, ReadStep, AfterTag, Skip, Put, Apply, Signed, LongToNumber, Varint,
      CustomHttpPatternMsg, HttpRuleMsg;
    var end := if length.None? then |reader.buf| else reader.pos + length.value;
    var message := CreateBaseHttpRule();
    DecodeIsLoop(g, t, reader.buf, reader.pos, length, end);
    while reader.pos < end
      invariant reader.Valid()
      invariant |HttpRuleMsg(message).slots| == |g[t].plan|
      invariant Loop(g, t, reader.buf, old(reader.pos), end, g[t].base)
        == Loop(g, t, reader.buf, reader.pos, end, HttpRuleMsg(message))
      decreases |reader.buf| - reader.pos
    {
      ghost var pos, m := reader.pos, HttpRuleMsg(message);
      var read := reader.Uint32();
      if read.None? {
        NoTagTurn(g, t, reader.buf, pos, end, m);
        return None;
      }
      var tag := read.value;
      match tag / 8 {
        case 1 =>
          if tag == 10 {
            StrTurn(g, t, reader.buf, pos, end, m, 10, reader.pos, 0, Assign);
            var v :- reader.String();
            HttpRuleSetSelector(message, v);
            message := message.(selector := v);
            continue;
          }
        case 2 =>
          if tag == 18 {
            StrTurn(g, t, reader.buf, pos, end, m, 18, reader.pos, 1, Assign);
            var v :- reader.String();
            HttpRuleSetGet(message, v);
            message := message.(get := Some(v));
            continue;
          }
        case 3 =>
          if tag == 26 {
            StrTurn(g, t, reader.buf, pos, end, m, 26, reader.pos, 2, Assign);
            var v :- reader.String();
            HttpRuleSetPut(message, v);
            message := message.(put := Some(v));
            continue;
          }
        case 4 =>
          if tag == 34 {
            StrTurn(g, t, reader.buf, pos, end, m, 34, reader.pos, 3, Assign);
            var v :- reader.String();
            HttpRuleSetPost(message, v);
            message := message.(post := Some(v));
            continue;
          }
        case 5 =>
          if tag == 42 {
            StrTurn(g, t, reader.buf, pos, end, m, 42, reader.pos, 4, Assign);
            var v :- reader.String();
            HttpRuleSetDelete(message, v);
            message := message.(delete := Some(v));
            continue;
          }
        case 6 =>
          if tag == 50 {
            StrTurn(g, t, reader.buf, pos, end, m, 50, reader.pos, 5, Assign);
            var v :- reader.String();
            HttpRuleSetPatch(message, v);
            message := message.(patch := Some(v));
            continue;
          }
        case 7 =>
          if tag == 58 {
            StrTurn(g, t, reader.buf, pos, end, m, 58, reader.pos, 7, Assign);
            var v :- reader.String();
            HttpRuleSetBody(message, v);
            message := message.(body := v);
            continue;
          }
        case 8 =>
          if tag == 66 {
            SubTurn(g, t, reader.buf, pos, end, m, 66, reader.pos, 6, CUSTOM_HTTP_PATTERN, Assign);
            var len :- reader.Uint32();
            var v :- DecodeCustomHttpPattern(reader, Some(len));
            HttpRuleSetCustom(message, v);
            message := message.(custom := Some(v));
            continue;
          }
        case 11 =>
          if tag == 90 {
            SubTurn(g, t, reader.buf, pos, end, m, 90, reader.pos, 9, HTTP_RULE, Push);
            var len :- reader.Uint32();
            var v :- DecodeHttpRule(reader, Some(len));
            HttpRulePushAdditionalBindings(message, v);
            message := message.(additionalBindings := message.additionalBindings + [v]);
            continue;
          }
        case 12 =>
          if tag == 98 {
            StrTurn(g, t, reader.buf, pos, end, m, 98, reader.pos, 8, Assign);
            var v :- reader.String();
            HttpRuleSetResponseBody(message, v);
            message := message.(responseBody := v);
            continue;
          }
        case _ =>
      }
      OtherTurn(g, t, reader.buf, pos, end, m, tag, reader.pos);
      if tag % 8 == 4 || tag == 0 {
        return Some(message);
      }
      var _ :- reader.Skip(tag % 8);
    }
    LoopIsOver(g, t, reader.buf, reader.pos, end, HttpRuleMsg(message));
    return Some(message);
  }

  // ---------------------------------------------------------------- Http

  /** The message as the tables see it. */
  function HttpMsg(m: Http): Msg
  {
    Msg([
      SubsSlot(HttpRuleMsgs(m.rules)),
      BoolSlot(m.fullyDecodeReservedExpansion)])
  }

  lemma HttpTable()
    ensures HttpGrammar()[HTTP] == HttpSchema()
  {
  }

  lemma HttpRows(m: Http)
    ensures var plan, slots := HttpGrammar()[HTTP].plan, HttpMsg(m).slots;
      && |plan| == |slots| == 2
      && plan[0] == Row(10, KMsg(HTTP_RULE), Repeated) && slots[0] == SubsSlot(HttpRuleMsgs(m.rules))
      && plan[1] == Row(16, KBool, Implicit(Val.Bool(false))) && slots[1] == BoolSlot(m.fullyDecodeReservedExpansion)
  {
    HttpTable();
    hide HttpGrammar;
  }

  lemma HttpArms()
    ensures var arms := HttpGrammar()[HTTP].arms;
      && arms.Keys == {10, 16}
      && arms[10] == Arm(0, KMsg(HTTP_RULE), Push)
      && arms[16] == Arm(1, KBool, Assign)
  {
    HttpTable();
    hide HttpGrammar;
    assert HttpSchema().arms.Keys == {10, 16};
  }

  lemma HttpBase()
    ensures HttpGrammar()[HTTP].base == HttpMsg(CreateBaseHttp())
  {
    HttpTable();
    hide HttpGrammar;
    assert SubsSlot(HttpRuleMsgs([])).vals == [];
    SameSlots(HttpGrammar()[HTTP].base, HttpMsg(CreateBaseHttp()));
  }

  /** `encode`: only appends, leaves the forks as they were, and what it appends is the encoding. */
  method EncodeHttp(message: Http, writer: BinaryWriter)
    requires ValidMsg(HttpGrammar(), HTTP, HttpMsg(message))
    modifies writer
    ensures writer.stack == old(writer.stack)
    ensures writer.buf == old(writer.buf) + Encode(HttpGrammar(), HTTP, HttpMsg(message))
  {
    assert 16 < TWO_32 && HTTP < |HttpGrammar()| && HTTP_RULE < |HttpGrammar()|;
    hide *;
    ghost var start, g, t, m := writer.buf, HttpGrammar(), HTTP, HttpMsg(message);
    HttpRows(message);
    WrittenNone(start, g, t, m);
    WriteHttpRules(writer, 10, message.rules, start, g, t, m, 0);
    WriteBool(writer, 16, message.fullyDecodeReservedExpansion, start, g, t, m, 1);
    WrittenAll(start, g, t, m);
  }

  lemma HttpPushRules(m: Http, v: HttpRule)
    ensures Put(HttpMsg(m), 0, Push, Sub(HttpRuleMsg(v))) == HttpMsg(m.(rules := m.rules + [v]))
  {
    HttpRuleMsgsAppend(m.rules, v);
    hide HttpRuleMsgs, SubsSlot;
    SameSlots(Put(HttpMsg(m), 0, Push, Sub(HttpRuleMsg(v))), HttpMsg(m.(rules := m.rules + [v])));
  }

  lemma HttpSetFullyDecodeReservedExpansion(m: Http, v: bool)
    ensures Put(HttpMsg(m), 1, Assign, Val.Bool(v)) == HttpMsg(m.(fullyDecodeReservedExpansion := v))
  {
    SameSlots(Put(HttpMsg(m), 1, Assign, Val.Bool(v)), HttpMsg(m.(fullyDecodeReservedExpansion := v)));
  }

  /** `decode`: reads what the tables say, or throws where they do. */
  method DecodeHttp(reader: BinaryReader, length: Option<nat>) returns (r: Option<Http>)
    requires reader.Valid()
    modifies reader
    ensures reader.Valid()
    ensures var d := DecodeUpTo(HttpGrammar(), HTTP, reader.buf, old(reader.pos), length);
      if r.None? then d.Fail? else d == Got(HttpMsg(r.value), reader.pos)
  {
    ghost var g, t := HttpGrammar(), HTTP;
    HttpArms();
    HttpBase();
    hide HttpGrammar, GrammarOk, Loop, DecodeUpTo, ReadUint32, ReadBytes, ReadScalar, ReadInt32, ReadPacked,
      ReadVarint, ReadValue, ReadField, ReadStep, AfterTag, Skip, Put, Apply, Signed, LongToNumber, Varint,
      HttpMsg, HttpRuleMsg;
    var end := if length.None? then |reader.buf| else reader.pos + length.value;
    var message := CreateBaseHttp();
    DecodeIsLoop(g, t, reader.buf, reader.pos, length, end);
    while reader.pos < end
      invariant reader.Valid()
      invariant |HttpMsg(message).slots| == |g[t].plan|
      invariant Loop(g, t, reader.buf, old(reader.pos), end, g[t].base)
        == Loop(g, t, reader.buf, reader.pos, end, HttpMsg(message))
      decreases |reader.buf| - reader.pos
    {
      ghost var pos, m := reader.pos, HttpMsg(message);
      var read := reader.Uint32();
      if read.None? {
        NoTagTurn(g, t, reader.buf, pos, end, m);
        return None;
      }
      var tag := read.value;
      match tag / 8 {
        case 1 =>
          if tag == 10 {
            SubTurn(g, t, reader.buf, pos, end, m, 10, reader.pos, 0, HTTP_RULE, Push);
            var len :- reader.Uint32();
            var v :- DecodeHttpRule(reader, Some(len));
            HttpPushRules(message, v);
            message := message.(rules := message.rules + [v]);
            continue;
          }
        case 2 =>
          if tag == 16 {
            BoolTurn(g, t, reader.buf, pos, end, m, 16, reader.pos, 1);
            var v :- reader.Bool();
            HttpSetFullyDecodeReservedExpansion(message, v);
            message := message.(fullyDecodeReservedExpansion := v);
            continue;
          }
        case _ =>
      }
      OtherTurn(g, t, reader.buf, pos, end, m, tag, reader.pos);
      if tag % 8 == 4 || tag == 0 {
        return Some(message);
      }
      var _ :- reader.Skip(tag % 8);
    }
    LoopIsOver(g, t, reader.buf, reader.pos, end, HttpMsg(message));
    return Some(message);
  }

  // ---------------------------------------------------------------- there and back

  lemma {:induction false} CustomHttpPatternNorm(m: CustomHttpPattern)
    ensures |CustomHttpPatternMsg(m).slots| == |HttpGrammar()[CUSTOM_HTTP_PATTERN].plan|
    ensures Norm(HttpGrammar(), CUSTOM_HTTP_PATTERN, CustomHttpPatternMsg(m)) == CustomHttpPatternMsg(m)
  {
    var g, t := HttpGrammar(), CUSTOM_HTTP_PATTERN;
    assert CUSTOM_HTTP_PATTERN < |g|;
    hide HttpGrammar, GrammarOk, Norm, NormSlot, CustomHttpPatternMsg, OptStrSlot, BoolSlot, OptSubSlot,
      SubsSlot, OptIntSlot, OptDoubleSlot, StrsSlot, IntsSlot;
    CustomHttpPatternRows(m);
    assert forall i | 0 <= i < 2 :: KindOk(g, g[t].plan[i].kind);
    NormStr(g, 10, Some(m.kind));
    NormStr(g, 18, Some(m.path));
    NormAt(g, t, CustomHttpPatternMsg(m), CustomHttpPatternMsg(m));
  }

  lemma {:induction false} CustomHttpPatternSame(a: CustomHttpPattern, b: CustomHttpPattern)
    requires CustomHttpPatternMsg(a) == CustomHttpPatternMsg(b)
    ensures a == b
  {
    CustomHttpPatternRows(a);
    CustomHttpPatternRows(b);
    hide HttpGrammar, CustomHttpPatternMsg, OptStrSlot, BoolSlot, OptSubSlot, SubsSlot, OptIntSlot,
      OptDoubleSlot, StrsSlot, IntsSlot;
    OptStrSame(Some(a.kind), Some(b.kind));
    OptStrSame(Some(a.path), Some(b.path));
  }

  lemma {:induction false} HttpRuleNorm(m: HttpRule)
    ensures |HttpRuleMsg(m).slots| == |HttpGrammar()[HTTP_RULE].plan|
    ensures Norm(HttpGrammar(), HTTP_RULE, HttpRuleMsg(m)) == HttpRuleMsg(m)
    decreases m, 1
  {
    assert HTTP_RULE < |HttpGrammar()|;
    hide *;
    HttpRuleRows(m);
    HttpRulesNorm(m.additionalBindings);
    HttpRuleNorm0To5(m, HttpGrammar(), HTTP_RULE, HttpRuleMsg(m));
    HttpRuleNorm5To10(m, HttpGrammar(), HTTP_RULE, HttpRuleMsg(m));
    NormAt(HttpGrammar(), HTTP_RULE, HttpRuleMsg(m), HttpRuleMsg(m));
  }

  lemma HttpRuleNorm0To5(m: HttpRule, g: Grammar, t: nat, r: Msg)
    requires g == HttpGrammar() && t == HTTP_RULE && r == HttpRuleMsg(m) && |r.slots| == |g[t].plan| == 10
    ensures forall i | 0 <= i < 5 :: NormsAt(g, t, r, r, i)
  {
    assert CUSTOM_HTTP_PATTERN < |g| && HTTP_RULE < |g|;
    hide HttpGrammar, GrammarOk, Norm, NormSlot, HttpRuleMsg, OptStrSlot, OptSubSlot, SubsSlot;
    HttpRuleRows(m);
    NormStr(g, 10, Some(m.selector));
    NormOptStr(g, 18, m.get);
    NormOptStr(g, 26, m.put);
    NormOptStr(g, 34, m.post);
    NormOptStr(g, 42, m.delete);
  }

  lemma HttpRuleNorm5To10(m: HttpRule, g: Grammar, t: nat, r: Msg)
    requires g == HttpGrammar() && t == HTTP_RULE && r == HttpRuleMsg(m) && |r.slots| == |g[t].plan| == 10
    requires forall i | 0 <= i < |m.additionalBindings| ::
      var s := HttpRuleMsgs(m.additionalBindings)[i]; |s.slots| == |g[t].plan| && Norm(g, t, s) == s
    ensures forall i | 5 <= i < 10 :: NormsAt(g, t, r, r, i)
  {
    assert CUSTOM_HTTP_PATTERN < |g| && HTTP_RULE < |g|;
    hide HttpGrammar, GrammarOk, Norm, NormSlot, HttpRuleMsg, OptStrSlot, OptSubSlot, SubsSlot;
    HttpRuleRows(m);
    if m.custom.Some? {
      CustomHttpPatternNorm(m.custom.value);
    }
    NormOptStr(g, 50, m.patch);
    NormOptSub(g, 66, CUSTOM_HTTP_PATTERN, OptCustomHttpPatternMsg(m.custom), OptCustomHttpPatternMsg(m.custom));
    NormStr(g, 58, Some(m.body));
    NormStr(g, 98, Some(m.responseBody));
    NormSubs(g, 90, HTTP_RULE, HttpRuleMsgs(m.additionalBindings), HttpRuleMsgs(m.additionalBindings));
  }

  lemma {:induction false} HttpRulesNorm(ms: seq<HttpRule>)
    ensures forall i | 0 <= i < |ms| ::
      var s := HttpRuleMsgs(ms)[i]; |s.slots| == |HttpGrammar()[HTTP_RULE].plan| && Norm(HttpGrammar(), HTTP_RULE, s) == s
    decreases ms, 0
  {
    assert HTTP_RULE < |HttpGrammar()|;
    hide *;
    HttpRuleMsgsAre(ms);
    forall i | 0 <= i < |ms|
      ensures var s := HttpRuleMsgs(ms)[i]; |s.slots| == |HttpGrammar()[HTTP_RULE].plan| && Norm(HttpGrammar(), HTTP_RULE, s) == s
    {
      HttpRuleNorm(ms[i]);
    }
  }

  lemma {:induction false} HttpRuleSame(a: HttpRule, b: HttpRule)
    requires HttpRuleMsg(a) == HttpRuleMsg(b)
    ensures a == b
    decreases a
  {
    HttpRuleRows(a);
    HttpRuleRows(b);
    hide HttpGrammar, HttpRuleMsg, OptStrSlot, BoolSlot, OptSubSlot, SubsSlot, OptIntSlot, OptDoubleSlot,
      StrsSlot, IntsSlot;
    OptStrSame(Some(a.selector), Some(b.selector));
    OptStrSame(a.get, b.get);
    OptStrSame(a.put, b.put);
    OptStrSame(a.post, b.post);
    OptStrSame(a.delete, b.delete);
    OptStrSame(a.patch, b.patch);
    OptSubSame(OptCustomHttpPatternMsg(a.custom), OptCustomHttpPatternMsg(b.custom));
    if a.custom.Some? {
      CustomHttpPatternSame(a.custom.value, b.custom.value);
    }
    OptStrSame(Some(a.body), Some(b.body));
    OptStrSame(Some(a.responseBody), Some(b.responseBody));
    SubsSame(HttpRuleMsgs(a.additionalBindings), HttpRuleMsgs(b.additionalBindings));
    forall i | 0 <= i < |a.additionalBindings| ensures a.additionalBindings[i] == b.additionalBindings[i] {
      assert HttpRuleMsgs(a.additionalBindings)[i] == HttpRuleMsgs(b.additionalBindings)[i];
      HttpRuleSame(a.additionalBindings[i], b.additionalBindings[i]);
    }
  }

  /** What `encode` wrote, wherever it stands, `decode` reads back, and leaves the reader right after it. */
  method HttpRuleRoundTrip(message: HttpRule, before: bytes, after: bytes) returns (r: Option<HttpRule>, pos: nat)
    requires ValidMsg(HttpGrammar(), HTTP_RULE, HttpRuleMsg(message))
    ensures r == Some(message)
    ensures pos == |before| + |Encode(HttpGrammar(), HTTP_RULE, HttpRuleMsg(message))|
  {
    HttpRuleNorm(message);
    assert HTTP_RULE < |HttpGrammar()|;
    hide *;
    var writer := new BinaryWriter();
    EncodeHttpRule(message, writer);
    var body := writer.buf;
    NothingBefore(Encode(HttpGrammar(), HTTP_RULE, HttpRuleMsg(message)));
    var reader := new BinaryReader.At(before + body + after, |before|);
    r := DecodeHttpRule(reader, Some(|body|));
    DecodeUpToEncoded(HttpGrammar(), HTTP_RULE, HttpRuleMsg(message), before, after);
    HttpRuleSame(r.value, message);
    pos := reader.pos;
  }

  lemma {:induction false} HttpNorm(m: Http)
    ensures |HttpMsg(m).slots| == |HttpGrammar()[HTTP].plan|
    ensures Norm(HttpGrammar(), HTTP, HttpMsg(m)) == HttpMsg(m)
  {
    var g, t := HttpGrammar(), HTTP;
    assert HTTP < |g| && HTTP_RULE < |g|;
    hide HttpGrammar, GrammarOk, Norm, NormSlot, HttpMsg, OptStrSlot, BoolSlot, OptSubSlot, SubsSlot, OptIntSlot,
      OptDoubleSlot, StrsSlot, IntsSlot;
    HttpRows(m);
    HttpRulesNorm(m.rules);
    assert forall i | 0 <= i < 2 :: KindOk(g, g[t].plan[i].kind);
    NormSubs(g, 10, HTTP_RULE, HttpRuleMsgs(m.rules), HttpRuleMsgs(m.rules));
    NormBool(g, 16, m.fullyDecodeReservedExpansion);
    NormAt(g, t, HttpMsg(m), HttpMsg(m));
  }

  lemma {:induction false} HttpSame(a: Http, b: Http)
    requires HttpMsg(a) == HttpMsg(b)
    ensures a == b
  {
    HttpRows(a);
    HttpRows(b);
    hide HttpGrammar, HttpMsg, OptStrSlot, BoolSlot, OptSubSlot, SubsSlot, OptIntSlot, OptDoubleSlot, StrsSlot,
      IntsSlot;
    SubsSame(HttpRuleMsgs(a.rules), HttpRuleMsgs(b.rules));
    forall i | 0 <= i < |a.rules| ensures a.rules[i] == b.rules[i] {
      assert HttpRuleMsgs(a.rules)[i] == HttpRuleMsgs(b.rules)[i];
      HttpRuleSame(a.rules[i], b.rules[i]);
    }
    BoolSame(a.fullyDecodeReservedExpansion, b.fullyDecodeReservedExpansion);
  }

  /** What `encode` wrote, wherever it stands, `decode` reads back, and leaves the reader right after it. */
  method HttpRoundTrip(message: Http, before: bytes, after: bytes) returns (r: Option<Http>, pos: nat)
    requires ValidMsg(HttpGrammar(), HTTP, HttpMsg(message))
    ensures r == Some(message)
    ensures pos == |before| + |Encode(HttpGrammar(), HTTP, HttpMsg(message))|
  {
    HttpNorm(message);
    assert HTTP < |HttpGrammar()|;
    hide *;
    var writer := new BinaryWriter();
    EncodeHttp(message, writer);
    var body := writer.buf;
    NothingBefore(Encode(HttpGrammar(), HTTP, HttpMsg(message)));
    var reader := new BinaryReader.At(before + body + after, |before|);
    r := DecodeHttp(reader, Some(|body|));
    DecodeUpToEncoded(HttpGrammar(), HTTP, HttpMsg(message), before, after);
    HttpSame(r.value, message);
    pos := reader.pos;
  }
}
