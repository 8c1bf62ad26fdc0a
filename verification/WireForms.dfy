/**
 The bytes of the messages, property by property, with their tags: what `encode` of each file writes, read off
 the code once more and without the tables.
 */
module WireForms {
  import opened Wire
  import opened Codec
  import opened Decoded
  import opened Fields
  import opened RoundTrip
  import opened HttpSchemas
  import opened AuthSchemas
  import opened DescriptorSchemas
  import opened HttpCodec
  import opened AuthCodec
  import opened DescriptorCodec

  // ---------------------------------------------------------------- single properties

  function Text(tag: nat, s: bytes): bytes {
    if s == [] then [] else OptText(tag, Some(s))
  }

  function OptText(tag: nat, o: Option<bytes>): bytes {
    match o
    case None => []
    case Some(s) => Varint(tag) + Varint(|s|) + s
  }

  /** A string that is neither undefined nor empty. */
  function TextIf(tag: nat, o: Option<bytes>): bytes {
    if o.None? then [] else Text(tag, o.value)
  }

  function Flag(tag: nat, b: bool): bytes {
    if b then Varint(tag) + [1] else []
  }

  /** A 64-bit integer in two's complement. */
  function Long(tag: nat, o: Option<int>): bytes
    requires o.Some? ==> -TWO_63 <= o.value < TWO_64
  {
    match o
    case None => []
    case Some(i) =>
      if i == 0 then [] else Varint(tag) + Varint(if i < 0 then i + 0x1_0000_0000_0000_0000 else i)
  }

  /** A double, none of the two zeros. */
  function Double(tag: nat, o: Option<bytes>): bytes {
    match o
    case None => []
    case Some(d) =>
      if d == [0, 0, 0, 0, 0, 0, 0, 0] || d == [0, 0, 0, 0, 0, 0, 0, 128] then [] else Varint(tag) + d
  }

  predicate Small(ints: seq<int>) {
    forall i | 0 <= i < |ints| :: -0x8000_0000 <= ints[i] < 0x8000_0000
  }

  /** The varints of 32-bit integers, the negative ones as 64-bit numbers. */
  function IntBytes(ints: seq<int>): bytes
    requires Small(ints)
  {
    if ints == [] then []
    else Varint(if ints[0] < 0 then ints[0] + 0x1_0000_0000_0000_0000 else ints[0]) + IntBytes(ints[1..])
  }

  function PackedText(tag: nat, ints: seq<int>): bytes
    requires Small(ints)
  {
    OptText(tag, Some(IntBytes(ints)))
  }

  function Texts(tag: nat, ss: seq<bytes>, n: nat): bytes
    requires n <= |ss|
  {
    if n == 0 then [] else Texts(tag, ss, n - 1) + OptText(tag, Some(ss[n - 1]))
  }

  /** `before` stands for the rows so far; one more row appends one property. */
  lemma TextRow(before: bytes, g: Grammar, t: nat, m: Msg, n: nat, tag: nat, s: bytes)
    requires GrammarOk(g) && t < |g| && ValidMsg(g, t, m) && n < |m.slots| == |g[t].plan|
    requires g[t].plan[n] == Row(tag, KStr, Implicit(Str([]))) && m.slots[n] == OptStrSlot(Some(s))
    requires Written([], g, t, m, n) == before
    ensures Written([], g, t, m, n + 1) == before + Text(tag, s)
  {
    hide GrammarOk, ValidMsg, Written, Varint;
    StrWritten([], g, t, m, n, tag, Some(s));
    Regroup(before, Varint(tag), LengthPrefixed(s));
    Regroup(Varint(tag), Varint(|s|), s);
  }

  lemma TextIfRow(before: bytes, g: Grammar, t: nat, m: Msg, n: nat, tag: nat, o: Option<bytes>)
    requires GrammarOk(g) && t < |g| && ValidMsg(g, t, m) && n < |m.slots| == |g[t].plan|
    requires g[t].plan[n] == Row(tag, KStr, Implicit(Str([]))) && m.slots[n] == OptStrSlot(o)
    requires Written([], g, t, m, n) == before
    ensures Written([], g, t, m, n + 1) == before + TextIf(tag, o)
  {
    hide GrammarOk, ValidMsg, Written, Varint;
    StrWritten([], g, t, m, n, tag, o);
    if o.Some? {
      Regroup(before, Varint(tag), LengthPrefixed(o.value));
      Regroup(Varint(tag), Varint(|o.value|), o.value);
    }
  }

  lemma OptTextRow(before: bytes, g: Grammar, t: nat, m: Msg, n: nat, tag: nat, o: Option<bytes>)
    requires GrammarOk(g) && t < |g| && ValidMsg(g, t, m) && n < |m.slots| == |g[t].plan|
    requires g[t].plan[n] == Row(tag, KStr, Explicit) && m.slots[n] == OptStrSlot(o)
    requires Written([], g, t, m, n) == before
    ensures Written([], g, t, m, n + 1) == before + OptText(tag, o)
  {
    hide GrammarOk, ValidMsg, Written, Varint;
    OptStrWritten([], g, t, m, n, tag, o);
    if o.Some? {
      Regroup(before, Varint(tag), LengthPrefixed(o.value));
      Regroup(Varint(tag), Varint(|o.value|), o.value);
    }
  }

  lemma FlagRow(before: bytes, g: Grammar, t: nat, m: Msg, n: nat, tag: nat, b: bool)
    requires GrammarOk(g) && t < |g| && ValidMsg(g, t, m) && n < |m.slots| == |g[t].plan|
    requires g[t].plan[n] == Row(tag, KBool, Implicit(Bool(false))) && m.slots[n] == BoolSlot(b)
    requires Written([], g, t, m, n) == before
    ensures Written([], g, t, m, n + 1) == before + Flag(tag, b)
  {
    hide GrammarOk, ValidMsg, Written, Varint;
    BoolWritten([], g, t, m, n, tag, b);
    if b {
      Regroup(before, Varint(tag), [1]);
    }
  }

  lemma LongRow(before: bytes, g: Grammar, t: nat, m: Msg, n: nat, tag: nat, signed: bool, o: Option<int>)
    requires GrammarOk(g) && t < |g| && ValidMsg(g, t, m) && n < |m.slots| == |g[t].plan|
    requires g[t].plan[n] == Row(tag, if signed then KInt64 else KUint64, Implicit(Int(0))) && m.slots[n] == OptIntSlot(o)
    requires Written([], g, t, m, n) == before
    ensures o.Some? ==> -TWO_63 <= o.value < TWO_64
    ensures Written([], g, t, m, n + 1) == before + Long(tag, o)
  {
    hide GrammarOk, ValidMsg, Written, Varint;
    LongWritten([], g, t, m, n, tag, signed, o);
    if o.Some? && o.value != 0 {
      assert Unsigned64(o.value) == if o.value < 0 then o.value + 0x1_0000_0000_0000_0000 else o.value;
      Regroup(before, Varint(tag), Varint(Unsigned64(o.value)));
    }
  }

  lemma DoubleRow(before: bytes, g: Grammar, t: nat, m: Msg, n: nat, tag: nat, o: Option<bytes>)
    requires GrammarOk(g) && t < |g| && ValidMsg(g, t, m) && n < |m.slots| == |g[t].plan|
    requires g[t].plan[n] == Row(tag, KDouble, Implicit(Fixed(PLUS_ZERO))) && m.slots[n] == OptDoubleSlot(o)
    requires Written([], g, t, m, n) == before
    ensures Written([], g, t, m, n + 1) == before + Double(tag, o)
  {
    hide GrammarOk, ValidMsg, Written, Varint;
    DoubleWritten([], g, t, m, n, tag, o);
    if o.Some? {
      Regroup(before, Varint(tag), o.value);
    }
  }

  lemma {:induction false} IntBytesPacked(ints: seq<int>)
    requires Small(ints)
    ensures PackedBytes(Ints(ints)) == IntBytes(ints)
    decreases |ints|
  {
    if ints != [] {
      assert Ints(ints)[1..] == Ints(ints[1..]);
      IntBytesPacked(ints[1..]);
      assert Unsigned64(ints[0]) == if ints[0] < 0 then ints[0] + 0x1_0000_0000_0000_0000 else ints[0];
    }
  }

  lemma AllSmall(ints: seq<int>)
    requires Int32s(ints)
    ensures Small(ints)
  {
    forall i | 0 <= i < |ints| ensures -0x8000_0000 <= ints[i] < 0x8000_0000 {
      assert ints[i] in ints;
    }
  }

  lemma PackedRow(before: bytes, g: Grammar, t: nat, m: Msg, n: nat, tag: nat, ints: seq<int>)
    requires GrammarOk(g) && t < |g| && ValidMsg(g, t, m) && n < |m.slots| == |g[t].plan|
    requires g[t].plan[n] == Row(tag, KInt32, Packed) && m.slots[n] == IntsSlot(ints)
    requires Written([], g, t, m, n) == before
    ensures Small(ints)
    ensures Written([], g, t, m, n + 1) == before + PackedText(tag, ints)
  {
    hide GrammarOk, ValidMsg, Written, Varint, Int32s, Small, PackedBytes, IntBytes;
    PackedWritten([], g, t, m, n, tag, ints);
    AllSmall(ints);
    IntBytesPacked(ints);
    Regroup(before, Varint(tag), LengthPrefixed(IntBytes(ints)));
    Regroup(Varint(tag), Varint(|IntBytes(ints)|), IntBytes(ints));
  }

  lemma {:induction false} TextsRow(before: bytes, g: Grammar, t: nat, m: Msg, n: nat, tag: nat, ss: seq<bytes>, j: nat)
    requires GrammarOk(g) && t < |g| && ValidMsg(g, t, m) && n < |m.slots| == |g[t].plan|
    requires g[t].plan[n] == Row(tag, KStr, Repeated) && m.slots[n] == StrsSlot(ss)
    requires Written([], g, t, m, n) == before && j <= |ss|
    ensures ValidSlot(g, g[t].plan[n], m.slots[n]) && j <= |RowRecords(g, g[t].plan[n], m.slots[n])|
    ensures Out([], g, t, m, n, j) == before + Texts(tag, ss, j)
    ensures j == |ss| ==> Written([], g, t, m, n + 1) == before + Texts(tag, ss, j)
    decreases j
  {
    hide *;
    ListStarts([], g, t, m, n);
    StrsAre(ss);
    if j == 0 {
      NoTexts(before, tag, ss);
    } else {
      TextsRow(before, g, t, m, n, tag, ss, j - 1);
      StrOfListWritten([], g, t, m, n, tag, ss, j - 1);
      OneMoreText(before, tag, ss, j, ss[j - 1]);
    }
  }

  lemma PartRow(before: bytes, g: Grammar, t: nat, m: Msg, n: nat, tag: nat, s: nat, o: Option<Msg>, body: Option<bytes>)
    requires GrammarOk(g) && t < |g| && ValidMsg(g, t, m) && n < |m.slots| == |g[t].plan| && s < |g|
    requires g[t].plan[n] == Row(tag, KMsg(s), Explicit) && m.slots[n] == OptSubSlot(o)
    requires Written([], g, t, m, n) == before
    requires o.Some? == body.Some? && (o.Some? && ValidMsg(g, s, o.value) ==> Encode(g, s, o.value) == body.value)
    ensures Written([], g, t, m, n + 1) == before + OptText(tag, body)
  {
    hide GrammarOk, ValidMsg, Written, Varint, Encode;
    OptSubWritten([], g, t, m, n, tag, s, o);
    if o.Some? {
      Regroup(before, Varint(tag), LengthPrefixed(body.value));
      Regroup(Varint(tag), Varint(|body.value|), body.value);
    }
  }

  /** A list of sub-messages whose encodings are `bodies`. */
  lemma {:induction false} PartsRow(before: bytes, g: Grammar, t: nat, m: Msg, n: nat, tag: nat, s: nat, ms: seq<Msg>,
      bodies: seq<bytes>, j: nat)
    requires GrammarOk(g) && t < |g| && ValidMsg(g, t, m) && n < |m.slots| == |g[t].plan| && s < |g|
    requires g[t].plan[n] == Row(tag, KMsg(s), Repeated) && m.slots[n] == SubsSlot(ms)
    requires Written([], g, t, m, n) == before && j <= |ms| == |bodies|
    requires forall i | 0 <= i < |ms| && ValidMsg(g, s, ms[i]) :: Encode(g, s, ms[i]) == bodies[i]
    ensures ValidSlot(g, g[t].plan[n], m.slots[n]) && j <= |RowRecords(g, g[t].plan[n], m.slots[n])|
    ensures Out([], g, t, m, n, j) == before + Texts(tag, bodies, j)
    ensures j == |ms| ==> Written([], g, t, m, n + 1) == before + Texts(tag, bodies, j)
    decreases j
  {
    hide *;
    ListStarts([], g, t, m, n);
    SubsAre(ms);
    if j == 0 {
      NoTexts(before, tag, bodies);
    } else {
      PartsRow(before, g, t, m, n, tag, s, ms, bodies, j - 1);
      SubWritten([], g, t, m, n, tag, s, ms, j - 1);
      OneMoreText(before, tag, bodies, j, Encode(g, s, ms[j - 1]));
    }
  }

  lemma SubsAre(ms: seq<Msg>)
    ensures |SubsSlot(ms).vals| == |ms|
  {
  }

  lemma NoTexts(before: bytes, tag: nat, ss: seq<bytes>)
    ensures before + Texts(tag, ss, 0) == before
  {
  }

  lemma OneMoreText(before: bytes, tag: nat, ss: seq<bytes>, n: nat, s: bytes)
    requires 0 < n <= |ss| && ss[n - 1] == s
    ensures before + Texts(tag, ss, n) == before + Texts(tag, ss, n - 1) + Varint(tag) + LengthPrefixed(s)
  {
    hide Varint;
    Regroup(Varint(tag), Varint(|s|), s);
    Regroup(before, Texts(tag, ss, n - 1), Varint(tag) + LengthPrefixed(s));
    Regroup(before + Texts(tag, ss, n - 1), Varint(tag), LengthPrefixed(s));
  }

  // ---------------------------------------------------------------- auth.ts

  function UserBytes(m: User): bytes {
    Text(10, m.id) + Text(18, m.email) + Text(26, m.displayName) + Text(34, m.username) + Text(42, m.pictureUrl)
    + Flag(48, m.isAdmin)
  }

  lemma UserForm(m: User)
    requires ValidMsg(AuthGrammar(), USER, UserMsg(m))
    ensures Encode(AuthGrammar(), USER, UserMsg(m)) == UserBytes(m)
  {
    var g, t, r := AuthGrammar(), USER, UserMsg(m);
    UserRows(m);
    WrittenNone([], g, t, r);
    hide AuthGrammar, GrammarOk, ValidMsg, Written, Encode, OptStrSlot, BoolSlot, OptSubSlot, SubsSlot, Text, OptText, Flag, Texts, UserMsg;
    TextRow([], g, t, r, 0, 10, m.id);
    NothingBefore(Text(10, m.id));
    var b0 := Text(10, m.id);
    TextRow(b0, g, t, r, 1, 18, m.email);
    var b1 := b0 + Text(18, m.email);
    TextRow(b1, g, t, r, 2, 26, m.displayName);
    var b2 := b1 + Text(26, m.displayName);
    TextRow(b2, g, t, r, 3, 34, m.username);
    var b3 := b2 + Text(34, m.username);
    TextRow(b3, g, t, r, 4, 42, m.pictureUrl);
    var b4 := b3 + Text(42, m.pictureUrl);
    FlagRow(b4, g, t, r, 5, 48, m.isAdmin);
    WrittenAll([], g, t, r);
    NothingBefore(Encode(g, t, r));
  }

  function OptUserBytes(o: Option<User>): Option<bytes> {
    if o.Some? then Some(UserBytes(o.value)) else None
  }

  function SessionResponseBytes(m: SessionResponse): bytes {
    Text(10, m.jwt) + OptText(18, OptUserBytes(m.user))
  }

  lemma SessionResponseForm(m: SessionResponse)
    requires ValidMsg(AuthGrammar(), SESSION_RESPONSE, SessionResponseMsg(m))
    ensures Encode(AuthGrammar(), SESSION_RESPONSE, SessionResponseMsg(m)) == SessionResponseBytes(m)
  {
    var g, t, r := AuthGrammar(), SESSION_RESPONSE, SessionResponseMsg(m);
    SessionResponseRows(m);
    OptUserIs(m.user);
    if m.user.Some? && ValidMsg(g, USER, UserMsg(m.user.value)) {
      UserForm(m.user.value);
    }
    WrittenNone([], g, t, r);
    hide AuthGrammar, GrammarOk, ValidMsg, Written, Encode, OptStrSlot, BoolSlot, OptSubSlot, SubsSlot, Text, OptText, Flag, Texts, SessionResponseMsg, UserMsg, UserBytes;
    TextRow([], g, t, r, 0, 10, m.jwt);
    NothingBefore(Text(10, m.jwt));
    var b0 := Text(10, m.jwt);
    PartRow(b0, g, t, r, 1, 18, USER, OptUserMsg(m.user), OptUserBytes(m.user));
    WrittenAll([], g, t, r);
    NothingBefore(Encode(g, t, r));
  }

  function UsersBytes(us: seq<User>): (bodies: seq<bytes>)
    ensures |bodies| == |us|
  {
    seq(|us|, i requires 0 <= i < |us| => UserBytes(us[i]))
  }

  lemma UsersForm(us: seq<User>)
    ensures forall i | 0 <= i < |us| && ValidMsg(AuthGrammar(), USER, UserMsgs(us)[i]) ::
      Encode(AuthGrammar(), USER, UserMsgs(us)[i]) == UsersBytes(us)[i]
  {
    hide AuthGrammar, GrammarOk, ValidMsg, Encode, UserMsg, UserBytes;
    forall i | 0 <= i < |us| && ValidMsg(AuthGrammar(), USER, UserMsgs(us)[i])
      ensures Encode(AuthGrammar(), USER, UserMsgs(us)[i]) == UsersBytes(us)[i]
    {
      UserForm(us[i]);
    }
  }

  function ListUsersResponseBytes(m: ListUsersResponse): bytes {
    Texts(10, UsersBytes(m.users), |m.users|)
  }

  lemma ListUsersResponseForm(m: ListUsersResponse)
    requires ValidMsg(AuthGrammar(), LIST_USERS_RESPONSE, ListUsersResponseMsg(m))
    ensures Encode(AuthGrammar(), LIST_USERS_RESPONSE, ListUsersResponseMsg(m)) == ListUsersResponseBytes(m)
  {
    var g, t, r := AuthGrammar(), LIST_USERS_RESPONSE, ListUsersResponseMsg(m);
    ListUsersResponseRows(m);
    UsersForm(m.users);
    WrittenNone([], g, t, r);
    hide AuthGrammar, GrammarOk, ValidMsg, Written, Encode, OptStrSlot, BoolSlot, OptSubSlot, SubsSlot, Text, OptText, Flag, Texts, ListUsersResponseMsg, UserMsgs, UsersBytes;
    PartsRow([], g, t, r, 0, 10, USER, UserMsgs(m.users), UsersBytes(m.users), |m.users|);
    NothingBefore(Texts(10, UsersBytes(m.users), |m.users|));
    WrittenAll([], g, t, r);
    NothingBefore(Encode(g, t, r));
  }

  // ---------------------------------------------------------------- http.ts

  function CustomHttpPatternBytes(m: CustomHttpPattern): bytes {
    Text(10, m.kind) + Text(18, m.path)
  }

  lemma CustomHttpPatternForm(m: CustomHttpPattern)
    requires ValidMsg(HttpGrammar(), CUSTOM_HTTP_PATTERN, CustomHttpPatternMsg(m))
    ensures Encode(HttpGrammar(), CUSTOM_HTTP_PATTERN, CustomHttpPatternMsg(m)) == CustomHttpPatternBytes(m)
  {
    var g, t, r := HttpGrammar(), CUSTOM_HTTP_PATTERN, CustomHttpPatternMsg(m);
    CustomHttpPatternRows(m);
    WrittenNone([], g, t, r);
    hide HttpGrammar, GrammarOk, ValidMsg, Written, Encode, OptStrSlot, BoolSlot, OptSubSlot, SubsSlot, Text, OptText, Flag, Texts, CustomHttpPatternMsg;
    TextRow([], g, t, r, 0, 10, m.kind);
    NothingBefore(Text(10, m.kind));
    var b0 := Text(10, m.kind);
    TextRow(b0, g, t, r, 1, 18, m.path);
    WrittenAll([], g, t, r);
    NothingBefore(Encode(g, t, r));
  }

  function OptCustomBytes(o: Option<CustomHttpPattern>): Option<bytes> {
    if o.Some? then Some(CustomHttpPatternBytes(o.value)) else None
  }

  function HttpRulesBytes(ms: seq<HttpRule>): (bodies: seq<bytes>)
    ensures |bodies| == |ms|
    decreases ms, 0
  {
    seq(|ms|, i requires 0 <= i < |ms| => HttpRuleBytes(ms[i]))
  }

  function HttpRuleBytes(m: HttpRule): bytes
    decreases m, 1
  {
    Text(10, m.selector) + OptText(18, m.get) + OptText(26, m.put) + OptText(34, m.post) + OptText(42, m.delete)
    + OptText(50, m.patch) + OptText(66, OptCustomBytes(m.custom)) + Text(58, m.body) + Text(98, m.responseBody)
    + Texts(90, HttpRulesBytes(m.additionalBindings), |m.additionalBindings|)
  }

  lemma {:induction false} HttpRuleForm(m: HttpRule)
    requires ValidMsg(HttpGrammar(), HTTP_RULE, HttpRuleMsg(m))
    ensures Encode(HttpGrammar(), HTTP_RULE, HttpRuleMsg(m)) == HttpRuleBytes(m)
    decreases m, 1
  {
    var g, t, r := HttpGrammar(), HTTP_RULE, HttpRuleMsg(m);
    HttpRuleRows(m);
    OptCustomHttpPatternIs(m.custom);
    if m.custom.Some? && ValidMsg(g, CUSTOM_HTTP_PATTERN, CustomHttpPatternMsg(m.custom.value)) {
      CustomHttpPatternForm(m.custom.value);
    }
    HttpRulesForm(m.additionalBindings);
    WrittenNone([], g, t, r);
    hide HttpGrammar, GrammarOk, ValidMsg, Written, Encode, OptStrSlot, BoolSlot, OptSubSlot, SubsSlot, Text, OptText, Flag, Texts, HttpRuleMsg, HttpRuleMsgs, HttpRulesBytes, OptCustomHttpPatternMsg, CustomHttpPatternMsg, CustomHttpPatternBytes;
    TextRow([], g, t, r, 0, 10, m.selector);
    NothingBefore(Text(10, m.selector));
    var b0 := Text(10, m.selector);
    OptTextRow(b0, g, t, r, 1, 18, m.get);
    var b1 := b0 + OptText(18, m.get);
    OptTextRow(b1, g, t, r, 2, 26, m.put);
    var b2 := b1 + OptText(26, m.put);
    OptTextRow(b2, g, t, r, 3, 34, m.post);
    var b3 := b2 + OptText(34, m.post);
    OptTextRow(b3, g, t, r, 4, 42, m.delete);
    var b4 := b3 + OptText(42, m.delete);
    OptTextRow(b4, g, t, r, 5, 50, m.patch);
    var b5 := b4 + OptText(50, m.patch);
    PartRow(b5, g, t, r, 6, 66, CUSTOM_HTTP_PATTERN, OptCustomHttpPatternMsg(m.custom), OptCustomBytes(m.custom));
    var b6 := b5 + OptText(66, OptCustomBytes(m.custom));
    TextRow(b6, g, t, r, 7, 58, m.body);
    var b7 := b6 + Text(58, m.body);
    TextRow(b7, g, t, r, 8, 98, m.responseBody);
    var b8 := b7 + Text(98, m.responseBody);
    PartsRow(b8, g, t, r, 9, 90, HTTP_RULE, HttpRuleMsgs(m.additionalBindings), HttpRulesBytes(m.additionalBindings),
      |m.additionalBindings|);
    WrittenAll([], g, t, r);
    NothingBefore(Encode(g, t, r));
  }

  lemma {:induction false} HttpRulesForm(ms: seq<HttpRule>)
    ensures forall i | 0 <= i < |ms| && ValidMsg(HttpGrammar(), HTTP_RULE, HttpRuleMsgs(ms)[i]) ::
      Encode(HttpGrammar(), HTTP_RULE, HttpRuleMsgs(ms)[i]) == HttpRulesBytes(ms)[i]
    decreases ms, 0
  {
    hide HttpGrammar, GrammarOk, ValidMsg, Encode, HttpRuleMsg, HttpRuleBytes;
    forall i | 0 <= i < |ms| && ValidMsg(HttpGrammar(), HTTP_RULE, HttpRuleMsgs(ms)[i])
      ensures Encode(HttpGrammar(), HTTP_RULE, HttpRuleMsgs(ms)[i]) == HttpRulesBytes(ms)[i]
    {
      HttpRuleForm(ms[i]);
    }
  }

  function HttpBytes(m: Http): bytes {
    Texts(10, HttpRulesBytes(m.rules), |m.rules|) + Flag(16, m.fullyDecodeReservedExpansion)
  }

  lemma HttpForm(m: Http)
    requires ValidMsg(HttpGrammar(), HTTP, HttpMsg(m))
    ensures Encode(HttpGrammar(), HTTP, HttpMsg(m)) == HttpBytes(m)
  {
    var g, t, r := HttpGrammar(), HTTP, HttpMsg(m);
    HttpRows(m);
    HttpRulesForm(m.rules);
    WrittenNone([], g, t, r);
    hide HttpGrammar, GrammarOk, ValidMsg, Written, Encode, OptStrSlot, BoolSlot, OptSubSlot, SubsSlot, Text, OptText, Flag, Texts, HttpMsg, HttpRuleMsgs, HttpRulesBytes;
    PartsRow([], g, t, r, 0, 10, HTTP_RULE, HttpRuleMsgs(m.rules), HttpRulesBytes(m.rules), |m.rules|);
    NothingBefore(Texts(10, HttpRulesBytes(m.rules), |m.rules|));
    var b0 := Texts(10, HttpRulesBytes(m.rules), |m.rules|);
    FlagRow(b0, g, t, r, 1, 16, m.fullyDecodeReservedExpansion);
    WrittenAll([], g, t, r);
    NothingBefore(Encode(g, t, r));
  }

  // ---------------------------------------------------------------- descriptor.ts

  function NamePartBytes(m: NamePart): bytes {
    Text(10, m.namePart) + Flag(16, m.isExtension)
  }

  lemma NamePartForm(m: NamePart)
    requires ValidMsg(DescriptorGrammar(), UNINTERPRETED_OPTION_NAME_PART, NamePartMsg(m))
    ensures Encode(DescriptorGrammar(), UNINTERPRETED_OPTION_NAME_PART, NamePartMsg(m)) == NamePartBytes(m)
  {
    var g, t, r := DescriptorGrammar(), UNINTERPRETED_OPTION_NAME_PART, NamePartMsg(m);
    NamePartRows(m);
    WrittenNone([], g, t, r);
    hide DescriptorGrammar, GrammarOk, ValidMsg, Written, Encode, OptStrSlot, BoolSlot, SubsSlot, StrsSlot, IntsSlot, OptIntSlot,
      OptDoubleSlot, Text, OptText, Flag, Texts, Long, Double, PackedText, NamePartMsg;
    TextRow([], g, t, r, 0, 10, m.namePart);
    NothingBefore(Text(10, m.namePart));
    var b0 := Text(10, m.namePart);
    FlagRow(b0, g, t, r, 1, 16, m.isExtension);
    WrittenAll([], g, t, r);
    NothingBefore(Encode(g, t, r));
  }

  function NamePartsBytes(ms: seq<NamePart>): (bodies: seq<bytes>)
    ensures |bodies| == |ms|
  {
    seq(|ms|, i requires 0 <= i < |ms| => NamePartBytes(ms[i]))
  }

  lemma NamePartsForm(ms: seq<NamePart>)
    ensures UNINTERPRETED_OPTION_NAME_PART < |DescriptorGrammar()|
    ensures forall i | 0 <= i < |ms| && ValidMsg(DescriptorGrammar(), UNINTERPRETED_OPTION_NAME_PART, NamePartMsgs(ms)[i]) ::
      Encode(DescriptorGrammar(), UNINTERPRETED_OPTION_NAME_PART, NamePartMsgs(ms)[i]) == NamePartsBytes(ms)[i]
  {
    hide DescriptorGrammar, GrammarOk, ValidMsg, Encode, NamePartMsg, NamePartBytes;
    forall i | 0 <= i < |ms| && ValidMsg(DescriptorGrammar(), UNINTERPRETED_OPTION_NAME_PART, NamePartMsgs(ms)[i])
      ensures Encode(DescriptorGrammar(), UNINTERPRETED_OPTION_NAME_PART, NamePartMsgs(ms)[i]) == NamePartsBytes(ms)[i]
    {
      NamePartForm(ms[i]);
    }
  }

  predicate LongsFit(m: UninterpretedOption) {
    && (m.positiveIntValue.Some? ==> -TWO_63 <= m.positiveIntValue.value < TWO_64)
    && (m.negativeIntValue.Some? ==> -TWO_63 <= m.negativeIntValue.value < TWO_64)
  }

  function UninterpretedOptionBytes(m: UninterpretedOption): bytes
    requires LongsFit(m)
  {
    Texts(18, NamePartsBytes(m.name), |m.name|) + TextIf(26, m.identifierValue) + Long(32, m.positiveIntValue)
    + Long(40, m.negativeIntValue) + Double(49, m.doubleValue) + TextIf(58, m.stringValue)
    + TextIf(66, m.aggregateValue)
  }

  lemma UninterpretedOptionBytesAre(m: UninterpretedOption)
    ensures LongsFit(m) == (
      && (m.positiveIntValue.Some? ==> -TWO_63 <= m.positiveIntValue.value < TWO_64)
      && (m.negativeIntValue.Some? ==> -TWO_63 <= m.negativeIntValue.value < TWO_64))
    ensures LongsFit(m) ==>
      UninterpretedOptionBytes(m)
        == Texts(18, NamePartsBytes(m.name), |m.name|) + TextIf(26, m.identifierValue) + Long(32, m.positiveIntValue)
           + Long(40, m.negativeIntValue) + Double(49, m.doubleValue) + TextIf(58, m.stringValue)
           + TextIf(66, m.aggregateValue)
  {
  }

  lemma UninterpretedOptionForm(m: UninterpretedOption)
    requires ValidMsg(DescriptorGrammar(), UNINTERPRETED_OPTION, UninterpretedOptionMsg(m))
    ensures LongsFit(m)
    ensures Encode(DescriptorGrammar(), UNINTERPRETED_OPTION, UninterpretedOptionMsg(m)) == UninterpretedOptionBytes(m)
  {
    assert UNINTERPRETED_OPTION < |DescriptorGrammar()|;
    hide *;
    var g, t, r := DescriptorGrammar(), UNINTERPRETED_OPTION, UninterpretedOptionMsg(m);
    UninterpretedOptionRows(m);
    NamePartsForm(m.name);
    WrittenNone([], g, t, r);
    UninterpretedOptionBytesAre(m);
    PartsRow([], g, t, r, 0, 18, UNINTERPRETED_OPTION_NAME_PART, NamePartMsgs(m.name), NamePartsBytes(m.name), |m.name|);
    NothingBefore(Texts(18, NamePartsBytes(m.name), |m.name|));
    var b0 := Texts(18, NamePartsBytes(m.name), |m.name|);
    TextIfRow(b0, g, t, r, 1, 26, m.identifierValue);
    var b1 := b0 + TextIf(26, m.identifierValue);
    LongRow(b1, g, t, r, 2, 32, false, m.positiveIntValue);
    var b2 := b1 + Long(32, m.positiveIntValue);
    LongRow(b2, g, t, r, 3, 40, true, m.negativeIntValue);
    var b3 := b2 + Long(40, m.negativeIntValue);
    DoubleRow(b3, g, t, r, 4, 49, m.doubleValue);
    var b4 := b3 + Double(49, m.doubleValue);
    TextIfRow(b4, g, t, r, 5, 58, m.stringValue);
    var b5 := b4 + TextIf(58, m.stringValue);
    TextIfRow(b5, g, t, r, 6, 66, m.aggregateValue);
    WrittenAll([], g, t, r);
    NothingBefore(Encode(g, t, r));
  }

  function LocationBytes(m: Location): bytes
    requires Small(m.path) && Small(m.span)
  {
    PackedText(10, m.path) + PackedText(18, m.span) + TextIf(26, m.leadingComments)
    + TextIf(34, m.trailingComments) + Texts(50, m.leadingDetachedComments, |m.leadingDetachedComments|)
  }

  lemma LocationForm(m: Location)
    requires ValidMsg(DescriptorGrammar(), SOURCE_CODE_INFO_LOCATION, LocationMsg(m))
    ensures Small(m.path) && Small(m.span)
    ensures Encode(DescriptorGrammar(), SOURCE_CODE_INFO_LOCATION, LocationMsg(m)) == LocationBytes(m)
  {
    var g, t, r := DescriptorGrammar(), SOURCE_CODE_INFO_LOCATION, LocationMsg(m);
    LocationRows(m);
    WrittenNone([], g, t, r);
    hide DescriptorGrammar, GrammarOk, ValidMsg, Written, Encode, OptStrSlot, BoolSlot, SubsSlot, StrsSlot, IntsSlot, OptIntSlot,
      OptDoubleSlot, Text, OptText, Flag, Texts, Long, Double, PackedText, LocationMsg, Small;
    PackedRow([], g, t, r, 0, 10, m.path);
    NothingBefore(PackedText(10, m.path));
    var b0 := PackedText(10, m.path);
    PackedRow(b0, g, t, r, 1, 18, m.span);
    var b1 := b0 + PackedText(18, m.span);
    TextIfRow(b1, g, t, r, 2, 26, m.leadingComments);
    var b2 := b1 + TextIf(26, m.leadingComments);
    TextIfRow(b2, g, t, r, 3, 34, m.trailingComments);
    var b3 := b2 + TextIf(34, m.trailingComments);
    TextsRow(b3, g, t, r, 4, 50, m.leadingDetachedComments, |m.leadingDetachedComments|);
    WrittenAll([], g, t, r);
    NothingBefore(Encode(g, t, r));
  }
}
