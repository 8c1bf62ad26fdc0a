/**
 Decoding two encodings written one after the other, for messages as the files declare them: an explicit
 combination of the two. And what holds of decoding any bytes at all, for those messages.
 */
module Combined {
  import opened Wire
  import opened Codec
  import opened RoundTrip
  import opened Decoded
  import opened Reencoded
  import opened Fields
  import opened HttpSchemas
  import opened HttpCodec
  import opened AuthSchemas
  import opened AuthCodec

  // ---------------------------------------------------------------- one property

  lemma MergeStr(g: Grammar, tag: nat, a: bytes, b: bytes)
    requires GrammarOk(g) && ValidSlot(g, Row(tag, KStr, Implicit(Str([]))), OptStrSlot(Some(b)))
    ensures MergeSlot(g, Row(tag, KStr, Implicit(Str([]))), OptStrSlot(Some(a)), OptStrSlot(Some(b)))
         == OptStrSlot(Some(if b == [] then a else b))
  {
    assert NormVals(g, Row(tag, KStr, Implicit(Str([]))), OptStrSlot(Some(b))) == [Str(b)];
  }

  lemma MergeOptStr(g: Grammar, tag: nat, a: Option<bytes>, b: Option<bytes>)
    requires GrammarOk(g) && ValidSlot(g, Row(tag, KStr, Explicit), OptStrSlot(b))
    ensures MergeSlot(g, Row(tag, KStr, Explicit), OptStrSlot(a), OptStrSlot(b)) == OptStrSlot(if b == None then a else b)
  {
    assert NormVals(g, Row(tag, KStr, Explicit), OptStrSlot(b)) == OptStrSlot(b).vals;
  }

  lemma MergeOptSub(g: Grammar, tag: nat, s: nat, a: Option<Msg>, b: Option<Msg>)
    requires GrammarOk(g) && s < |g| && ValidSlot(g, Row(tag, KMsg(s), Explicit), OptSubSlot(b))
    requires b.Some? ==> |b.value.slots| == |g[s].plan| && Norm(g, s, b.value) == b.value
    ensures MergeSlot(g, Row(tag, KMsg(s), Explicit), OptSubSlot(a), OptSubSlot(b)) == OptSubSlot(if b == None then a else b)
  {
    hide Norm, GrammarOk;
    assert NormVals(g, Row(tag, KMsg(s), Explicit), OptSubSlot(b)) == OptSubSlot(b).vals;
  }

  lemma MergeSubs(g: Grammar, tag: nat, s: nat, a: seq<Msg>, b: seq<Msg>)
    requires GrammarOk(g) && s < |g| && ValidSlot(g, Row(tag, KMsg(s), Repeated), SubsSlot(b))
    requires forall i | 0 <= i < |b| :: |b[i].slots| == |g[s].plan| && Norm(g, s, b[i]) == b[i]
    ensures MergeSlot(g, Row(tag, KMsg(s), Repeated), SubsSlot(a), SubsSlot(b)) == SubsSlot(a + b)
  {
    hide Norm, GrammarOk;
    assert NormVals(g, Row(tag, KMsg(s), Repeated), SubsSlot(b)) == SubsSlot(b).vals;
    assert SubsSlot(a + b).vals == SubsSlot(a).vals + SubsSlot(b).vals;
  }

  /** In property `i` the merge of `m` into `n` is `r`. */
  predicate MergesAt(g: Grammar, t: nat, n: Msg, m: Msg, r: Msg, i: nat)
    requires GrammarOk(g) && t < |g| && ValidMsg(g, t, m) && |n.slots| == |m.slots| == |r.slots| && i < |m.slots|
  {
    ValidSlot(g, g[t].plan[i], m.slots[i]) && MergeSlot(g, g[t].plan[i], n.slots[i], m.slots[i]) == r.slots[i]
  }

  lemma MergeAt(g: Grammar, t: nat, n: Msg, m: Msg, r: Msg)
    requires GrammarOk(g) && t < |g| && ValidMsg(g, t, m) && |n.slots| == |m.slots| == |r.slots|
    requires forall i | 0 <= i < |m.slots| :: MergesAt(g, t, n, m, r, i)
    ensures Merge(g, t, n, m) == r
  {
    forall i | 0 <= i < |m.slots| ensures Merge(g, t, n, m).slots[i] == r.slots[i] {
      assert MergesAt(g, t, n, m, r, i);
    }
    SameSlots(Merge(g, t, n, m), r);
  }

  // ---------------------------------------------------------------- whole messages

  function CombineSession(a: SessionResponse, b: SessionResponse): SessionResponse {
    SessionResponse(if b.jwt == [] then a.jwt else b.jwt, if b.user == None then a.user else b.user)
  }

  /** A later token or user replaces the earlier one, the user whole: none of its fields are mixed. */
  lemma SessionsCombine(a: SessionResponse, b: SessionResponse)
    requires ValidMsg(AuthGrammar(), SESSION_RESPONSE, SessionResponseMsg(a))
    requires ValidMsg(AuthGrammar(), SESSION_RESPONSE, SessionResponseMsg(b))
    ensures var x := Encode(AuthGrammar(), SESSION_RESPONSE, SessionResponseMsg(a));
      var y := Encode(AuthGrammar(), SESSION_RESPONSE, SessionResponseMsg(b));
      Decode(AuthGrammar(), SESSION_RESPONSE, x + y, 0, |x| + |y|) == Got(SessionResponseMsg(CombineSession(a, b)), |x| + |y|)
  {
    DecodeConcatenation(AuthGrammar(), SESSION_RESPONSE, SessionResponseMsg(a), SessionResponseMsg(b));
    SessionResponseNorm(a);
    SessionsMerge(a, b);
    hide *;
  }

  lemma SessionsMerge(a: SessionResponse, b: SessionResponse)
    requires ValidMsg(AuthGrammar(), SESSION_RESPONSE, SessionResponseMsg(a))
    requires ValidMsg(AuthGrammar(), SESSION_RESPONSE, SessionResponseMsg(b))
    ensures |SessionResponseMsg(a).slots| == |SessionResponseMsg(b).slots|
    ensures Merge(AuthGrammar(), SESSION_RESPONSE, SessionResponseMsg(a), SessionResponseMsg(b)) == SessionResponseMsg(CombineSession(a, b))
  {
    var g, t, c := AuthGrammar(), SESSION_RESPONSE, CombineSession(a, b);
    assert USER < |g| && SESSION_RESPONSE < |g|;
    if b.user.Some? {
      UserNorm(b.user.value);
    }
    hide AuthGrammar, GrammarOk, ValidMsg, ValidSlot, Merge, MergeSlot, SessionResponseMsg, OptStrSlot,
      OptSubSlot, Norm;
    SessionResponseRows(a);
    SessionResponseRows(b);
    SessionResponseRows(c);
    SlotsValid(g, t, SessionResponseMsg(b));
    MergeStr(g, 10, a.jwt, b.jwt);
    MergeOptSub(g, 18, USER, OptUserMsg(a.user), OptUserMsg(b.user));
    MergeAt(g, t, SessionResponseMsg(a), SessionResponseMsg(b), SessionResponseMsg(c));
  }

  function CombineRule(a: HttpRule, b: HttpRule): HttpRule {
    HttpRule(
      if b.selector == [] then a.selector else b.selector,
      if b.get == None then a.get else b.get,
      if b.put == None then a.put else b.put,
      if b.post == None then a.post else b.post,
      if b.delete == None then a.delete else b.delete,
      if b.patch == None then a.patch else b.patch,
      if b.custom == None then a.custom else b.custom,
      if b.body == [] then a.body else b.body,
      if b.responseBody == [] then a.responseBody else b.responseBody,
      a.additionalBindings + b.additionalBindings)
  }

  lemma RulesOf(a: seq<HttpRule>, b: seq<HttpRule>)
    ensures HttpRuleMsgs(a + b) == HttpRuleMsgs(a) + HttpRuleMsgs(b)
    ensures forall i | 0 <= i < |b| ::
      var s := HttpRuleMsgs(b)[i]; |s.slots| == |HttpGrammar()[HTTP_RULE].plan| && Norm(HttpGrammar(), HTTP_RULE, s) == s
  {
    HttpRuleMsgsAre(a);
    HttpRuleMsgsAre(b);
    HttpRuleMsgsAre(a + b);
    forall i | 0 <= i < |b|
      ensures var s := HttpRuleMsgs(b)[i]; |s.slots| == |HttpGrammar()[HTTP_RULE].plan| && Norm(HttpGrammar(), HTTP_RULE, s) == s
    {
      HttpRuleNorm(b[i]);
    }
    hide *;
    assert HttpRuleMsgs(a + b) == HttpRuleMsgs(a) + HttpRuleMsgs(b);
  }

  /** The slots of a valid message are valid. */
  lemma SlotsValid(g: Grammar, t: nat, m: Msg)
    requires GrammarOk(g) && t < |g| && ValidMsg(g, t, m)
    ensures |m.slots| == |g[t].plan|
    ensures forall i | 0 <= i < |m.slots| :: KindOk(g, g[t].plan[i].kind) && ValidSlot(g, g[t].plan[i], m.slots[i])
  {
  }

  /** Bindings append; any other property of the later rule that was written replaces the earlier one. */
  lemma RulesCombine(a: HttpRule, b: HttpRule)
    requires ValidMsg(HttpGrammar(), HTTP_RULE, HttpRuleMsg(a)) && ValidMsg(HttpGrammar(), HTTP_RULE, HttpRuleMsg(b))
    ensures var x, y := Encode(HttpGrammar(), HTTP_RULE, HttpRuleMsg(a)), Encode(HttpGrammar(), HTTP_RULE, HttpRuleMsg(b));
      Decode(HttpGrammar(), HTTP_RULE, x + y, 0, |x| + |y|) == Got(HttpRuleMsg(CombineRule(a, b)), |x| + |y|)
  {
    DecodeConcatenation(HttpGrammar(), HTTP_RULE, HttpRuleMsg(a), HttpRuleMsg(b));
    HttpRuleNorm(a);
    RulesMerge(a, b);
    hide *;
  }

  lemma RulesMerge0To3(a: HttpRule, b: HttpRule, g: Grammar, t: nat, x: Msg, y: Msg, z: Msg)
    requires g == HttpGrammar() && t == HTTP_RULE && x == HttpRuleMsg(a) && y == HttpRuleMsg(b) && z == HttpRuleMsg(CombineRule(a, b))
    requires ValidMsg(g, t, y) && |x.slots| == |y.slots| == |z.slots| == 10
    ensures forall i | 0 <= i < 3 :: MergesAt(g, t, x, y, z, i)
  {
    assert CUSTOM_HTTP_PATTERN < |g| && HTTP_RULE < |g|;
    hide HttpGrammar, GrammarOk, ValidMsg, ValidSlot, Merge, MergeSlot, HttpRuleMsg, HttpRuleMsgs, OptStrSlot,
      OptSubSlot, SubsSlot, Norm;
    HttpRuleRows(a);
    HttpRuleRows(b);
    HttpRuleRows(CombineRule(a, b));
    SlotsValid(g, t, y);
    MergeStr(g, 10, a.selector, b.selector);
    MergeOptStr(g, 18, a.get, b.get);
    MergeOptStr(g, 26, a.put, b.put);
  }

  lemma RulesMerge3To5(a: HttpRule, b: HttpRule, g: Grammar, t: nat, x: Msg, y: Msg, z: Msg)
    requires g == HttpGrammar() && t == HTTP_RULE && x == HttpRuleMsg(a) && y == HttpRuleMsg(b) && z == HttpRuleMsg(CombineRule(a, b))
    requires ValidMsg(g, t, y) && |x.slots| == |y.slots| == |z.slots| == 10
    ensures forall i | 3 <= i < 5 :: MergesAt(g, t, x, y, z, i)
  {
    assert CUSTOM_HTTP_PATTERN < |g| && HTTP_RULE < |g|;
    hide HttpGrammar, GrammarOk, ValidMsg, ValidSlot, Merge, MergeSlot, HttpRuleMsg, HttpRuleMsgs, OptStrSlot,
      OptSubSlot, SubsSlot, Norm;
    HttpRuleRows(a);
    HttpRuleRows(b);
    HttpRuleRows(CombineRule(a, b));
    SlotsValid(g, t, y);
    MergeOptStr(g, 34, a.post, b.post);
    MergeOptStr(g, 42, a.delete, b.delete);
  }

  lemma RulesMerge5To8(a: HttpRule, b: HttpRule, g: Grammar, t: nat, x: Msg, y: Msg, z: Msg)
    requires g == HttpGrammar() && t == HTTP_RULE && x == HttpRuleMsg(a) && y == HttpRuleMsg(b) && z == HttpRuleMsg(CombineRule(a, b))
    requires ValidMsg(g, t, y) && |x.slots| == |y.slots| == |z.slots| == 10
    ensures forall i | 5 <= i < 8 :: MergesAt(g, t, x, y, z, i)
  {
    assert CUSTOM_HTTP_PATTERN < |g| && HTTP_RULE < |g|;
    hide HttpGrammar, GrammarOk, ValidMsg, ValidSlot, Merge, MergeSlot, HttpRuleMsg, HttpRuleMsgs, OptStrSlot,
      OptSubSlot, SubsSlot, Norm;
    HttpRuleRows(a);
    HttpRuleRows(b);
    HttpRuleRows(CombineRule(a, b));
    SlotsValid(g, t, y);
    if b.custom.Some? {
      CustomHttpPatternNorm(b.custom.value);
    }
    MergeOptStr(g, 50, a.patch, b.patch);
    MergeOptSub(g, 66, CUSTOM_HTTP_PATTERN, OptCustomHttpPatternMsg(a.custom), OptCustomHttpPatternMsg(b.custom));
    MergeStr(g, 58, a.body, b.body);
  }

  lemma RulesMerge8To10(a: HttpRule, b: HttpRule, g: Grammar, t: nat, x: Msg, y: Msg, z: Msg)
    requires g == HttpGrammar() && t == HTTP_RULE && x == HttpRuleMsg(a) && y == HttpRuleMsg(b) && z == HttpRuleMsg(CombineRule(a, b))
    requires ValidMsg(g, t, y) && |x.slots| == |y.slots| == |z.slots| == 10
    ensures forall i | 8 <= i < 10 :: MergesAt(g, t, x, y, z, i)
  {
    assert CUSTOM_HTTP_PATTERN < |g| && HTTP_RULE < |g|;
    hide HttpGrammar, GrammarOk, ValidMsg, ValidSlot, Merge, MergeSlot, HttpRuleMsg, HttpRuleMsgs, OptStrSlot,
      OptSubSlot, SubsSlot, Norm;
    HttpRuleRows(a);
    HttpRuleRows(b);
    HttpRuleRows(CombineRule(a, b));
    SlotsValid(g, t, y);
    RulesOf(a.additionalBindings, b.additionalBindings);
    MergeStr(g, 98, a.responseBody, b.responseBody);
    MergeSubs(g, 90, HTTP_RULE, HttpRuleMsgs(a.additionalBindings), HttpRuleMsgs(b.additionalBindings));
  }

  lemma RulesMerge(a: HttpRule, b: HttpRule)
    requires ValidMsg(HttpGrammar(), HTTP_RULE, HttpRuleMsg(a)) && ValidMsg(HttpGrammar(), HTTP_RULE, HttpRuleMsg(b))
    ensures |HttpRuleMsg(a).slots| == |HttpRuleMsg(b).slots|
    ensures Merge(HttpGrammar(), HTTP_RULE, HttpRuleMsg(a), HttpRuleMsg(b)) == HttpRuleMsg(CombineRule(a, b))
  {
    var g, t, c := HttpGrammar(), HTTP_RULE, CombineRule(a, b);
    assert HTTP_RULE < |g|;
    hide *;
    HttpRuleRows(a);
    HttpRuleRows(b);
    HttpRuleRows(c);
    RulesMerge0To3(a, b, g, t, HttpRuleMsg(a), HttpRuleMsg(b), HttpRuleMsg(c));
    RulesMerge3To5(a, b, g, t, HttpRuleMsg(a), HttpRuleMsg(b), HttpRuleMsg(c));
    RulesMerge5To8(a, b, g, t, HttpRuleMsg(a), HttpRuleMsg(b), HttpRuleMsg(c));
    RulesMerge8To10(a, b, g, t, HttpRuleMsg(a), HttpRuleMsg(b), HttpRuleMsg(c));
    MergeAt(g, t, HttpRuleMsg(a), HttpRuleMsg(b), HttpRuleMsg(c));
  }

  // ---------------------------------------------------------------- how many rules bytes can hold

  /** The rules below a rule, at every depth. */
  function RulesBelow(m: HttpRule): nat
    decreases m, 1
  {
    RulesIn(m.additionalBindings)
  }

  function RulesIn(ms: seq<HttpRule>): nat
    decreases ms, 0
  {
    if ms == [] then 0 else RulesWith(ms[0]) + RulesIn(ms[1..])
  }

  function RulesWith(m: HttpRule): nat
    decreases m, 2
  {
    1 + RulesBelow(m)
  }

  lemma {:induction false} RulesAreSubs(m: HttpRule)
    ensures RulesBelow(m) <= Subs(HttpRuleMsg(m))
    decreases m, 1
  {
    RulesInAreSubs(m.additionalBindings);
    HttpRuleRows(m);
    hide HttpGrammar, HttpRuleMsg, HttpRuleMsgs;
    SubsInAt(HttpRuleMsg(m).slots, 9);
  }

  lemma {:induction false} RulesInAreSubs(ms: seq<HttpRule>)
    ensures RulesIn(ms) <= SubsOf(SubsSlot(HttpRuleMsgs(ms)).vals)
    decreases ms, 0
  {
    if ms != [] {
      RulesWithAreSubs(ms[0]);
      RulesInAreSubs(ms[1..]);
      assert SubsSlot(HttpRuleMsgs(ms)).vals[1..] == SubsSlot(HttpRuleMsgs(ms[1..])).vals;
    }
  }

  lemma {:induction false} RulesWithAreSubs(m: HttpRule)
    ensures RulesWith(m) <= SubsOfOne(Sub(HttpRuleMsg(m)))
    decreases m, 2
  {
    RulesAreSubs(m);
  }

  lemma {:induction false} SubsInAt(slots: seq<Slot>, i: nat)
    requires i < |slots|
    ensures SubsOf(slots[i].vals) <= SubsIn(slots)
    decreases i
  {
    if i > 0 {
      SubsInAt(slots[1..], i - 1);
    }
  }

  /** Any bytes that decode to a rule have at least two for each rule nested in it. */
  lemma RuleIsBounded(buf: bytes, r: HttpRule, p: nat)
    requires Decode(HttpGrammar(), HTTP_RULE, buf, 0, |buf|) == Got(HttpRuleMsg(r), p)
    ensures RulesBelow(r) <= |buf| / 2
  {
    DecodeIsBounded(HttpGrammar(), HTTP_RULE, buf);
    RulesAreSubs(r);
  }

  // ---------------------------------------------------------------- any bytes, there and back

  lemma HttpIsLight()
    ensures Light(HttpGrammar()) && NoDoubles(HttpGrammar())
  {
    HttpPlain();
    HttpRulePlain();
    hide LightPlan, NoDoublesIn;
  }

  lemma HttpPlain()
    ensures LightPlan(HttpSchema().plan) && NoDoublesIn(HttpSchema().plan)
    ensures LightPlan(CustomHttpPatternSchema().plan) && NoDoublesIn(CustomHttpPatternSchema().plan)
  {
    IsLight(HttpSchema());
    IsLight(CustomHttpPatternSchema());
    hide LightPlan;
  }

  lemma HttpRulePlain()
    ensures LightPlan(HttpRuleSchema().plan) && NoDoublesIn(HttpRuleSchema().plan)
  {
    IsLight(HttpRuleSchema());
    hide LightPlan;
  }

  lemma AuthIsLight()
    ensures Light(AuthGrammar()) && NoDoubles(AuthGrammar())
  {
    AuthPlain();
    UserPlain();
    hide LightPlan, NoDoublesIn;
  }

  lemma AuthPlain()
    ensures LightPlan(GoogleLoginRequestSchema().plan) && NoDoublesIn(GoogleLoginRequestSchema().plan)
    ensures LightPlan(SessionResponseSchema().plan) && NoDoublesIn(SessionResponseSchema().plan)
    ensures LightPlan(UpdateProfileRequestSchema().plan) && NoDoublesIn(UpdateProfileRequestSchema().plan)
    ensures LightPlan(GetCurrentUserRequestSchema().plan) && NoDoublesIn(GetCurrentUserRequestSchema().plan)
    ensures LightPlan(ListUsersRequestSchema().plan) && NoDoublesIn(ListUsersRequestSchema().plan)
    ensures LightPlan(ListUsersResponseSchema().plan) && NoDoublesIn(ListUsersResponseSchema().plan)
  {
    IsLight(GoogleLoginRequestSchema());
    IsLight(SessionResponseSchema());
    IsLight(UpdateProfileRequestSchema());
    IsLight(GetCurrentUserRequestSchema());
    IsLight(ListUsersRequestSchema());
    IsLight(ListUsersResponseSchema());
    hide LightPlan;
  }

  lemma UserPlain()
    ensures LightPlan(UserSchema().plan) && NoDoublesIn(UserSchema().plan)
  {
    IsLight(UserSchema());
    hide LightPlan;
  }

  /** Whatever bytes decode to a message of `http.ts`: it can be encoded, and comes back as it is. */
  lemma HttpComesBack(t: nat, buf: bytes)
    requires t < |HttpGrammar()| && Decode(HttpGrammar(), t, buf, 0, |buf|).Got? && 15 * |buf| + 20 < TWO_32
    ensures var g := HttpGrammar();
      var m := Decode(g, t, buf, 0, |buf|).val;
      ValidMsg(g, t, m) && Decode(g, t, Encode(g, t, m), 0, |Encode(g, t, m)|) == Got(m, |Encode(g, t, m)|)
  {
    HttpIsLight();
    ComesBack(HttpGrammar(), t, buf);
    hide *;
  }

  /** Likewise for `auth.ts`. */
  lemma AuthComesBack(t: nat, buf: bytes)
    requires t < |AuthGrammar()| && Decode(AuthGrammar(), t, buf, 0, |buf|).Got? && 15 * |buf| + 20 < TWO_32
    ensures var g := AuthGrammar();
      var m := Decode(g, t, buf, 0, |buf|).val;
      ValidMsg(g, t, m) && Decode(g, t, Encode(g, t, m), 0, |Encode(g, t, m)|) == Got(m, |Encode(g, t, m)|)
  {
    AuthIsLight();
    ComesBack(AuthGrammar(), t, buf);
    hide *;
  }
}
