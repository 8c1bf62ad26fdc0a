/**
 The JSON forms of `google/api/http.ts` and `auth.ts`, as instances.
 */
module JsonForms {
  import opened Wire
  import opened Codec
  import opened Fields
  import opened Json
  import opened JsonRoundTrip
  import opened HttpSchemas
  import opened HttpCodec
  import opened AuthSchemas
  import opened AuthCodec

  function One(name: Name): Spelling {
    Spelling(name, name)
  }

  // ---------------------------------------------------------------- http.ts

  function HttpRuleNames(): seq<Spelling> {
    [One(Selector), One(Get), One(PutName), One(Post), One(Delete), One(Patch), One(Custom), One(Body),
     Spelling(ResponseBody, Response_body), Spelling(AdditionalBindings, Additional_bindings)]
  }

  function HttpNames(): Names {
    [
      [One(Rules), Spelling(FullyDecodeReservedExpansion, Fully_decode_reserved_expansion)],
      HttpRuleNames(),
      [One(KindName), One(PathName)]
    ]
  }

  lemma HttpSpellings()
    ensures SpellingsOk(HttpSchema(), HttpNames()[HTTP])
    ensures SpellingsOk(CustomHttpPatternSchema(), HttpNames()[CUSTOM_HTTP_PATTERN])
  {
  }

  lemma HttpRuleSpellings()
    ensures SpellingsOk(HttpRuleSchema(), HttpNames()[HTTP_RULE])
  {
  }

  lemma HttpNamesOk()
    ensures TablesOk(HttpGrammar(), HttpNames())
  {
    HttpSpellings();
    HttpRuleSpellings();
    hide SpellingsOk, GrammarOk;
  }

  // ---------------------------------------------------------------- auth.ts

  function UserNames(): seq<Spelling> {
    [One(Id), One(Email), Spelling(DisplayName, Display_name), One(Username), Spelling(PictureUrl, Picture_url),
     Spelling(IsAdmin, Is_admin)]
  }

  function AuthNames(): Names {
    [
      [Spelling(IdToken, Id_token)],
      [One(Jwt), One(UserName)],
      UserNames(),
      [One(Username)],
      [],
      [],
      [One(Users)]
    ]
  }

  lemma AuthSpellings()
    ensures SpellingsOk(GoogleLoginRequestSchema(), AuthNames()[GOOGLE_LOGIN_REQUEST])
    ensures SpellingsOk(SessionResponseSchema(), AuthNames()[SESSION_RESPONSE])
    ensures SpellingsOk(UpdateProfileRequestSchema(), AuthNames()[UPDATE_PROFILE_REQUEST])
    ensures SpellingsOk(GetCurrentUserRequestSchema(), AuthNames()[GET_CURRENT_USER_REQUEST])
    ensures SpellingsOk(ListUsersRequestSchema(), AuthNames()[LIST_USERS_REQUEST])
    ensures SpellingsOk(ListUsersResponseSchema(), AuthNames()[LIST_USERS_RESPONSE])
  {
  }

  lemma UserSpellings()
    ensures SpellingsOk(UserSchema(), AuthNames()[USER])
  {
  }

  lemma AuthNamesOk()
    ensures TablesOk(AuthGrammar(), AuthNames())
  {
    AuthSpellings();
    UserSpellings();
    hide SpellingsOk, GrammarOk;
  }

  // ---------------------------------------------------------------- typed messages

  lemma StrTyped(g: Grammar, ns: Names, t: nat, i: nat, o: Option<bytes>)
    requires TablesOk(g, ns) && t < |g| && i < |g[t].plan| && g[t].plan[i].kind == KStr
    ensures TypedSlot(g, ns, t, i, OptStrSlot(o))
  {
    RowIsJson(g, ns, t, i);
  }

  lemma BoolTyped(g: Grammar, ns: Names, t: nat, i: nat, b: bool)
    requires TablesOk(g, ns) && t < |g| && i < |g[t].plan| && g[t].plan[i].kind == KBool
    ensures TypedSlot(g, ns, t, i, BoolSlot(b))
  {
    RowIsJson(g, ns, t, i);
  }

  lemma OptSubTyped(g: Grammar, ns: Names, t: nat, i: nat, s: nat, o: Option<Msg>)
    requires TablesOk(g, ns) && t < |g| && s < |g| && i < |g[t].plan| && g[t].plan[i].kind == KMsg(s)
    requires o.Some? ==> Typed(g, ns, s, o.value)
    ensures TypedSlot(g, ns, t, i, OptSubSlot(o))
  {
    RowIsJson(g, ns, t, i);
  }

  lemma SubsTyped(g: Grammar, ns: Names, t: nat, i: nat, s: nat, ms: seq<Msg>)
    requires TablesOk(g, ns) && t < |g| && s < |g| && i < |g[t].plan| && g[t].plan[i].kind == KMsg(s)
    requires g[t].plan[i].rule.Repeated?
    requires forall x | 0 <= x < |ms| :: Typed(g, ns, s, ms[x])
    ensures TypedSlot(g, ns, t, i, SubsSlot(ms))
  {
    RowIsJson(g, ns, t, i);
  }

  lemma CustomTyped(m: CustomHttpPattern)
    requires TablesOk(HttpGrammar(), HttpNames())
    ensures Typed(HttpGrammar(), HttpNames(), CUSTOM_HTTP_PATTERN, CustomHttpPatternMsg(m))
  {
    CustomHttpPatternRows(m);
  }

  lemma {:induction false} HttpRuleTyped(m: HttpRule)
    requires TablesOk(HttpGrammar(), HttpNames())
    ensures Typed(HttpGrammar(), HttpNames(), HTTP_RULE, HttpRuleMsg(m))
    decreases m
  {
    var g, ns, t := HttpGrammar(), HttpNames(), HTTP_RULE;
    HttpRuleRows(m);
    if m.custom.Some? {
      CustomTyped(m.custom.value);
    }
    forall i | 0 <= i < |m.additionalBindings|
      ensures Typed(g, ns, HTTP_RULE, HttpRuleMsgs(m.additionalBindings)[i])
    {
      HttpRuleTyped(m.additionalBindings[i]);
    }
    hide HttpGrammar, HttpNames, TablesOk, HttpRuleMsg, HttpRuleMsgs, TypedSlot, OptStrSlot, SubsSlot, OptSubSlot;
    StrTyped(g, ns, t, 0, Some(m.selector));
    StrTyped(g, ns, t, 1, m.get);
    StrTyped(g, ns, t, 2, m.put);
    StrTyped(g, ns, t, 3, m.post);
    StrTyped(g, ns, t, 4, m.delete);
    StrTyped(g, ns, t, 5, m.patch);
    OptSubTyped(g, ns, t, 6, CUSTOM_HTTP_PATTERN, OptCustomHttpPatternMsg(m.custom));
    StrTyped(g, ns, t, 7, Some(m.body));
    StrTyped(g, ns, t, 8, Some(m.responseBody));
    SubsTyped(g, ns, t, 9, HTTP_RULE, HttpRuleMsgs(m.additionalBindings));
  }

  lemma UserTyped(m: User)
    requires TablesOk(AuthGrammar(), AuthNames())
    ensures Typed(AuthGrammar(), AuthNames(), USER, UserMsg(m))
  {
    var g, ns, t := AuthGrammar(), AuthNames(), USER;
    UserRows(m);
    hide AuthGrammar, AuthNames, TablesOk, UserMsg, TypedSlot, OptStrSlot, BoolSlot;
    StrTyped(g, ns, t, 0, Some(m.id));
    StrTyped(g, ns, t, 1, Some(m.email));
    StrTyped(g, ns, t, 2, Some(m.displayName));
    StrTyped(g, ns, t, 3, Some(m.username));
    StrTyped(g, ns, t, 4, Some(m.pictureUrl));
    BoolTyped(g, ns, t, 5, m.isAdmin);
  }

  // ---------------------------------------------------------------- there and back

  /** Every `HttpRule` comes back from its JSON form, also with its keys in snake_case at every depth. */
  lemma HttpRuleJson(text: Json -> bytes, m: HttpRule, snake: bool)
    requires KeepsStrings(text)
    ensures TablesOk(HttpGrammar(), HttpNames())
    ensures Typed(HttpGrammar(), HttpNames(), HTTP_RULE, HttpRuleMsg(m))
    ensures FromJson(HttpGrammar(), HttpNames(), text, HTTP_RULE,
              ToJson(HttpGrammar(), HttpNames(), HTTP_RULE, HttpRuleMsg(m), snake)) == Some(HttpRuleMsg(m))
  {
    HttpNamesOk();
    HttpRuleTyped(m);
    JsonRoundTrips(HttpGrammar(), HttpNames(), text, HTTP_RULE, HttpRuleMsg(m), snake);
    HttpRuleNorm(m);
  }

  /** Every `User` does. */
  lemma UserJson(text: Json -> bytes, m: User, snake: bool)
    requires KeepsStrings(text)
    ensures TablesOk(AuthGrammar(), AuthNames())
    ensures Typed(AuthGrammar(), AuthNames(), USER, UserMsg(m))
    ensures FromJson(AuthGrammar(), AuthNames(), text, USER,
              ToJson(AuthGrammar(), AuthNames(), USER, UserMsg(m), snake)) == Some(UserMsg(m))
  {
    AuthNamesOk();
    UserTyped(m);
    JsonRoundTrips(AuthGrammar(), AuthNames(), text, USER, UserMsg(m), snake);
    UserNorm(m);
  }

  // ---------------------------------------------------------------- toJSON as written

  lemma NoProps(g: Grammar, ns: Names, t: nat, m: Msg)
    requires TablesOk(g, ns) && t < |g| && Typed(g, ns, t, m)
    ensures Props(g, ns, t, m, false, 0) == map[]
    ensures ToJson(g, ns, t, m, false) == JObj(Props(g, ns, t, m, false, |m.slots|))
  {
  }

  lemma NextProp(g: Grammar, ns: Names, t: nat, m: Msg, n: nat)
    requires TablesOk(g, ns) && t < |g| && Typed(g, ns, t, m) && n < |m.slots| == |g[t].plan| == |ns[t]|
    ensures TypedSlot(g, ns, t, n, m.slots[n])
    ensures Props(g, ns, t, m, false, n + 1)
         == if !Shown(g[t].plan[n], m.slots[n]) then Props(g, ns, t, m, false, n)
            else Props(g, ns, t, m, false, n)[ns[t][n].camel := SlotJson(g, ns, t, n, m.slots[n], false)]
  {
    assert TypedSlot(g, ns, t, n, m.slots[n]);
  }

  /** The next string property, if it is shown. */
  lemma StrProp(g: Grammar, ns: Names, t: nat, m: Msg, n: nat, o: Option<bytes>, name: Name)
    requires TablesOk(g, ns) && t < |g| && Typed(g, ns, t, m) && n < |m.slots| == |g[t].plan| == |ns[t]|
    requires g[t].plan[n].kind == KStr && m.slots[n] == OptStrSlot(o) && ns[t][n].camel == name
    requires g[t].plan[n].rule == Implicit(Str([])) || g[t].plan[n].rule == Explicit
    ensures Props(g, ns, t, m, false, n + 1)
         == if o == None || (o == Some([]) && g[t].plan[n].rule.Implicit?) then Props(g, ns, t, m, false, n)
            else Props(g, ns, t, m, false, n)[name := JStr(o.value)]
  {
    NextProp(g, ns, t, m, n);
    hide Props, Typed, TablesOk;
  }

  lemma BoolProp(g: Grammar, ns: Names, t: nat, m: Msg, n: nat, b: bool, name: Name)
    requires TablesOk(g, ns) && t < |g| && Typed(g, ns, t, m) && n < |m.slots| == |g[t].plan| == |ns[t]|
    requires g[t].plan[n].kind == KBool && m.slots[n] == BoolSlot(b) && ns[t][n].camel == name
    requires g[t].plan[n].rule == Implicit(Bool(false))
    ensures Props(g, ns, t, m, false, n + 1)
         == if b == false then Props(g, ns, t, m, false, n) else Props(g, ns, t, m, false, n)[name := JBool(b)]
  {
    NextProp(g, ns, t, m, n);
    hide Props, Typed, TablesOk;
  }

  lemma OptSubProp(g: Grammar, ns: Names, t: nat, m: Msg, n: nat, s: nat, o: Option<Msg>, name: Name)
    requires TablesOk(g, ns) && t < |g| && s < |g| && Typed(g, ns, t, m) && n < |m.slots| == |g[t].plan| == |ns[t]|
    requires g[t].plan[n].kind == KMsg(s) && m.slots[n] == OptSubSlot(o) && ns[t][n].camel == name
    requires g[t].plan[n].rule == Explicit
    ensures o.Some? ==> Typed(g, ns, s, o.value)
    ensures Props(g, ns, t, m, false, n + 1)
         == if o == None then Props(g, ns, t, m, false, n)
            else Props(g, ns, t, m, false, n)[name := ToJson(g, ns, s, o.value, false)]
  {
    NextProp(g, ns, t, m, n);
    hide Props, Typed, TablesOk, ToJson;
    assert o.Some? ==> TypedVal(g, ns, KMsg(s), m.slots[n].vals[0]);
  }

  lemma SubsProp(g: Grammar, ns: Names, t: nat, m: Msg, n: nat, s: nat, ms: seq<Msg>, name: Name, js: seq<Json>)
    requires TablesOk(g, ns) && t < |g| && s < |g| && Typed(g, ns, t, m) && n < |m.slots| == |g[t].plan| == |ns[t]|
    requires g[t].plan[n].kind == KMsg(s) && m.slots[n] == SubsSlot(ms) && ns[t][n].camel == name
    requires g[t].plan[n].rule == Repeated && |js| == |ms|
    requires forall x | 0 <= x < |ms| && Typed(g, ns, s, ms[x]) :: js[x] == ToJson(g, ns, s, ms[x], false)
    ensures Props(g, ns, t, m, false, n + 1)
         == if ms == [] then Props(g, ns, t, m, false, n) else Props(g, ns, t, m, false, n)[name := JArr(js)]
  {
    NextProp(g, ns, t, m, n);
    hide Props, Typed, TablesOk, ToJson;
    var slot := m.slots[n];
    if ms != [] {
      assert Shown(g[t].plan[n], slot);
      var items := SlotJson(g, ns, t, n, slot, false).items;
      forall x | 0 <= x < |ms| ensures items[x] == js[x] {
        assert TypedVal(g, ns, KMsg(s), slot.vals[x]);
        assert items[x] == ValJson(g, ns, KMsg(s), slot.vals[x], false);
      }
      assert items == js;
    }
  }

  /** `if (x !== "")`: sets a string. */
  method ShowStr(obj: map<Name, Json>, name: Name, s: bytes, ghost g: Grammar, ghost ns: Names, ghost t: nat,
      ghost m: Msg, ghost n: nat)
    returns (r: map<Name, Json>)
    requires TablesOk(g, ns) && t < |g| && Typed(g, ns, t, m) && n < |m.slots| == |g[t].plan| == |ns[t]|
    requires g[t].plan[n] == Row(g[t].plan[n].tag, KStr, Implicit(Str([])))
    requires m.slots[n] == OptStrSlot(Some(s)) && ns[t][n].camel == name
    requires obj == Props(g, ns, t, m, false, n)
    ensures r == Props(g, ns, t, m, false, n + 1)
  {
    StrProp(g, ns, t, m, n, Some(s), name);
    hide *;
    r := obj;
    if s != [] {
      r := r[name := JStr(s)];
    }
  }

  /** `if (x !== undefined)`: sets a string. */
  method ShowOptStr(obj: map<Name, Json>, name: Name, o: Option<bytes>, ghost g: Grammar, ghost ns: Names,
      ghost t: nat, ghost m: Msg, ghost n: nat)
    returns (r: map<Name, Json>)
    requires TablesOk(g, ns) && t < |g| && Typed(g, ns, t, m) && n < |m.slots| == |g[t].plan| == |ns[t]|
    requires g[t].plan[n] == Row(g[t].plan[n].tag, KStr, Explicit)
    requires m.slots[n] == OptStrSlot(o) && ns[t][n].camel == name
    requires obj == Props(g, ns, t, m, false, n)
    ensures r == Props(g, ns, t, m, false, n + 1)
  {
    StrProp(g, ns, t, m, n, o, name);
    hide *;
    r := obj;
    if o != None {
      r := r[name := JStr(o.value)];
    }
  }

  method CustomHttpPatternToJson(message: CustomHttpPattern) returns (j: Json)
    ensures TablesOk(HttpGrammar(), HttpNames()) && Typed(HttpGrammar(), HttpNames(), CUSTOM_HTTP_PATTERN, CustomHttpPatternMsg(message))
    ensures j == ToJson(HttpGrammar(), HttpNames(), CUSTOM_HTTP_PATTERN, CustomHttpPatternMsg(message), false)
  {
    HttpNamesOk();
    CustomTyped(message);
    CustomHttpPatternRows(message);
    ghost var g, ns, t, m := HttpGrammar(), HttpNames(), CUSTOM_HTTP_PATTERN, CustomHttpPatternMsg(message);
    assert ns[t] == [One(KindName), One(PathName)];
    NoProps(g, ns, t, m);
    hide HttpGrammar, HttpNames, TablesOk, Typed, Props, ToJson, OptStrSlot, CustomHttpPatternMsg;
    var obj: map<Name, Json> := map[];
    obj := ShowStr(obj, KindName, message.kind, g, ns, t, m, 0);
    obj := ShowStr(obj, PathName, message.path, g, ns, t, m, 1);
    return JObj(obj);
  }

  lemma HttpRuleKeys()
    ensures |HttpNames()| == 3
    ensures var names := HttpNames()[HTTP_RULE];
      && |names| == 10
      && names[0].camel == Selector
      && names[1].camel == Get
      && names[2].camel == PutName
      && names[3].camel == Post
      && names[4].camel == Delete
      && names[5].camel == Patch
      && names[6].camel == Custom
      && names[7].camel == Body
      && names[8].camel == ResponseBody
      && names[9].camel == AdditionalBindings
  {
  }

  /** `HttpRule.toJSON` up to `delete`. */
  method ShowVerbs(message: HttpRule) returns (r: map<Name, Json>)
    requires TablesOk(HttpGrammar(), HttpNames()) && Typed(HttpGrammar(), HttpNames(), HTTP_RULE, HttpRuleMsg(message))
    ensures |HttpRuleMsg(message).slots| == 10
    ensures r == Props(HttpGrammar(), HttpNames(), HTTP_RULE, HttpRuleMsg(message), false, 5)
  {
    assert HTTP_RULE < |HttpGrammar()|;
    hide *;
    HttpRuleRows(message);
    HttpRuleKeys();
    ghost var g, ns, t, m := HttpGrammar(), HttpNames(), HTTP_RULE, HttpRuleMsg(message);
    NoProps(g, ns, t, m);
    var obj: map<Name, Json> := map[];
    obj := ShowStr(obj, Selector, message.selector, g, ns, t, m, 0);
    obj := ShowOptStr(obj, Get, message.get, g, ns, t, m, 1);
    obj := ShowOptStr(obj, PutName, message.put, g, ns, t, m, 2);
    obj := ShowOptStr(obj, Post, message.post, g, ns, t, m, 3);
    obj := ShowOptStr(obj, Delete, message.delete, g, ns, t, m, 4);
    return obj;
  }

  /** The JSON form of a rule. */
  ghost predicate IsRuleJson(message: HttpRule, j: Json) {
    && TablesOk(HttpGrammar(), HttpNames())
    && Typed(HttpGrammar(), HttpNames(), HTTP_RULE, HttpRuleMsg(message))
    && j == ToJson(HttpGrammar(), HttpNames(), HTTP_RULE, HttpRuleMsg(message), false)
  }

  lemma RuleJsonIs(message: HttpRule, j: Json)
    requires TablesOk(HttpGrammar(), HttpNames()) && Typed(HttpGrammar(), HttpNames(), HTTP_RULE, HttpRuleMsg(message))
    ensures IsRuleJson(message, j) <==> j == ToJson(HttpGrammar(), HttpNames(), HTTP_RULE, HttpRuleMsg(message), false)
  {
  }

  lemma RulesJsonAre(messages: seq<HttpRule>, js: seq<Json>)
    requires |js| == |messages| && forall x | 0 <= x < |js| :: IsRuleJson(messages[x], js[x])
    requires TablesOk(HttpGrammar(), HttpNames())
    ensures forall x | 0 <= x < |js| && Typed(HttpGrammar(), HttpNames(), HTTP_RULE, HttpRuleMsgs(messages)[x]) ::
      js[x] == ToJson(HttpGrammar(), HttpNames(), HTTP_RULE, HttpRuleMsgs(messages)[x], false)
  {
    HttpRuleMsgsAre(messages);
    hide TablesOk, Typed, ToJson, HttpRuleMsg, HttpRuleMsgs, HttpGrammar, HttpNames;
  }

  /** `HttpRule.toJSON`: an object that grows property by property. */
  method HttpRuleToJson(message: HttpRule) returns (j: Json)
    ensures IsRuleJson(message, j)
    decreases message, 1
  {
    assert CUSTOM_HTTP_PATTERN < |HttpGrammar()| && HTTP_RULE < |HttpGrammar()|;
    hide *;
    HttpNamesOk();
    HttpRuleTyped(message);
    HttpRuleRows(message);
    HttpRuleKeys();
    OptCustomHttpPatternIs(message.custom);
    ghost var g, ns, t, m := HttpGrammar(), HttpNames(), HTTP_RULE, HttpRuleMsg(message);
    NoProps(g, ns, t, m);
    var obj := ShowVerbs(message);
    obj := ShowOptStr(obj, Patch, message.patch, g, ns, t, m, 5);
    OptSubProp(g, ns, t, m, 6, CUSTOM_HTTP_PATTERN, OptCustomHttpPatternMsg(message.custom), Custom);
    if message.custom != None {
      var custom := CustomHttpPatternToJson(message.custom.value);
      obj := obj[Custom := custom];
    }
    obj := ShowStr(obj, Body, message.body, g, ns, t, m, 7);
    obj := ShowStr(obj, ResponseBody, message.responseBody, g, ns, t, m, 8);
    var bindings := HttpRulesToJson(message.additionalBindings);
    RulesJsonAre(message.additionalBindings, bindings);
    SubsProp(g, ns, t, m, 9, HTTP_RULE, HttpRuleMsgs(message.additionalBindings), AdditionalBindings, bindings);
    if message.additionalBindings != [] {
      obj := obj[AdditionalBindings := JArr(bindings)];
    }
    RuleJsonIs(message, JObj(obj));
    return JObj(obj);
  }

  /** `.map((e) => HttpRule.toJSON(e))` */
  method HttpRulesToJson(messages: seq<HttpRule>) returns (js: seq<Json>)
    ensures |js| == |messages| && forall x | 0 <= x < |js| :: IsRuleJson(messages[x], js[x])
    decreases messages, 0
  {
    hide *;
    js := [];
    for i := 0 to |messages|
      invariant |js| == i && forall x | 0 <= x < i :: IsRuleJson(messages[x], js[x])
    {
      var j := HttpRuleToJson(messages[i]);
      js := js + [j];
    }
  }

  /** `User.toJSON` */
  method UserToJson(message: User) returns (j: Json)
    ensures TablesOk(AuthGrammar(), AuthNames()) && Typed(AuthGrammar(), AuthNames(), USER, UserMsg(message))
    ensures j == ToJson(AuthGrammar(), AuthNames(), USER, UserMsg(message), false)
  {
    AuthNamesOk();
    UserTyped(message);
    UserRows(message);
    ghost var g, ns, t, m := AuthGrammar(), AuthNames(), USER, UserMsg(message);
    assert ns[t] == UserNames();
    NoProps(g, ns, t, m);
    hide AuthGrammar, AuthNames, TablesOk, Typed, Props, ToJson, OptStrSlot, BoolSlot, UserMsg;
    var obj: map<Name, Json> := map[];
    obj := ShowStr(obj, Id, message.id, g, ns, t, m, 0);
    obj := ShowStr(obj, Email, message.email, g, ns, t, m, 1);
    obj := ShowStr(obj, DisplayName, message.displayName, g, ns, t, m, 2);
    obj := ShowStr(obj, Username, message.username, g, ns, t, m, 3);
    obj := ShowStr(obj, PictureUrl, message.pictureUrl, g, ns, t, m, 4);
    BoolProp(g, ns, t, m, 5, message.isAdmin, IsAdmin);
    if message.isAdmin != false {
      obj := obj[IsAdmin := JBool(message.isAdmin)];
    }
    return JObj(obj);
  }
}
