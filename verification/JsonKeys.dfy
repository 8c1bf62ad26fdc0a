/**
 `fromJSON` as `google/api/http.ts` and `auth.ts` write it, key by key, and that the tables read the same.
 */
module JsonKeys {
  import opened Wire
  import opened Codec
  import opened Fields
  import opened Json
  import opened JsonForms
  import opened HttpSchemas
  import opened HttpCodec
  import opened AuthSchemas
  import opened AuthCodec

  // ---------------------------------------------------------------- single keys

  /** `isSet(object.key)` */
  predicate Has(j: Json, key: Name) {
    j.JObj? && key in j.props && j.props[key] != Undefined && j.props[key] != Null
  }

  /** A string under either key, the first one counting, or empty. */
  function TextOf(text: Json -> bytes, j: Json, camel: Name, snake: Name): bytes {
    if Has(j, camel) then text(j.props[camel])
    else if Has(j, snake) then text(j.props[snake])
    else []
  }

  function OptTextOf(text: Json -> bytes, j: Json, key: Name): Option<bytes> {
    if Has(j, key) then Some(text(j.props[key])) else None
  }

  // What JavaScript takes for false, among the values JSON has.
  const FALSY: set<Json> := {Undefined, Null, JBool(false), JNum(0), JStr([])}

  predicate FlagOf(j: Json, camel: Name, snake: Name) {
    if Has(j, camel) then j.props[camel] !in FALSY
    else if Has(j, snake) then j.props[snake] !in FALSY
    else false
  }

  /** `Array.isArray(object?.key)` */
  predicate HasArray(j: Json, key: Name) {
    j.JObj? && key in j.props && j.props[key].JArr?
  }

  /** The list under either key, the first one counting, or empty. */
  function ItemsOf(j: Json, camel: Name, snake: Name): seq<Json> {
    if HasArray(j, camel) then j.props[camel].items
    else if HasArray(j, snake) then j.props[snake].items
    else []
  }

  // ---------------------------------------------------------------- http.ts

  function CustomHttpPatternFromJson(text: Json -> bytes, j: Json): Option<CustomHttpPattern> {
    if j == Null || j == Undefined then None
    else Some(CustomHttpPattern(TextOf(text, j, KindName, KindName), TextOf(text, j, PathName, PathName)))
  }

  function OptCustomFromJson(text: Json -> bytes, j: Json): Option<CustomHttpPattern> {
    if Has(j, Custom) then CustomHttpPatternFromJson(text, j.props[Custom]) else None
  }

  /** No result where it throws: for null and undefined, and for a list of bindings that holds one of them,
      at any depth. */
  function HttpRuleFromJson(text: Json -> bytes, j: Json): Option<HttpRule>
    decreases j, 1
  {
    if j == Null || j == Undefined then None
    else
      var bindings :=
        if HasArray(j, AdditionalBindings) then HttpRulesFromJson(text, j.props[AdditionalBindings].items)
        else if HasArray(j, Additional_bindings) then HttpRulesFromJson(text, j.props[Additional_bindings].items)
        else Some([]);
      if bindings == None then None
      else Some(HttpRule(
        TextOf(text, j, Selector, Selector),
        OptTextOf(text, j, Get),
        OptTextOf(text, j, PutName),
        OptTextOf(text, j, Post),
        OptTextOf(text, j, Delete),
        OptTextOf(text, j, Patch),
        OptCustomFromJson(text, j),
        TextOf(text, j, Body, Body),
        TextOf(text, j, ResponseBody, Response_body),
        bindings.value))
  }

  function HttpRulesFromJson(text: Json -> bytes, items: seq<Json>): Option<seq<HttpRule>>
    decreases items, 0
  {
    if items == [] then Some([])
    else
      var first, rest := HttpRuleFromJson(text, items[0]), HttpRulesFromJson(text, items[1..]);
      if first == None || rest == None then None else Some([first.value] + rest.value)
  }

  function HttpFromJson(text: Json -> bytes, j: Json): Option<Http> {
    if j == Null || j == Undefined then None
    else
      var rules := HttpRulesFromJson(text, ItemsOf(j, Rules, Rules));
      if rules == None then None
      else Some(Http(rules.value, FlagOf(j, FullyDecodeReservedExpansion, Fully_decode_reserved_expansion)))
  }

  // ---------------------------------------------------------------- auth.ts

  function UserFromJson(text: Json -> bytes, j: Json): Option<User> {
    if j == Null || j == Undefined then None
    else Some(User(
      TextOf(text, j, Id, Id),
      TextOf(text, j, Email, Email),
      TextOf(text, j, DisplayName, Display_name),
      TextOf(text, j, Username, Username),
      TextOf(text, j, PictureUrl, Picture_url),
      FlagOf(j, IsAdmin, Is_admin)))
  }

  function SessionResponseFromJson(text: Json -> bytes, j: Json): Option<SessionResponse> {
    if j == Null || j == Undefined then None
    else Some(SessionResponse(
      TextOf(text, j, Jwt, Jwt),
      if Has(j, UserName) then UserFromJson(text, j.props[UserName]) else None))
  }

  function UsersFromJson(text: Json -> bytes, items: seq<Json>): Option<seq<User>> {
    if items == [] then Some([])
    else
      var first, rest := UserFromJson(text, items[0]), UsersFromJson(text, items[1..]);
      if first == None || rest == None then None else Some([first.value] + rest.value)
  }

  /** Takes null and undefined for an empty list. */
  function ListUsersResponseFromJson(text: Json -> bytes, j: Json): Option<ListUsersResponse> {
    var users := UsersFromJson(text, ItemsOf(j, Users, Users));
    if users == None then None else Some(ListUsersResponse(users.value))
  }

  // ---------------------------------------------------------------- one property of the tables

  lemma StrProperty(g: Grammar, ns: Names, text: Json -> bytes, t: nat, j: Json, i: nat, camel: Name, snake: Name)
    requires TablesOk(g, ns) && t < |g| && i < |g[t].plan| == |ns[t]| && j != Null && j != Undefined
    requires g[t].plan[i].kind == KStr && g[t].plan[i].rule == Implicit(Str([])) && ns[t][i] == Spelling(camel, snake)
    ensures FromProperty(g, ns, text, t, j, i) == Some(OptStrSlot(Some(TextOf(text, j, camel, snake))))
  {
    hide TablesOk;
  }

  lemma OptStrProperty(g: Grammar, ns: Names, text: Json -> bytes, t: nat, j: Json, i: nat, key: Name)
    requires TablesOk(g, ns) && t < |g| && i < |g[t].plan| == |ns[t]| && j != Null && j != Undefined
    requires g[t].plan[i].kind == KStr && g[t].plan[i].rule == Explicit && ns[t][i] == Spelling(key, key)
    ensures FromProperty(g, ns, text, t, j, i) == Some(OptStrSlot(OptTextOf(text, j, key)))
  {
    hide TablesOk;
  }

  lemma TruthIs(j: Json)
    ensures Truth(j) <==> j !in FALSY
  {
  }

  lemma BoolProperty(g: Grammar, ns: Names, text: Json -> bytes, t: nat, j: Json, i: nat, camel: Name, snake: Name)
    requires TablesOk(g, ns) && t < |g| && i < |g[t].plan| == |ns[t]| && j != Null && j != Undefined
    requires g[t].plan[i].kind == KBool && g[t].plan[i].rule == Implicit(Bool(false)) && ns[t][i] == Spelling(camel, snake)
    ensures FromProperty(g, ns, text, t, j, i) == Some(BoolSlot(FlagOf(j, camel, snake)))
  {
    if Has(j, camel) {
      TruthIs(j.props[camel]);
    } else if Has(j, snake) {
      TruthIs(j.props[snake]);
    }
    hide TablesOk, Truth, FALSY;
  }

  /** A sub-message that reads as `o`. */
  lemma SubProperty(g: Grammar, ns: Names, text: Json -> bytes, t: nat, j: Json, i: nat, key: Name, s: nat, o: Option<Msg>)
    requires TablesOk(g, ns) && t < |g| && i < |g[t].plan| == |ns[t]| && s < |g| && j != Null && j != Undefined
    requires g[t].plan[i].kind == KMsg(s) && g[t].plan[i].rule == Explicit && ns[t][i] == Spelling(key, key)
    requires o.Some? == Has(j, key) && (o.Some? ==> FromJson(g, ns, text, s, j.props[key]) == o)
    ensures FromProperty(g, ns, text, t, j, i) == Some(OptSubSlot(o))
  {
    hide TablesOk, FromJson;
  }

  /** A list of sub-messages that read as `ms`, or one of which throws. */
  lemma SubsProperty(g: Grammar, ns: Names, text: Json -> bytes, t: nat, j: Json, i: nat, camel: Name, snake: Name, s: nat,
      items: seq<Json>, ms: Option<seq<Msg>>)
    requires TablesOk(g, ns) && t < |g| && i < |g[t].plan| == |ns[t]| && s < |g|
    requires g[t].plan[i].kind == KMsg(s) && g[t].plan[i].rule == Repeated && ns[t][i] == Spelling(camel, snake)
    requires items == ItemsOf(j, camel, snake)
    requires FromItems(g, ns, text, KMsg(s), items) == if ms.None? then None else Some(SubsSlot(ms.value).vals)
    ensures FromProperty(g, ns, text, t, j, i) == if ms.None? then None else Some(SubsSlot(ms.value))
  {
    hide TablesOk;
    if items == [] {
      assert FromItems(g, ns, text, KMsg(s), items) == Some([]);
      assert ms.Some? && SubsSlot(ms.value).vals == [];
    }
    hide FromItems, SubsSlot;
  }

  // ---------------------------------------------------------------- all properties

  lemma NoPropertiesYet(g: Grammar, ns: Names, text: Json -> bytes, t: nat, j: Json)
    requires TablesOk(g, ns) && t < |g|
    ensures FromProperties(g, ns, text, t, j, 0) == Some([])
  {
  }

  lemma NextProperty(g: Grammar, ns: Names, text: Json -> bytes, t: nat, j: Json, n: nat, slots: seq<Slot>, slot: Slot)
    requires TablesOk(g, ns) && t < |g| && n < |g[t].plan|
    requires FromProperties(g, ns, text, t, j, n) == Some(slots) && FromProperty(g, ns, text, t, j, n) == Some(slot)
    ensures FromProperties(g, ns, text, t, j, n + 1) == Some(slots + [slot])
  {
    hide TablesOk, FromProperty;
  }

  lemma {:induction false} Throws(g: Grammar, ns: Names, text: Json -> bytes, t: nat, j: Json, i: nat, n: nat)
    requires TablesOk(g, ns) && t < |g| && i < n <= |g[t].plan| && FromProperty(g, ns, text, t, j, i) == None
    ensures FromProperties(g, ns, text, t, j, n) == None
    decreases n
  {
    if i < n - 1 {
      Throws(g, ns, text, t, j, i, n - 1);
    }
  }

  lemma AllProperties(g: Grammar, ns: Names, text: Json -> bytes, t: nat, j: Json, m: Msg)
    requires TablesOk(g, ns) && t < |g| && |m.slots| == |g[t].plan|
    requires FromProperties(g, ns, text, t, j, |m.slots|) == Some(m.slots)
    ensures FromJson(g, ns, text, t, j) == Some(m)
  {
  }

  lemma NullThrows(g: Grammar, ns: Names, text: Json -> bytes, t: nat, j: Json, i: nat)
    requires TablesOk(g, ns) && t < |g| && i < |g[t].plan| && !Lists(g[t].plan[i].rule) && (j == Null || j == Undefined)
    ensures FromJson(g, ns, text, t, j) == None
  {
    assert FromProperty(g, ns, text, t, j, i) == None;
    Throws(g, ns, text, t, j, i, |g[t].plan|);
  }

  lemma NextStr(g: Grammar, ns: Names, text: Json -> bytes, t: nat, j: Json, n: nat, slots: seq<Slot>, camel: Name, snake: Name)
    requires TablesOk(g, ns) && t < |g| && n < |g[t].plan| == |ns[t]| && j != Null && j != Undefined
    requires g[t].plan[n].kind == KStr && g[t].plan[n].rule == Implicit(Str([])) && ns[t][n] == Spelling(camel, snake)
    requires FromProperties(g, ns, text, t, j, n) == Some(slots)
    ensures FromProperties(g, ns, text, t, j, n + 1) == Some(slots + [OptStrSlot(Some(TextOf(text, j, camel, snake)))])
  {
    hide *;
    StrProperty(g, ns, text, t, j, n, camel, snake);
    NextProperty(g, ns, text, t, j, n, slots, OptStrSlot(Some(TextOf(text, j, camel, snake))));
  }

  lemma NextOptStr(g: Grammar, ns: Names, text: Json -> bytes, t: nat, j: Json, n: nat, slots: seq<Slot>, key: Name)
    requires TablesOk(g, ns) && t < |g| && n < |g[t].plan| == |ns[t]| && j != Null && j != Undefined
    requires g[t].plan[n].kind == KStr && g[t].plan[n].rule == Explicit && ns[t][n] == Spelling(key, key)
    requires FromProperties(g, ns, text, t, j, n) == Some(slots)
    ensures FromProperties(g, ns, text, t, j, n + 1) == Some(slots + [OptStrSlot(OptTextOf(text, j, key))])
  {
    hide *;
    OptStrProperty(g, ns, text, t, j, n, key);
    NextProperty(g, ns, text, t, j, n, slots, OptStrSlot(OptTextOf(text, j, key)));
  }

  lemma NextBool(g: Grammar, ns: Names, text: Json -> bytes, t: nat, j: Json, n: nat, slots: seq<Slot>, camel: Name, snake: Name)
    requires TablesOk(g, ns) && t < |g| && n < |g[t].plan| == |ns[t]| && j != Null && j != Undefined
    requires g[t].plan[n].kind == KBool && g[t].plan[n].rule == Implicit(Bool(false)) && ns[t][n] == Spelling(camel, snake)
    requires FromProperties(g, ns, text, t, j, n) == Some(slots)
    ensures FromProperties(g, ns, text, t, j, n + 1) == Some(slots + [BoolSlot(FlagOf(j, camel, snake))])
  {
    hide *;
    BoolProperty(g, ns, text, t, j, n, camel, snake);
    NextProperty(g, ns, text, t, j, n, slots, BoolSlot(FlagOf(j, camel, snake)));
  }

  lemma NextSub(g: Grammar, ns: Names, text: Json -> bytes, t: nat, j: Json, n: nat, slots: seq<Slot>, key: Name, s: nat,
      o: Option<Msg>)
    requires TablesOk(g, ns) && t < |g| && n < |g[t].plan| == |ns[t]| && s < |g| && j != Null && j != Undefined
    requires g[t].plan[n].kind == KMsg(s) && g[t].plan[n].rule == Explicit && ns[t][n] == Spelling(key, key)
    requires o.Some? == Has(j, key) && (Has(j, key) ==> FromJson(g, ns, text, s, j.props[key]) == o)
    requires FromProperties(g, ns, text, t, j, n) == Some(slots)
    ensures FromProperties(g, ns, text, t, j, n + 1) == Some(slots + [OptSubSlot(o)])
  {
    SubProperty(g, ns, text, t, j, n, key, s, o);
    hide TablesOk, FromJson, FromProperties, FromProperty, OptSubSlot;
    NextProperty(g, ns, text, t, j, n, slots, OptSubSlot(o));
  }

  lemma NextSubs(g: Grammar, ns: Names, text: Json -> bytes, t: nat, j: Json, n: nat, slots: seq<Slot>, camel: Name, snake: Name,
      s: nat, items: seq<Json>, ms: seq<Msg>)
    requires TablesOk(g, ns) && t < |g| && n < |g[t].plan| == |ns[t]| && s < |g|
    requires g[t].plan[n].kind == KMsg(s) && g[t].plan[n].rule == Repeated && ns[t][n] == Spelling(camel, snake)
    requires items == ItemsOf(j, camel, snake)
    requires FromItems(g, ns, text, KMsg(s), items) == Some(SubsSlot(ms).vals)
    requires FromProperties(g, ns, text, t, j, n) == Some(slots)
    ensures FromProperties(g, ns, text, t, j, n + 1) == Some(slots + [SubsSlot(ms)])
  {
    SubsProperty(g, ns, text, t, j, n, camel, snake, s, items, Some(ms));
    hide *;
    NextProperty(g, ns, text, t, j, n, slots, SubsSlot(ms));
  }

  // ---------------------------------------------------------------- auth.ts read by the tables

  lemma UserKeys()
    ensures |AuthNames()| == |AuthGrammar()| && USER < |AuthGrammar()|
    ensures AuthNames()[USER]
      == [Spelling(Id, Id), Spelling(Email, Email), Spelling(DisplayName, Display_name), Spelling(Username, Username),
          Spelling(PictureUrl, Picture_url), Spelling(IsAdmin, Is_admin)]
  {
    hide GrammarOk;
  }

  lemma UserSlots(m: User)
    ensures UserMsg(m).slots
      == [] + [OptStrSlot(Some(m.id))] + [OptStrSlot(Some(m.email))] + [OptStrSlot(Some(m.displayName))]
         + [OptStrSlot(Some(m.username))] + [OptStrSlot(Some(m.pictureUrl))] + [BoolSlot(m.isAdmin)]
  {
  }

  lemma UserOf(text: Json -> bytes, j: Json)
    requires j != Null && j != Undefined
    ensures UserFromJson(text, j) == Some(User(TextOf(text, j, Id, Id), TextOf(text, j, Email, Email),
      TextOf(text, j, DisplayName, Display_name), TextOf(text, j, Username, Username),
      TextOf(text, j, PictureUrl, Picture_url), FlagOf(j, IsAdmin, Is_admin)))
  {
  }

  lemma UserFails(text: Json -> bytes, j: Json)
    requires j == Null || j == Undefined
    ensures UserFromJson(text, j) == None && TablesOk(AuthGrammar(), AuthNames())
    ensures FromJson(AuthGrammar(), AuthNames(), text, USER, j) == None
  {
    AuthNamesOk();
    UserRows(CreateBaseUser());
    hide AuthGrammar, AuthNames, TablesOk, FromJson;
    NullThrows(AuthGrammar(), AuthNames(), text, USER, j, 0);
  }

  lemma UserSucceeds(text: Json -> bytes, j: Json, u: User)
    requires UserFromJson(text, j) == Some(u) && j != Null && j != Undefined
    ensures TablesOk(AuthGrammar(), AuthNames())
    ensures FromJson(AuthGrammar(), AuthNames(), text, USER, j) == Some(UserMsg(u))
  {
    hide *;
    AuthNamesOk();
    UserRows(u);
    UserKeys();
    UserSlots(u);
    UserOf(text, j);
    var g, ns, t := AuthGrammar(), AuthNames(), USER;
    NoPropertiesYet(g, ns, text, t, j);
    var s0 := [] + [OptStrSlot(Some(u.id))];
    NextStr(g, ns, text, t, j, 0, [], Id, Id);
    var s1 := s0 + [OptStrSlot(Some(u.email))];
    NextStr(g, ns, text, t, j, 1, s0, Email, Email);
    var s2 := s1 + [OptStrSlot(Some(u.displayName))];
    NextStr(g, ns, text, t, j, 2, s1, DisplayName, Display_name);
    var s3 := s2 + [OptStrSlot(Some(u.username))];
    NextStr(g, ns, text, t, j, 3, s2, Username, Username);
    var s4 := s3 + [OptStrSlot(Some(u.pictureUrl))];
    NextStr(g, ns, text, t, j, 4, s3, PictureUrl, Picture_url);
    NextBool(g, ns, text, t, j, 5, s4, IsAdmin, Is_admin);
    AllProperties(g, ns, text, t, j, UserMsg(u));
  }

  /** `User.fromJSON` reads what the code reads, and throws when it does. */
  lemma UserReads(text: Json -> bytes, j: Json)
    ensures TablesOk(AuthGrammar(), AuthNames())
    ensures FromJson(AuthGrammar(), AuthNames(), text, USER, j)
      == match UserFromJson(text, j) case None => None case Some(u) => Some(UserMsg(u))
  {
    AuthNamesOk();
    hide AuthGrammar, AuthNames, TablesOk, FromJson, UserMsg;
    if j == Null || j == Undefined {
      UserFails(text, j);
    } else {
      UserSucceeds(text, j, UserFromJson(text, j).value);
    }
  }

  // ---------------------------------------------------------------- the other messages of auth.ts

  lemma SessionResponseKeys()
    ensures |AuthNames()| == |AuthGrammar()| && SESSION_RESPONSE < |AuthGrammar()| && USER < |AuthGrammar()|
    ensures AuthNames()[SESSION_RESPONSE] == [Spelling(Jwt, Jwt), Spelling(UserName, UserName)]
  {
    hide GrammarOk;
  }

  lemma SessionResponseSlots(m: SessionResponse)
    ensures SessionResponseMsg(m).slots == [] + [OptStrSlot(Some(m.jwt))] + [OptSubSlot(OptUserMsg(m.user))]
  {
  }

  lemma SessionResponseOf(text: Json -> bytes, j: Json)
    requires j != Null && j != Undefined
    ensures SessionResponseFromJson(text, j) == Some(SessionResponse(TextOf(text, j, Jwt, Jwt),
      if Has(j, UserName) then UserFromJson(text, j.props[UserName]) else None))
    ensures Has(j, UserName) ==> UserFromJson(text, j.props[UserName]).Some?
  {
  }

  /** `SessionResponse.fromJSON` reads what the code reads. */
  lemma SessionResponseReads(text: Json -> bytes, j: Json)
    ensures TablesOk(AuthGrammar(), AuthNames())
    ensures FromJson(AuthGrammar(), AuthNames(), text, SESSION_RESPONSE, j)
      == match SessionResponseFromJson(text, j) case None => None case Some(m) => Some(SessionResponseMsg(m))
  {
    AuthNamesOk();
    hide AuthGrammar, AuthNames, TablesOk, FromJson, SessionResponseMsg, UserFromJson, UserMsg;
    if j == Null || j == Undefined {
      SessionResponseFails(text, j);
    } else {
      SessionResponseSucceeds(text, j, SessionResponseFromJson(text, j).value);
    }
  }

  lemma SessionResponseFails(text: Json -> bytes, j: Json)
    requires j == Null || j == Undefined
    ensures TablesOk(AuthGrammar(), AuthNames())
    ensures FromJson(AuthGrammar(), AuthNames(), text, SESSION_RESPONSE, j) == None
  {
    AuthNamesOk();
    SessionResponseRows(CreateBaseSessionResponse());
    hide AuthGrammar, AuthNames, TablesOk, FromJson;
    NullThrows(AuthGrammar(), AuthNames(), text, SESSION_RESPONSE, j, 0);
  }

  lemma UserPropertyOf(text: Json -> bytes, j: Json)
    ensures TablesOk(AuthGrammar(), AuthNames()) && USER < |AuthGrammar()|
    ensures var o := OptUserMsg(if Has(j, UserName) then UserFromJson(text, j.props[UserName]) else None);
      && o.Some? == Has(j, UserName)
      && (Has(j, UserName) ==> FromJson(AuthGrammar(), AuthNames(), text, USER, j.props[UserName]) == o)
  {
    AuthNamesOk();
    hide AuthGrammar, AuthNames, TablesOk, FromJson, UserMsg;
    if Has(j, UserName) {
      UserReads(text, j.props[UserName]);
    }
  }

  lemma SessionResponseSucceeds(text: Json -> bytes, j: Json, m: SessionResponse)
    requires SessionResponseFromJson(text, j) == Some(m) && j != Null && j != Undefined
    ensures TablesOk(AuthGrammar(), AuthNames())
    ensures FromJson(AuthGrammar(), AuthNames(), text, SESSION_RESPONSE, j) == Some(SessionResponseMsg(m))
  {
    hide *;
    AuthNamesOk();
    SessionResponseRows(m);
    SessionResponseKeys();
    SessionResponseSlots(m);
    SessionResponseOf(text, j);
    UserPropertyOf(text, j);
    var g, ns, t := AuthGrammar(), AuthNames(), SESSION_RESPONSE;
    NoPropertiesYet(g, ns, text, t, j);
    NextStr(g, ns, text, t, j, 0, [], Jwt, Jwt);
    NextSub(g, ns, text, t, j, 1, [] + [OptStrSlot(Some(m.jwt))], UserName, USER, OptUserMsg(m.user));
    AllProperties(g, ns, text, t, j, SessionResponseMsg(m));
  }

  lemma FromItemsStep(g: Grammar, ns: Names, text: Json -> bytes, s: nat, items: seq<Json>)
    requires TablesOk(g, ns) && s < |g|
    ensures items == [] ==> FromItems(g, ns, text, KMsg(s), items) == Some([])
    ensures items != [] ==>
      var first, rest := FromJson(g, ns, text, s, items[0]), FromItems(g, ns, text, KMsg(s), items[1..]);
      FromItems(g, ns, text, KMsg(s), items)
        == if first == None || rest == None then None else Some([Sub(first.value)] + rest.value)
  {
    hide TablesOk, FromJson;
  }

  lemma UserMsgsCons(u: User, us: seq<User>)
    ensures SubsSlot(UserMsgs([u] + us)).vals == [Sub(UserMsg(u))] + SubsSlot(UserMsgs(us)).vals
    ensures SubsSlot(UserMsgs([])).vals == []
  {
    hide UserMsg;
  }

  lemma {:induction false} UsersRead(text: Json -> bytes, items: seq<Json>)
    ensures TablesOk(AuthGrammar(), AuthNames()) && USER < |AuthGrammar()|
    ensures FromItems(AuthGrammar(), AuthNames(), text, KMsg(USER), items)
      == match UsersFromJson(text, items) case None => None case Some(us) => Some(SubsSlot(UserMsgs(us)).vals)
    decreases |items|
  {
    AuthNamesOk();
    hide AuthGrammar, AuthNames, TablesOk, FromJson, FromItems, UserMsg, UserFromJson, UserMsgs, SubsSlot;
    FromItemsStep(AuthGrammar(), AuthNames(), text, USER, items);
    if items == [] {
      UserMsgsCons(CreateBaseUser(), []);
    } else {
      UserReads(text, items[0]);
      UsersRead(text, items[1..]);
      if UsersFromJson(text, items).Some? {
        UserMsgsCons(UserFromJson(text, items[0]).value, UsersFromJson(text, items[1..]).value);
      }
    }
  }

  lemma ListUsersResponseKeys()
    ensures |AuthNames()| == |AuthGrammar()| && LIST_USERS_RESPONSE < |AuthGrammar()| && USER < |AuthGrammar()|
    ensures AuthNames()[LIST_USERS_RESPONSE] == [Spelling(Users, Users)]
  {
    hide GrammarOk;
  }

  /** `ListUsersResponse.fromJSON` reads what the code reads, an empty list from null too. */
  lemma ListUsersResponseReads(text: Json -> bytes, j: Json)
    ensures TablesOk(AuthGrammar(), AuthNames())
    ensures FromJson(AuthGrammar(), AuthNames(), text, LIST_USERS_RESPONSE, j)
      == match ListUsersResponseFromJson(text, j) case None => None case Some(m) => Some(ListUsersResponseMsg(m))
  {
    AuthNamesOk();
    var g, ns, t := AuthGrammar(), AuthNames(), LIST_USERS_RESPONSE;
    var items := ItemsOf(j, Users, Users);
    var users := UsersFromJson(text, items);
    ListUsersResponseRows(ListUsersResponse(if users.Some? then users.value else []));
    ListUsersResponseKeys();
    UsersRead(text, items);
    hide AuthGrammar, AuthNames, TablesOk, FromJson, FromItems, FromProperties, FromProperty, UserMsgs, SubsSlot, UsersFromJson, ItemsOf;
    if users == None {
      SubsProperty(g, ns, text, t, j, 0, Users, Users, USER, items, None);
      ListThrows(g, ns, text, t, j, 0);
    } else {
      var m := ListUsersResponse(users.value);
      NoPropertiesYet(g, ns, text, t, j);
      NextSubs(g, ns, text, t, j, 0, [], Users, Users, USER, items, UserMsgs(m.users));
      assert ListUsersResponseMsg(m).slots == [] + [SubsSlot(UserMsgs(m.users))];
      AllProperties(g, ns, text, t, j, ListUsersResponseMsg(m));
    }
  }

  lemma ListThrows(g: Grammar, ns: Names, text: Json -> bytes, t: nat, j: Json, i: nat)
    requires TablesOk(g, ns) && t < |g| && i < |g[t].plan| && FromProperty(g, ns, text, t, j, i) == None
    ensures FromJson(g, ns, text, t, j) == None
  {
    Throws(g, ns, text, t, j, i, |g[t].plan|);
  }

  // ---------------------------------------------------------------- http.ts read by the tables

  lemma CustomHttpPatternKeys()
    ensures |HttpNames()| == |HttpGrammar()| && CUSTOM_HTTP_PATTERN < |HttpGrammar()|
    ensures HttpNames()[CUSTOM_HTTP_PATTERN] == [Spelling(KindName, KindName), Spelling(PathName, PathName)]
  {
    hide GrammarOk;
  }

  lemma CustomHttpPatternSlots(m: CustomHttpPattern)
    ensures CustomHttpPatternMsg(m).slots == [] + [OptStrSlot(Some(m.kind))] + [OptStrSlot(Some(m.path))]
  {
  }

  /** `CustomHttpPattern.fromJSON` reads what the code reads. */
  lemma CustomHttpPatternReads(text: Json -> bytes, j: Json)
    ensures TablesOk(HttpGrammar(), HttpNames())
    ensures FromJson(HttpGrammar(), HttpNames(), text, CUSTOM_HTTP_PATTERN, j)
      == match CustomHttpPatternFromJson(text, j) case None => None case Some(m) => Some(CustomHttpPatternMsg(m))
  {
    HttpNamesOk();
    var g, ns, t := HttpGrammar(), HttpNames(), CUSTOM_HTTP_PATTERN;
    var typed := CustomHttpPatternFromJson(text, j);
    var m := if typed.Some? then typed.value else CreateBaseCustomHttpPattern();
    CustomHttpPatternRows(m);
    CustomHttpPatternKeys();
    CustomHttpPatternSlots(m);
    hide HttpGrammar, HttpNames, TablesOk, FromJson, FromProperties, FromProperty, CustomHttpPatternMsg, OptStrSlot, TextOf;
    if j == Null || j == Undefined {
      NullThrows(g, ns, text, t, j, 0);
    } else {
      NoPropertiesYet(g, ns, text, t, j);
      NextStr(g, ns, text, t, j, 0, [], KindName, KindName);
      NextStr(g, ns, text, t, j, 1, [] + [OptStrSlot(Some(m.kind))], PathName, PathName);
      AllProperties(g, ns, text, t, j, CustomHttpPatternMsg(m));
    }
  }

  lemma HttpRuleKeysAre()
    ensures |HttpNames()| == |HttpGrammar()| && HTTP_RULE < |HttpGrammar()| && CUSTOM_HTTP_PATTERN < |HttpGrammar()|
    ensures HttpNames()[HTTP_RULE]
      == [Spelling(Selector, Selector), Spelling(Get, Get), Spelling(PutName, PutName), Spelling(Post, Post),
          Spelling(Delete, Delete), Spelling(Patch, Patch), Spelling(Custom, Custom), Spelling(Body, Body),
          Spelling(ResponseBody, Response_body), Spelling(AdditionalBindings, Additional_bindings)]
  {
    hide GrammarOk;
  }

  lemma HttpRuleSlots(m: HttpRule)
    ensures HttpRuleMsg(m).slots
      == [] + [OptStrSlot(Some(m.selector))] + [OptStrSlot(m.get)] + [OptStrSlot(m.put)] + [OptStrSlot(m.post)]
         + [OptStrSlot(m.delete)] + [OptStrSlot(m.patch)] + [OptSubSlot(OptCustomHttpPatternMsg(m.custom))]
         + [OptStrSlot(Some(m.body))] + [OptStrSlot(Some(m.responseBody))] + [SubsSlot(HttpRuleMsgs(m.additionalBindings))]
  {
    hide OptStrSlot, OptSubSlot, SubsSlot, HttpRuleMsgs;
  }

  lemma HttpRuleOf(text: Json -> bytes, j: Json)
    requires j != Null && j != Undefined
    ensures var bindings := HttpRulesFromJson(text, ItemsOf(j, AdditionalBindings, Additional_bindings));
      HttpRuleFromJson(text, j) == if bindings == None then None else Some(HttpRule(
        TextOf(text, j, Selector, Selector), OptTextOf(text, j, Get), OptTextOf(text, j, PutName), OptTextOf(text, j, Post),
        OptTextOf(text, j, Delete), OptTextOf(text, j, Patch), OptCustomFromJson(text, j), TextOf(text, j, Body, Body),
        TextOf(text, j, ResponseBody, Response_body), bindings.value))
    ensures HttpRulesFromJson(text, []) == Some([])
  {
    hide TextOf, OptTextOf, OptCustomFromJson;
    assert HttpRulesFromJson(text, []) == Some([]);
  }

  lemma CustomOf(text: Json -> bytes, j: Json)
    ensures TablesOk(HttpGrammar(), HttpNames()) && CUSTOM_HTTP_PATTERN < |HttpGrammar()|
    ensures var o := OptCustomHttpPatternMsg(OptCustomFromJson(text, j));
      && o.Some? == Has(j, Custom)
      && (Has(j, Custom) ==> FromJson(HttpGrammar(), HttpNames(), text, CUSTOM_HTTP_PATTERN, j.props[Custom]) == o)
  {
    HttpNamesOk();
    hide HttpGrammar, HttpNames, TablesOk, FromJson;
    if Has(j, Custom) {
      CustomHttpPatternReads(text, j.props[Custom]);
    }
  }

  /** `HttpRule.fromJSON` reads what the code reads, at every depth, and throws when it does. */
  lemma {:induction false} HttpRuleReads(text: Json -> bytes, j: Json)
    ensures TablesOk(HttpGrammar(), HttpNames())
    ensures FromJson(HttpGrammar(), HttpNames(), text, HTTP_RULE, j)
      == match HttpRuleFromJson(text, j) case None => None case Some(m) => Some(HttpRuleMsg(m))
    decreases j, 2
  {
    HttpNamesOk();
    var items := ItemsOf(j, AdditionalBindings, Additional_bindings);
    HttpRuleRows(CreateBaseHttpRule());
    HttpRuleKeysAre();
    if j == Null || j == Undefined {
      hide HttpGrammar, HttpNames, TablesOk, FromJson;
      NullThrows(HttpGrammar(), HttpNames(), text, HTTP_RULE, j, 0);
    } else {
      HttpRuleOf(text, j);
      if HasArray(j, AdditionalBindings) || HasArray(j, Additional_bindings) {
        HttpRulesRead(text, items);
      } else {
        FromItemsStep(HttpGrammar(), HttpNames(), text, HTTP_RULE, items);
        HttpRuleMsgsCons(CreateBaseHttpRule(), []);
      }
      hide *;
      if HttpRulesFromJson(text, items) == None {
        SubsProperty(HttpGrammar(), HttpNames(), text, HTTP_RULE, j, 9, AdditionalBindings, Additional_bindings, HTTP_RULE, items, None);
        ListThrows(HttpGrammar(), HttpNames(), text, HTTP_RULE, j, 9);
      } else {
        HttpRuleSucceeds(text, j, HttpRuleFromJson(text, j).value, items);
      }
    }
  }

  lemma HttpRuleSucceeds(text: Json -> bytes, j: Json, m: HttpRule, items: seq<Json>)
    requires HttpRuleFromJson(text, j) == Some(m) && j != Null && j != Undefined
    requires items == ItemsOf(j, AdditionalBindings, Additional_bindings) && HttpRulesFromJson(text, items).Some?
    requires TablesOk(HttpGrammar(), HttpNames()) && HTTP_RULE < |HttpGrammar()|
    requires FromItems(HttpGrammar(), HttpNames(), text, KMsg(HTTP_RULE), items)
      == Some(SubsSlot(HttpRuleMsgs(HttpRulesFromJson(text, items).value)).vals)
    ensures FromJson(HttpGrammar(), HttpNames(), text, HTTP_RULE, j) == Some(HttpRuleMsg(m))
  {
    hide *;
    HttpRuleRows(m);
    HttpRuleKeysAre();
    HttpRuleSlots(m);
    HttpRuleOf(text, j);
    CustomOf(text, j);
    var g, ns, t := HttpGrammar(), HttpNames(), HTTP_RULE;
    NoPropertiesYet(g, ns, text, t, j);
    var s0 := [] + [OptStrSlot(Some(m.selector))];
    NextStr(g, ns, text, t, j, 0, [], Selector, Selector);
    var s1 := s0 + [OptStrSlot(m.get)];
    NextOptStr(g, ns, text, t, j, 1, s0, Get);
    var s2 := s1 + [OptStrSlot(m.put)];
    NextOptStr(g, ns, text, t, j, 2, s1, PutName);
    var s3 := s2 + [OptStrSlot(m.post)];
    NextOptStr(g, ns, text, t, j, 3, s2, Post);
    var s4 := s3 + [OptStrSlot(m.delete)];
    NextOptStr(g, ns, text, t, j, 4, s3, Delete);
    var s5 := s4 + [OptStrSlot(m.patch)];
    NextOptStr(g, ns, text, t, j, 5, s4, Patch);
    var s6 := s5 + [OptSubSlot(OptCustomHttpPatternMsg(m.custom))];
    NextSub(g, ns, text, t, j, 6, s5, Custom, CUSTOM_HTTP_PATTERN, OptCustomHttpPatternMsg(m.custom));
    var s7 := s6 + [OptStrSlot(Some(m.body))];
    NextStr(g, ns, text, t, j, 7, s6, Body, Body);
    var s8 := s7 + [OptStrSlot(Some(m.responseBody))];
    NextStr(g, ns, text, t, j, 8, s7, ResponseBody, Response_body);
    NextSubs(g, ns, text, t, j, 9, s8, AdditionalBindings, Additional_bindings, HTTP_RULE, items,
      HttpRuleMsgs(m.additionalBindings));
    AllProperties(g, ns, text, t, j, HttpRuleMsg(m));
  }

  lemma HttpRuleMsgsCons(m: HttpRule, ms: seq<HttpRule>)
    ensures SubsSlot(HttpRuleMsgs([m] + ms)).vals == [Sub(HttpRuleMsg(m))] + SubsSlot(HttpRuleMsgs(ms)).vals
    ensures SubsSlot(HttpRuleMsgs([])).vals == []
  {
    hide HttpRuleMsg;
  }

  lemma {:induction false} HttpRulesRead(text: Json -> bytes, items: seq<Json>)
    ensures TablesOk(HttpGrammar(), HttpNames()) && HTTP_RULE < |HttpGrammar()|
    ensures FromItems(HttpGrammar(), HttpNames(), text, KMsg(HTTP_RULE), items)
      == match HttpRulesFromJson(text, items) case None => None case Some(ms) => Some(SubsSlot(HttpRuleMsgs(ms)).vals)
    decreases items, 0
  {
    HttpNamesOk();
    hide HttpGrammar, HttpNames, TablesOk, FromJson, FromItems, HttpRuleMsg, HttpRuleFromJson, HttpRuleMsgs, SubsSlot;
    FromItemsStep(HttpGrammar(), HttpNames(), text, HTTP_RULE, items);
    if items == [] {
      HttpRuleMsgsCons(CreateBaseHttpRule(), []);
    } else {
      HttpRuleReads(text, items[0]);
      HttpRulesRead(text, items[1..]);
      if HttpRulesFromJson(text, items).Some? {
        HttpRuleMsgsCons(HttpRuleFromJson(text, items[0]).value, HttpRulesFromJson(text, items[1..]).value);
      }
    }
  }

  lemma HttpKeys()
    ensures |HttpNames()| == |HttpGrammar()| && HTTP < |HttpGrammar()| && HTTP_RULE < |HttpGrammar()|
    ensures HttpNames()[HTTP]
      == [Spelling(Rules, Rules), Spelling(FullyDecodeReservedExpansion, Fully_decode_reserved_expansion)]
  {
    hide GrammarOk;
  }

  lemma HttpSlots(m: Http)
    ensures HttpMsg(m).slots == [] + [SubsSlot(HttpRuleMsgs(m.rules))] + [BoolSlot(m.fullyDecodeReservedExpansion)]
  {
  }

  lemma HttpOf(text: Json -> bytes, j: Json)
    ensures var rules := HttpRulesFromJson(text, ItemsOf(j, Rules, Rules));
      HttpFromJson(text, j) == if j == Null || j == Undefined || rules == None then None
        else Some(Http(rules.value, FlagOf(j, FullyDecodeReservedExpansion, Fully_decode_reserved_expansion)))
  {
    hide HttpRulesFromJson, FlagOf, ItemsOf;
  }

  /** `Http.fromJSON` reads what the code reads. */
  lemma HttpReads(text: Json -> bytes, j: Json)
    ensures TablesOk(HttpGrammar(), HttpNames())
    ensures FromJson(HttpGrammar(), HttpNames(), text, HTTP, j)
      == match HttpFromJson(text, j) case None => None case Some(m) => Some(HttpMsg(m))
  {
    HttpNamesOk();
    hide *;
    HttpRows(CreateBaseHttp());
    HttpKeys();
    HttpOf(text, j);
    var items := ItemsOf(j, Rules, Rules);
    HttpRulesRead(text, items);
    if j == Null || j == Undefined {
      HttpFails(text, j);
    } else if HttpRulesFromJson(text, items) == None {
      SubsProperty(HttpGrammar(), HttpNames(), text, HTTP, j, 0, Rules, Rules, HTTP_RULE, items, None);
      ListThrows(HttpGrammar(), HttpNames(), text, HTTP, j, 0);
    } else {
      HttpSucceeds(text, j, HttpFromJson(text, j).value, items);
    }
  }

  lemma HttpFails(text: Json -> bytes, j: Json)
    requires j == Null || j == Undefined
    ensures TablesOk(HttpGrammar(), HttpNames())
    ensures FromJson(HttpGrammar(), HttpNames(), text, HTTP, j) == None
  {
    HttpNamesOk();
    HttpRows(CreateBaseHttp());
    hide HttpGrammar, HttpNames, TablesOk, FromJson;
    NullThrows(HttpGrammar(), HttpNames(), text, HTTP, j, 1);
  }

  lemma HttpSucceeds(text: Json -> bytes, j: Json, m: Http, items: seq<Json>)
    requires HttpFromJson(text, j) == Some(m) && j != Null && j != Undefined
    requires items == ItemsOf(j, Rules, Rules) && HttpRulesFromJson(text, items).Some?
    requires TablesOk(HttpGrammar(), HttpNames()) && HTTP_RULE < |HttpGrammar()|
    requires FromItems(HttpGrammar(), HttpNames(), text, KMsg(HTTP_RULE), items)
      == Some(SubsSlot(HttpRuleMsgs(HttpRulesFromJson(text, items).value)).vals)
    ensures FromJson(HttpGrammar(), HttpNames(), text, HTTP, j) == Some(HttpMsg(m))
  {
    hide *;
    HttpRows(m);
    HttpKeys();
    HttpSlots(m);
    HttpOf(text, j);
    var g, ns, t := HttpGrammar(), HttpNames(), HTTP;
    NoPropertiesYet(g, ns, text, t, j);
    NextSubs(g, ns, text, t, j, 0, [], Rules, Rules, HTTP_RULE, items, HttpRuleMsgs(m.rules));
    NextBool(g, ns, text, t, j, 1, [] + [SubsSlot(HttpRuleMsgs(m.rules))], FullyDecodeReservedExpansion,
      Fully_decode_reserved_expansion);
    AllProperties(g, ns, text, t, j, HttpMsg(m));
  }

  // ---------------------------------------------------------------- key by key

  /** Every user `fromJSON` returns, property by property. */
  lemma UserByKeys(text: Json -> bytes, j: Json, u: User)
    requires TablesOk(AuthGrammar(), AuthNames())
    requires FromJson(AuthGrammar(), AuthNames(), text, USER, j) == Some(UserMsg(u))
    ensures u.id == if Has(j, Id) then text(j.props[Id]) else []
    ensures u.email == if Has(j, Email) then text(j.props[Email]) else []
    ensures u.displayName == if Has(j, DisplayName) then text(j.props[DisplayName])
      else if Has(j, Display_name) then text(j.props[Display_name]) else []
    ensures u.username == if Has(j, Username) then text(j.props[Username]) else []
    ensures u.pictureUrl == if Has(j, PictureUrl) then text(j.props[PictureUrl])
      else if Has(j, Picture_url) then text(j.props[Picture_url]) else []
    ensures u.isAdmin == if Has(j, IsAdmin) then j.props[IsAdmin] !in FALSY
      else Has(j, Is_admin) && j.props[Is_admin] !in FALSY
  {
    UserReads(text, j);
    hide AuthGrammar, AuthNames, TablesOk, FromJson, UserMsg;
    UserSame(u, UserFromJson(text, j).value);
  }

  /** Every rule `fromJSON` returns; the bindings are those of the first key that holds a list. */
  lemma HttpRuleByKeys(text: Json -> bytes, j: Json, m: HttpRule)
    requires TablesOk(HttpGrammar(), HttpNames())
    requires FromJson(HttpGrammar(), HttpNames(), text, HTTP_RULE, j) == Some(HttpRuleMsg(m))
    ensures m.selector == if Has(j, Selector) then text(j.props[Selector]) else []
    ensures m.get == if Has(j, Get) then Some(text(j.props[Get])) else None
    ensures m.put == if Has(j, PutName) then Some(text(j.props[PutName])) else None
    ensures m.post == if Has(j, Post) then Some(text(j.props[Post])) else None
    ensures m.delete == if Has(j, Delete) then Some(text(j.props[Delete])) else None
    ensures m.patch == if Has(j, Patch) then Some(text(j.props[Patch])) else None
    ensures m.custom.Some? == Has(j, Custom)
    ensures Has(j, Custom) ==> var c := j.props[Custom];
      && m.custom.value.kind == (if Has(c, KindName) then text(c.props[KindName]) else [])
      && m.custom.value.path == (if Has(c, PathName) then text(c.props[PathName]) else [])
    ensures m.body == if Has(j, Body) then text(j.props[Body]) else []
    ensures m.responseBody == if Has(j, ResponseBody) then text(j.props[ResponseBody])
      else if Has(j, Response_body) then text(j.props[Response_body]) else []
    ensures var items := if HasArray(j, AdditionalBindings) then j.props[AdditionalBindings].items
        else if HasArray(j, Additional_bindings) then j.props[Additional_bindings].items else [];
      && |m.additionalBindings| == |items|
      && forall i | 0 <= i < |items| ::
           FromJson(HttpGrammar(), HttpNames(), text, HTTP_RULE, items[i]) == Some(HttpRuleMsg(m.additionalBindings[i]))
  {
    var items := ItemsOf(j, AdditionalBindings, Additional_bindings);
    HttpRuleReads(text, j);
    HttpRuleOf(text, j);
    hide HttpGrammar, HttpNames, TablesOk, FromJson, HttpRuleMsg, HttpRuleFromJson, HttpRulesFromJson;
    HttpRuleSame(m, HttpRuleFromJson(text, j).value);
    EachReads(text, items);
  }

  /** Every `Http` message `fromJSON` returns. */
  lemma HttpByKeys(text: Json -> bytes, j: Json, m: Http)
    requires TablesOk(HttpGrammar(), HttpNames())
    requires FromJson(HttpGrammar(), HttpNames(), text, HTTP, j) == Some(HttpMsg(m))
    ensures m.fullyDecodeReservedExpansion
      == if Has(j, FullyDecodeReservedExpansion) then j.props[FullyDecodeReservedExpansion] !in FALSY
         else Has(j, Fully_decode_reserved_expansion) && j.props[Fully_decode_reserved_expansion] !in FALSY
    ensures var items := if HasArray(j, Rules) then j.props[Rules].items else [];
      && |m.rules| == |items|
      && forall i | 0 <= i < |items| ::
           FromJson(HttpGrammar(), HttpNames(), text, HTTP_RULE, items[i]) == Some(HttpRuleMsg(m.rules[i]))
  {
    HttpReads(text, j);
    HttpOf(text, j);
    hide HttpGrammar, HttpNames, TablesOk, FromJson, HttpMsg, HttpRuleMsg, HttpFromJson, HttpRulesFromJson;
    HttpSame(m, HttpFromJson(text, j).value);
    EachReads(text, ItemsOf(j, Rules, Rules));
  }

  lemma {:induction false} EachReads(text: Json -> bytes, items: seq<Json>)
    requires TablesOk(HttpGrammar(), HttpNames()) && HttpRulesFromJson(text, items).Some?
    ensures var ms := HttpRulesFromJson(text, items).value;
      && |ms| == |items|
      && forall i | 0 <= i < |items| ::
           FromJson(HttpGrammar(), HttpNames(), text, HTTP_RULE, items[i]) == Some(HttpRuleMsg(ms[i]))
    decreases |items|
  {
    hide HttpGrammar, HttpNames, TablesOk, FromJson, HttpRuleMsg, HttpRuleFromJson;
    if items != [] {
      HttpRuleReads(text, items[0]);
      EachReads(text, items[1..]);
    }
  }

  /** The two requests that carry a string. */
  lemma RequestsByKeys(text: Json -> bytes, j: Json)
    requires j != Null && j != Undefined
    ensures TablesOk(AuthGrammar(), AuthNames())
    ensures FromJson(AuthGrammar(), AuthNames(), text, GOOGLE_LOGIN_REQUEST, j)
      == Some(Msg([Slot([Str(if Has(j, IdToken) then text(j.props[IdToken])
                             else if Has(j, Id_token) then text(j.props[Id_token]) else [])])]))
    ensures FromJson(AuthGrammar(), AuthNames(), text, UPDATE_PROFILE_REQUEST, j)
      == Some(Msg([Slot([Str(if Has(j, Username) then text(j.props[Username]) else [])])]))
  {
    AuthNamesOk();
    RequestTables();
    var g, ns := AuthGrammar(), AuthNames();
    hide AuthGrammar, AuthNames, TablesOk, FromJson, FromProperties, FromProperty;
    NoPropertiesYet(g, ns, text, GOOGLE_LOGIN_REQUEST, j);
    NextStr(g, ns, text, GOOGLE_LOGIN_REQUEST, j, 0, [], IdToken, Id_token);
    AllProperties(g, ns, text, GOOGLE_LOGIN_REQUEST, j, Msg([] + [OptStrSlot(Some(TextOf(text, j, IdToken, Id_token)))]));
    NoPropertiesYet(g, ns, text, UPDATE_PROFILE_REQUEST, j);
    NextStr(g, ns, text, UPDATE_PROFILE_REQUEST, j, 0, [], Username, Username);
    AllProperties(g, ns, text, UPDATE_PROFILE_REQUEST, j, Msg([] + [OptStrSlot(Some(TextOf(text, j, Username, Username)))]));
    OneSlot(TextOf(text, j, IdToken, Id_token));
    OneSlot(TextOf(text, j, Username, Username));
  }

  lemma OneSlot(s: bytes)
    ensures [] + [OptStrSlot(Some(s))] == [Slot([Str(s)])]
  {
  }

  lemma RequestTables()
    ensures |AuthNames()| == |AuthGrammar()| && GOOGLE_LOGIN_REQUEST < |AuthGrammar()| && UPDATE_PROFILE_REQUEST < |AuthGrammar()|
    ensures AuthNames()[GOOGLE_LOGIN_REQUEST] == [Spelling(IdToken, Id_token)]
    ensures AuthNames()[UPDATE_PROFILE_REQUEST] == [Spelling(Username, Username)]
    ensures AuthGrammar()[GOOGLE_LOGIN_REQUEST].plan == [Row(10, KStr, Implicit(Str([])))]
    ensures AuthGrammar()[UPDATE_PROFILE_REQUEST].plan == [Row(10, KStr, Implicit(Str([])))]
  {
    hide GrammarOk;
  }
}
