/**
 `auth.ts`: the codecs of `User`, `SessionResponse` and `ListUsersResponse` as the file writes them,
 checked against the tables.
 */
module AuthCodec {
  import opened Wire
  import opened Codec
  import opened Buffers
  import opened Fields
  import opened Turns
  import opened Statements
  import opened RoundTrip
  import opened AuthSchemas

  // The messages. A property that may be undefined is an option; `createBase` gives the first values.

  datatype User = User(
    id: bytes,
    email: bytes,
    displayName: bytes,
    username: bytes,
    pictureUrl: bytes,
    isAdmin: bool)

  function CreateBaseUser(): User {
    User([], [], [], [], [], false)
  }

  datatype SessionResponse = SessionResponse(
    jwt: bytes,
    user: Option<User>)

  function CreateBaseSessionResponse(): SessionResponse {
    SessionResponse([], None)
  }

  datatype ListUsersResponse = ListUsersResponse(
    users: seq<User>)

  function CreateBaseListUsersResponse(): ListUsersResponse {
    ListUsersResponse([])
  }

  // ---------------------------------------------------------------- User

  /** The message as the tables see it. */
  function UserMsg(m: User): Msg
  {
    Msg([
      OptStrSlot(Some(m.id)),
      OptStrSlot(Some(m.email)),
      OptStrSlot(Some(m.displayName)),
      OptStrSlot(Some(m.username)),
      OptStrSlot(Some(m.pictureUrl)),
      BoolSlot(m.isAdmin)])
  }

  function UserMsgs(ms: seq<User>): (r: seq<Msg>)
    ensures |r| == |ms|
  {
    seq(|ms|, i requires 0 <= i < |ms| => UserMsg(ms[i]))
  }

  lemma UserMsgsAre(ms: seq<User>)
    ensures |SubsSlot(UserMsgs(ms)).vals| == |ms|
    ensures forall i | 0 <= i < |ms| :: UserMsgs(ms)[i] == UserMsg(ms[i])
  {
  }

  lemma UserMsgsAppend(ms: seq<User>, m: User)
    ensures SubsSlot(UserMsgs(ms + [m])) == Slot(SubsSlot(UserMsgs(ms)).vals + [Sub(UserMsg(m))])
  {
    hide UserMsg;
    var l, r := UserMsgs(ms + [m]), UserMsgs(ms);
    assert forall i | 0 <= i < |ms| :: l[i] == r[i];
    assert SubsSlot(l).vals == SubsSlot(r).vals + [Sub(UserMsg(m))];
  }

  function OptUserMsg(o: Option<User>): Option<Msg> {
    if o.Some? then Some(UserMsg(o.value)) else None
  }

  lemma OptUserIs(o: Option<User>)
    ensures OptUserMsg(o) == if o == None then None else Some(UserMsg(o.value))
  {
  }

  lemma UserTable()
    ensures AuthGrammar()[USER] == UserSchema()
  {
  }

  lemma UserRows(m: User)
    ensures var plan, slots := AuthGrammar()[USER].plan, UserMsg(m).slots;
      && |plan| == |slots| == 6
      && plan[0] == Row(10, KStr, Implicit(Str([]))) && slots[0] == OptStrSlot(Some(m.id))
      && plan[1] == Row(18, KStr, Implicit(Str([]))) && slots[1] == OptStrSlot(Some(m.email))
      && plan[2] == Row(26, KStr, Implicit(Str([]))) && slots[2] == OptStrSlot(Some(m.displayName))
      && plan[3] == Row(34, KStr, Implicit(Str([]))) && slots[3] == OptStrSlot(Some(m.username))
      && plan[4] == Row(42, KStr, Implicit(Str([]))) && slots[4] == OptStrSlot(Some(m.pictureUrl))
      && plan[5] == Row(48, KBool, Implicit(Val.Bool(false))) && slots[5] == BoolSlot(m.isAdmin)
  {
    UserTable();
    hide AuthGrammar;
  }

  lemma UserArms()
    ensures var arms := AuthGrammar()[USER].arms;
      && arms.Keys == {10, 18, 26, 34, 42, 48}
      && arms[10] == Arm(0, KStr, Assign)
      && arms[18] == Arm(1, KStr, Assign)
      && arms[26] == Arm(2, KStr, Assign)
      && arms[34] == Arm(3, KStr, Assign)
      && arms[42] == Arm(4, KStr, Assign)
      && arms[48] == Arm(5, KBool, Assign)
  {
    UserTable();
    hide AuthGrammar;
    assert UserSchema().arms.Keys == {10, 18, 26, 34, 42, 48};
  }

  lemma UserBase()
    ensures AuthGrammar()[USER].base == UserMsg(CreateBaseUser())
  {
    UserTable();
    hide AuthGrammar;
    SameSlots(AuthGrammar()[USER].base, UserMsg(CreateBaseUser()));
  }

  /** `encode`: only appends, leaves the forks as they were, and what it appends is the encoding. */
  method EncodeUser(message: User, writer: BinaryWriter)
    requires ValidMsg(AuthGrammar(), USER, UserMsg(message))
    modifies writer
    ensures writer.stack == old(writer.stack)
    ensures writer.buf == old(writer.buf) + Encode(AuthGrammar(), USER, UserMsg(message))
  {
    assert 48 < TWO_32 && USER < |AuthGrammar()|;
    hide *;
    ghost var start, g, t, m := writer.buf, AuthGrammar(), USER, UserMsg(message);
    UserRows(message);
    WrittenNone(start, g, t, m);
    WriteStr(writer, 10, Some(message.id), start, g, t, m, 0);
    WriteStr(writer, 18, Some(message.email), start, g, t, m, 1);
    WriteStr(writer, 26, Some(message.displayName), start, g, t, m, 2);
    WriteStr(writer, 34, Some(message.username), start, g, t, m, 3);
    WriteStr(writer, 42, Some(message.pictureUrl), start, g, t, m, 4);
    WriteBool(writer, 48, message.isAdmin, start, g, t, m, 5);
    WrittenAll(start, g, t, m);
  }

  /** `User.encode(v, writer.uint32(tag).fork()).join()` */
  method WriteUser(writer: BinaryWriter, tag: nat, message: User)
    requires tag < TWO_32 && ValidMsg(AuthGrammar(), USER, UserMsg(message))
    requires |Encode(AuthGrammar(), USER, UserMsg(message))| < TWO_32
    modifies writer
    ensures writer.stack == old(writer.stack)
    ensures writer.buf == old(writer.buf) + Varint(tag)
      + LengthPrefixed(Encode(AuthGrammar(), USER, UserMsg(message)))
  {
    hide AuthGrammar, GrammarOk, ValidMsg, Encode, Varint, LengthPrefixed, UserMsg;
    writer.Uint32(tag);
    writer.Fork();
    EncodeUser(message, writer);
    NothingBefore(Encode(AuthGrammar(), USER, UserMsg(message)));
    writer.Join();
  }

  /** `for (const v of xs)`: a list of sub-messages. */
  method WriteUsers(writer: BinaryWriter, tag: nat, messages: seq<User>, ghost start: bytes, ghost g: Grammar,
      ghost t: nat, ghost m: Msg, ghost n: nat)
    requires g == AuthGrammar() && t < |g| && ValidMsg(g, t, m) && n < |m.slots| == |g[t].plan| && tag < TWO_32
    requires g[t].plan[n] == Row(tag, KMsg(USER), Repeated) && m.slots[n] == SubsSlot(UserMsgs(messages))
    requires writer.buf == Written(start, g, t, m, n)
    modifies writer
    ensures writer.stack == old(writer.stack) && writer.buf == Written(start, g, t, m, n + 1)
  {
    assert tag < TWO_32 && USER < |g|;
    hide *;
    ListStarts(start, g, t, m, n);
    UserMsgsAre(messages);
    for i := 0 to |messages|
      invariant writer.stack == old(writer.stack)
      invariant writer.buf == Out(start, g, t, m, n, i)
    {
      SubWritten(start, g, t, m, n, tag, USER, UserMsgs(messages), i);
      WriteUser(writer, tag, messages[i]);
    }
  }

  lemma UserSetId(m: User, v: bytes)
    ensures Put(UserMsg(m), 0, Assign, Str(v)) == UserMsg(m.(id := v))
  {
    SameSlots(Put(UserMsg(m), 0, Assign, Str(v)), UserMsg(m.(id := v)));
  }

  lemma UserSetEmail(m: User, v: bytes)
    ensures Put(UserMsg(m), 1, Assign, Str(v)) == UserMsg(m.(email := v))
  {
    SameSlots(Put(UserMsg(m), 1, Assign, Str(v)), UserMsg(m.(email := v)));
  }

  lemma UserSetDisplayName(m: User, v: bytes)
    ensures Put(UserMsg(m), 2, Assign, Str(v)) == UserMsg(m.(displayName := v))
  {
    SameSlots(Put(UserMsg(m), 2, Assign, Str(v)), UserMsg(m.(displayName := v)));
  }

  lemma UserSetUsername(m: User, v: bytes)
    ensures Put(UserMsg(m), 3, Assign, Str(v)) == UserMsg(m.(username := v))
  {
    SameSlots(Put(UserMsg(m), 3, Assign, Str(v)), UserMsg(m.(username := v)));
  }

  lemma UserSetPictureUrl(m: User, v: bytes)
    ensures Put(UserMsg(m), 4, Assign, Str(v)) == UserMsg(m.(pictureUrl := v))
  {
    SameSlots(Put(UserMsg(m), 4, Assign, Str(v)), UserMsg(m.(pictureUrl := v)));
  }

  lemma UserSetIsAdmin(m: User, v: bool)
    ensures Put(UserMsg(m), 5, Assign, Val.Bool(v)) == UserMsg(m.(isAdmin := v))
  {
    SameSlots(Put(UserMsg(m), 5, Assign, Val.Bool(v)), UserMsg(m.(isAdmin := v)));
  }

  /** `decode`: reads what the tables say, or throws where they do. */
  method DecodeUser(reader: BinaryReader, length: Option<nat>) returns (r: Option<User>)
    requires reader.Valid()
    modifies reader
    ensures reader.Valid()
    ensures var d := DecodeUpTo(AuthGrammar(), USER, reader.buf, old(reader.pos), length);
      if r.None? then d.Fail? else d == Got(UserMsg(r.value), reader.pos)
  {
    ghost var g, t := AuthGrammar(), USER;
    UserArms();
    UserBase();
    hide AuthGrammar, GrammarOk, Loop, DecodeUpTo, ReadUint32, ReadBytes, ReadScalar, ReadInt32, ReadPacked,
      ReadVarint, ReadValue, ReadField, ReadStep, AfterTag, Skip, Put, Apply, Signed, LongToNumber, Varint,
      UserMsg;
    var end := if length.None? then |reader.buf| else reader.pos + length.value;
    var message := CreateBaseUser();
    DecodeIsLoop(g, t, reader.buf, reader.pos, length, end);
    while reader.pos < end
      invariant reader.Valid()
      invariant |UserMsg(message).slots| == |g[t].plan|
      invariant Loop(g, t, reader.buf, old(reader.pos), end, g[t].base)
        == Loop(g, t, reader.buf, reader.pos, end, UserMsg(message))
      decreases |reader.buf| - reader.pos
    {
      ghost var pos, m := reader.pos, UserMsg(message);
      var read := reader.Uint32();
      if read.None? {
        NoTagTurn(g, t, reader.buf, pos, end, m);
        return None;
      }
      var tag := read.value;
      match tag / 8 {
        case 1 =>
          if tag == 10 {
            StrTurn(g, t, reader.buf, pos, end, m, 10, reader.pos, 0, Assign);
            var v :- reader.String();
            UserSetId(message, v);
            message := message.(id := v);
            continue;
          }
        case 2 =>
          if tag == 18 {
            StrTurn(g, t, reader.buf, pos, end, m, 18, reader.pos, 1, Assign);
            var v :- reader.String();
            UserSetEmail(message, v);
            message := message.(email := v);
            continue;
          }
        case 3 =>
          if tag == 26 {
            StrTurn(g, t, reader.buf, pos, end, m, 26, reader.pos, 2, Assign);
            var v :- reader.String();
            UserSetDisplayName(message, v);
            message := message.(displayName := v);
            continue;
          }
        case 4 =>
          if tag == 34 {
            StrTurn(g, t, reader.buf, pos, end, m, 34, reader.pos, 3, Assign);
            var v :- reader.String();
            UserSetUsername(message, v);
            message := message.(username := v);
            continue;
          }
        case 5 =>
          if tag == 42 {
            StrTurn(g, t, reader.buf, pos, end, m, 42, reader.pos, 4, Assign);
            var v :- reader.String();
            UserSetPictureUrl(message, v);
            message := message.(pictureUrl := v);
            continue;
          }
        case 6 =>
          if tag == 48 {
            BoolTurn(g, t, reader.buf, pos, end, m, 48, reader.pos, 5);
            var v :- reader.Bool();
            UserSetIsAdmin(message, v);
            message := message.(isAdmin := v);
            continue;
          }
        case _ =>
      }
      OtherTurn(g, t, reader.buf, pos, end, m, tag, reader.pos);
      if tag % 8 == 4 || tag == 0 {
        return Some(message);
      }
      var _ :- reader.Skip(tag % 8);
    }
    LoopIsOver(g, t, reader.buf, reader.pos, end, UserMsg(message));
    return Some(message);
  }

  // ---------------------------------------------------------------- SessionResponse

  /** The message as the tables see it. */
  function SessionResponseMsg(m: SessionResponse): Msg
  {
    Msg([
      OptStrSlot(Some(m.jwt)),
      OptSubSlot(OptUserMsg(m.user))])
  }

  lemma SessionResponseTable()
    ensures AuthGrammar()[SESSION_RESPONSE] == SessionResponseSchema()
  {
  }

  lemma SessionResponseRows(m: SessionResponse)
    ensures var plan, slots := AuthGrammar()[SESSION_RESPONSE].plan, SessionResponseMsg(m).slots;
      && |plan| == |slots| == 2
      && plan[0] == Row(10, KStr, Implicit(Str([]))) && slots[0] == OptStrSlot(Some(m.jwt))
      && plan[1] == Row(18, KMsg(USER), Explicit) && slots[1] == OptSubSlot(OptUserMsg(m.user))
  {
    SessionResponseTable();
    hide AuthGrammar;
  }

  lemma SessionResponseArms()
    ensures var arms := AuthGrammar()[SESSION_RESPONSE].arms;
      && arms.Keys == {10, 18}
      && arms[10] == Arm(0, KStr, Assign)
      && arms[18] == Arm(1, KMsg(USER), Assign)
  {
    SessionResponseTable();
    hide AuthGrammar;
    assert SessionResponseSchema().arms.Keys == {10, 18};
  }

  lemma SessionResponseBase()
    ensures AuthGrammar()[SESSION_RESPONSE].base == SessionResponseMsg(CreateBaseSessionResponse())
  {
    SessionResponseTable();
    hide AuthGrammar;
    SameSlots(AuthGrammar()[SESSION_RESPONSE].base, SessionResponseMsg(CreateBaseSessionResponse()));
  }

  /** `encode`: only appends, leaves the forks as they were, and what it appends is the encoding. */
  method EncodeSessionResponse(message: SessionResponse, writer: BinaryWriter)
    requires ValidMsg(AuthGrammar(), SESSION_RESPONSE, SessionResponseMsg(message))
    modifies writer
    ensures writer.stack == old(writer.stack)
    ensures writer.buf == old(writer.buf) + Encode(AuthGrammar(), SESSION_RESPONSE, SessionResponseMsg(message))
  {
    assert 18 < TWO_32 && SESSION_RESPONSE < |AuthGrammar()| && USER < |AuthGrammar()|;
    hide *;
    ghost var start, g, t, m := writer.buf, AuthGrammar(), SESSION_RESPONSE, SessionResponseMsg(message);
    SessionResponseRows(message);
    WrittenNone(start, g, t, m);
    WriteStr(writer, 10, Some(message.jwt), start, g, t, m, 0);
    OptSubWritten(start, g, t, m, 1, 18, USER, OptUserMsg(message.user));
    OptUserIs(message.user);
    if message.user != None {
      WriteUser(writer, 18, message.user.value);
    }
    WrittenAll(start, g, t, m);
  }

  lemma SessionResponseSetJwt(m: SessionResponse, v: bytes)
    ensures Put(SessionResponseMsg(m), 0, Assign, Str(v)) == SessionResponseMsg(m.(jwt := v))
  {
    SameSlots(Put(SessionResponseMsg(m), 0, Assign, Str(v)), SessionResponseMsg(m.(jwt := v)));
  }

  lemma SessionResponseSetUser(m: SessionResponse, v: User)
    ensures Put(SessionResponseMsg(m), 1, Assign, Sub(UserMsg(v))) == SessionResponseMsg(m.(user := Some(v)))
  {
    SameSlots(Put(SessionResponseMsg(m), 1, Assign, Sub(UserMsg(v))), SessionResponseMsg(m.(user := Some(v))));
  }

  /** `decode`: reads what the tables say, or throws where they do. */
  method DecodeSessionResponse(reader: BinaryReader, length: Option<nat>) returns (r: Option<SessionResponse>)
    requires reader.Valid()
    modifies reader
    ensures reader.Valid()
    ensures var d := DecodeUpTo(AuthGrammar(), SESSION_RESPONSE, reader.buf, old(reader.pos), length);
      if r.None? then d.Fail? else d == Got(SessionResponseMsg(r.value), reader.pos)
  {
    ghost var g, t := AuthGrammar(), SESSION_RESPONSE;
    SessionResponseArms();
    SessionResponseBase();
    hide AuthGrammar, GrammarOk, Loop, DecodeUpTo, ReadUint32, ReadBytes, ReadScalar, ReadInt32, ReadPacked,
      ReadVarint, ReadValue, ReadField, ReadStep, AfterTag, Skip, Put, Apply, Signed, LongToNumber, Varint,
      SessionResponseMsg, UserMsg;
    var end := if length.None? then |reader.buf| else reader.pos + length.value;
    var message := CreateBaseSessionResponse();
    DecodeIsLoop(g, t, reader.buf, reader.pos, length, end);
    while reader.pos < end
      invariant reader.Valid()
      invariant |SessionResponseMsg(message).slots| == |g[t].plan|
      invariant Loop(g, t, reader.buf, old(reader.pos), end, g[t].base)
        == Loop(g, t, reader.buf, reader.pos, end, SessionResponseMsg(message))
      decreases |reader.buf| - reader.pos
    {
      ghost var pos, m := reader.pos, SessionResponseMsg(message);
      var read := reader.Uint32();
      if read.None? {
        NoTagTurn(g, t, reader.buf, pos, end, m);
        return None;
      }
      var tag := read.value;
      match tag / 8 {
        case 1 =>
          if tag == 10 {
            StrTurn(g, t, reader.buf, pos, end, m, 10, reader.pos, 0, Assign);
            var v :- reader.String();
            SessionResponseSetJwt(message, v);
            message := message.(jwt := v);
            continue;
          }
        case 2 =>
          if tag == 18 {
            SubTurn(g, t, reader.buf, pos, end, m, 18, reader.pos, 1, USER, Assign);
            var len :- reader.Uint32();
            var v :- DecodeUser(reader, Some(len));
            SessionResponseSetUser(message, v);
            message := message.(user := Some(v));
            continue;
          }
        case _ =>
      }
      OtherTurn(g, t, reader.buf, pos, end, m, tag, reader.pos);
      if tag % 8 == 4 || tag == 0 {
        return Some(message);
      }
      var _ :- reader.Skip(tag % 8);
    }
    LoopIsOver(g, t, reader.buf, reader.pos, end, SessionResponseMsg(message));
    return Some(message);
  }

  // ---------------------------------------------------------------- ListUsersResponse

  /** The message as the tables see it. */
  function ListUsersResponseMsg(m: ListUsersResponse): Msg
  {
    Msg([
      SubsSlot(UserMsgs(m.users))])
  }

  lemma ListUsersResponseTable()
    ensures AuthGrammar()[LIST_USERS_RESPONSE] == ListUsersResponseSchema()
  {
  }

  lemma ListUsersResponseRows(m: ListUsersResponse)
    ensures var plan, slots := AuthGrammar()[LIST_USERS_RESPONSE].plan, ListUsersResponseMsg(m).slots;
      && |plan| == |slots| == 1
      && plan[0] == Row(10, KMsg(USER), Repeated) && slots[0] == SubsSlot(UserMsgs(m.users))
  {
    ListUsersResponseTable();
    hide AuthGrammar;
  }

  lemma ListUsersResponseArms()
    ensures var arms := AuthGrammar()[LIST_USERS_RESPONSE].arms;
      && arms.Keys == {10}
      && arms[10] == Arm(0, KMsg(USER), Push)
  {
    ListUsersResponseTable();
    hide AuthGrammar;
    assert ListUsersResponseSchema().arms.Keys == {10};
  }

  lemma ListUsersResponseBase()
    ensures AuthGrammar()[LIST_USERS_RESPONSE].base == ListUsersResponseMsg(CreateBaseListUsersResponse())
  {
    ListUsersResponseTable();
    hide AuthGrammar;
    assert SubsSlot(UserMsgs([])).vals == [];
    SameSlots(AuthGrammar()[LIST_USERS_RESPONSE].base, ListUsersResponseMsg(CreateBaseListUsersResponse()));
  }

  /** `encode`: only appends, leaves the forks as they were, and what it appends is the encoding. */
  method EncodeListUsersResponse(message: ListUsersResponse, writer: BinaryWriter)
    requires ValidMsg(AuthGrammar(), LIST_USERS_RESPONSE, ListUsersResponseMsg(message))
    modifies writer
    ensures writer.stack == old(writer.stack)
    ensures writer.buf == old(writer.buf) + Encode(AuthGrammar(), LIST_USERS_RESPONSE, ListUsersResponseMsg(message))
  {
    assert 10 < TWO_32 && LIST_USERS_RESPONSE < |AuthGrammar()| && USER < |AuthGrammar()|;
    hide *;
    ghost var start, g, t, m := writer.buf, AuthGrammar(), LIST_USERS_RESPONSE, ListUsersResponseMsg(message);
    ListUsersResponseRows(message);
    WrittenNone(start, g, t, m);
    WriteUsers(writer, 10, message.users, start, g, t, m, 0);
    WrittenAll(start, g, t, m);
  }

  lemma ListUsersResponsePushUsers(m: ListUsersResponse, v: User)
    ensures Put(ListUsersResponseMsg(m), 0, Push, Sub(UserMsg(v))) == ListUsersResponseMsg(m.(users := m.users + [v]))
  {
    UserMsgsAppend(m.users, v);
    hide UserMsgs, SubsSlot;
    SameSlots(Put(ListUsersResponseMsg(m), 0, Push, Sub(UserMsg(v))), ListUsersResponseMsg(m.(users := m.users + [v])));
  }

  /** `decode`: reads what the tables say, or throws where they do. */
  method DecodeListUsersResponse(reader: BinaryReader, length: Option<nat>) returns (r: Option<ListUsersResponse>)
    requires reader.Valid()
    modifies reader
    ensures reader.Valid()
    ensures var d := DecodeUpTo(AuthGrammar(), LIST_USERS_RESPONSE, reader.buf, old(reader.pos), length);
      if r.None? then d.Fail? else d == Got(ListUsersResponseMsg(r.value), reader.pos)
  {
    ghost var g, t := AuthGrammar(), LIST_USERS_RESPONSE;
    ListUsersResponseArms();
    ListUsersResponseBase();
    hide AuthGrammar, GrammarOk, Loop, DecodeUpTo, ReadUint32, ReadBytes, ReadScalar, ReadInt32, ReadPacked,
      ReadVarint, ReadValue, ReadField, ReadStep, AfterTag, Skip, Put, Apply, Signed, LongToNumber, Varint,
      ListUsersResponseMsg, UserMsg;
    var end := if length.None? then |reader.buf| else reader.pos + length.value;
    var message := CreateBaseListUsersResponse();
    DecodeIsLoop(g, t, reader.buf, reader.pos, length, end);
    while reader.pos < end
      invariant reader.Valid()
      invariant |ListUsersResponseMsg(message).slots| == |g[t].plan|
      invariant Loop(g, t, reader.buf, old(reader.pos), end, g[t].base)
        == Loop(g, t, reader.buf, reader.pos, end, ListUsersResponseMsg(message))
      decreases |reader.buf| - reader.pos
    {
      ghost var pos, m := reader.pos, ListUsersResponseMsg(message);
      var read := reader.Uint32();
      if read.None? {
        NoTagTurn(g, t, reader.buf, pos, end, m);
        return None;
      }
      var tag := read.value;
      match tag / 8 {
        case 1 =>
          if tag == 10 {
            SubTurn(g, t, reader.buf, pos, end, m, 10, reader.pos, 0, USER, Push);
            var len :- reader.Uint32();
            var v :- DecodeUser(reader, Some(len));
            ListUsersResponsePushUsers(message, v);
            message := message.(users := message.users + [v]);
            continue;
          }
        case _ =>
      }
      OtherTurn(g, t, reader.buf, pos, end, m, tag, reader.pos);
      if tag % 8 == 4 || tag == 0 {
        return Some(message);
      }
      var _ :- reader.Skip(tag % 8);
    }
    LoopIsOver(g, t, reader.buf, reader.pos, end, ListUsersResponseMsg(message));
    return Some(message);
  }

  // ---------------------------------------------------------------- there and back

  lemma {:induction false} UserNorm(m: User)
    ensures |UserMsg(m).slots| == |AuthGrammar()[USER].plan|
    ensures Norm(AuthGrammar(), USER, UserMsg(m)) == UserMsg(m)
  {
    var g, t := AuthGrammar(), USER;
    assert USER < |g|;
    hide AuthGrammar, GrammarOk, Norm, NormSlot, UserMsg, OptStrSlot, BoolSlot, OptSubSlot, SubsSlot, OptIntSlot,
      OptDoubleSlot, StrsSlot, IntsSlot;
    UserRows(m);
    assert forall i | 0 <= i < 6 :: KindOk(g, g[t].plan[i].kind);
    NormStr(g, 10, Some(m.id));
    NormStr(g, 18, Some(m.email));
    NormStr(g, 26, Some(m.displayName));
    NormStr(g, 34, Some(m.username));
    NormStr(g, 42, Some(m.pictureUrl));
    NormBool(g, 48, m.isAdmin);
    NormAt(g, t, UserMsg(m), UserMsg(m));
  }

  lemma UsersNorm(ms: seq<User>)
    ensures forall i | 0 <= i < |ms| ::
      var s := UserMsgs(ms)[i]; |s.slots| == |AuthGrammar()[USER].plan| && Norm(AuthGrammar(), USER, s) == s
  {
    forall i | 0 <= i < |ms|
      ensures var s := UserMsgs(ms)[i]; |s.slots| == |AuthGrammar()[USER].plan| && Norm(AuthGrammar(), USER, s) == s
    {
      UserNorm(ms[i]);
    }
  }

  lemma {:induction false} UserSame(a: User, b: User)
    requires UserMsg(a) == UserMsg(b)
    ensures a == b
  {
    UserRows(a);
    UserRows(b);
    hide AuthGrammar, UserMsg, OptStrSlot, BoolSlot, OptSubSlot, SubsSlot, OptIntSlot, OptDoubleSlot, StrsSlot,
      IntsSlot;
    OptStrSame(Some(a.id), Some(b.id));
    OptStrSame(Some(a.email), Some(b.email));
    OptStrSame(Some(a.displayName), Some(b.displayName));
    OptStrSame(Some(a.username), Some(b.username));
    OptStrSame(Some(a.pictureUrl), Some(b.pictureUrl));
    BoolSame(a.isAdmin, b.isAdmin);
  }

  /** What `encode` wrote, wherever it stands, `decode` reads back, and leaves the reader right after it. */
  method UserRoundTrip(message: User, before: bytes, after: bytes) returns (r: Option<User>, pos: nat)
    requires ValidMsg(AuthGrammar(), USER, UserMsg(message))
    ensures r == Some(message)
    ensures pos == |before| + |Encode(AuthGrammar(), USER, UserMsg(message))|
  {
    UserNorm(message);
    assert USER < |AuthGrammar()|;
    hide *;
    var writer := new BinaryWriter();
    EncodeUser(message, writer);
    var body := writer.buf;
    NothingBefore(Encode(AuthGrammar(), USER, UserMsg(message)));
    var reader := new BinaryReader.At(before + body + after, |before|);
    r := DecodeUser(reader, Some(|body|));
    DecodeUpToEncoded(AuthGrammar(), USER, UserMsg(message), before, after);
    UserSame(r.value, message);
    pos := reader.pos;
  }

  lemma {:induction false} SessionResponseNorm(m: SessionResponse)
    ensures |SessionResponseMsg(m).slots| == |AuthGrammar()[SESSION_RESPONSE].plan|
    ensures Norm(AuthGrammar(), SESSION_RESPONSE, SessionResponseMsg(m)) == SessionResponseMsg(m)
  {
    var g, t := AuthGrammar(), SESSION_RESPONSE;
    assert SESSION_RESPONSE < |g| && USER < |g|;
    hide AuthGrammar, GrammarOk, Norm, NormSlot, SessionResponseMsg, OptStrSlot, BoolSlot, OptSubSlot, SubsSlot,
      OptIntSlot, OptDoubleSlot, StrsSlot, IntsSlot;
    SessionResponseRows(m);
    if m.user.Some? {
      UserNorm(m.user.value);
    }
    assert forall i | 0 <= i < 2 :: KindOk(g, g[t].plan[i].kind);
    NormStr(g, 10, Some(m.jwt));
    NormOptSub(g, 18, USER, OptUserMsg(m.user), OptUserMsg(m.user));
    NormAt(g, t, SessionResponseMsg(m), SessionResponseMsg(m));
  }

  lemma {:induction false} SessionResponseSame(a: SessionResponse, b: SessionResponse)
    requires SessionResponseMsg(a) == SessionResponseMsg(b)
    ensures a == b
  {
    SessionResponseRows(a);
    SessionResponseRows(b);
    hide AuthGrammar, SessionResponseMsg, OptStrSlot, BoolSlot, OptSubSlot, SubsSlot, OptIntSlot, OptDoubleSlot,
      StrsSlot, IntsSlot;
    OptStrSame(Some(a.jwt), Some(b.jwt));
    OptSubSame(OptUserMsg(a.user), OptUserMsg(b.user));
    if a.user.Some? {
      UserSame(a.user.value, b.user.value);
    }
  }

  /** What `encode` wrote, wherever it stands, `decode` reads back, and leaves the reader right after it. */
  method SessionResponseRoundTrip(message: SessionResponse, before: bytes,
      after: bytes) returns (r: Option<SessionResponse>, pos: nat)
    requires ValidMsg(AuthGrammar(), SESSION_RESPONSE, SessionResponseMsg(message))
    ensures r == Some(message)
    ensures pos == |before| + |Encode(AuthGrammar(), SESSION_RESPONSE, SessionResponseMsg(message))|
  {
    SessionResponseNorm(message);
    assert SESSION_RESPONSE < |AuthGrammar()|;
    hide *;
    var writer := new BinaryWriter();
    EncodeSessionResponse(message, writer);
    var body := writer.buf;
    NothingBefore(Encode(AuthGrammar(), SESSION_RESPONSE, SessionResponseMsg(message)));
    var reader := new BinaryReader.At(before + body + after, |before|);
    r := DecodeSessionResponse(reader, Some(|body|));
    DecodeUpToEncoded(AuthGrammar(), SESSION_RESPONSE, SessionResponseMsg(message), before, after);
    SessionResponseSame(r.value, message);
    pos := reader.pos;
  }

  lemma {:induction false} ListUsersResponseNorm(m: ListUsersResponse)
    ensures |ListUsersResponseMsg(m).slots| == |AuthGrammar()[LIST_USERS_RESPONSE].plan|
    ensures Norm(AuthGrammar(), LIST_USERS_RESPONSE, ListUsersResponseMsg(m)) == ListUsersResponseMsg(m)
  {
    var g, t := AuthGrammar(), LIST_USERS_RESPONSE;
    assert LIST_USERS_RESPONSE < |g| && USER < |g|;
    hide AuthGrammar, GrammarOk, Norm, NormSlot, ListUsersResponseMsg, OptStrSlot, BoolSlot, OptSubSlot,
      SubsSlot, OptIntSlot, OptDoubleSlot, StrsSlot, IntsSlot;
    ListUsersResponseRows(m);
    UsersNorm(m.users);
    assert forall i | 0 <= i < 1 :: KindOk(g, g[t].plan[i].kind);
    NormSubs(g, 10, USER, UserMsgs(m.users), UserMsgs(m.users));
    NormAt(g, t, ListUsersResponseMsg(m), ListUsersResponseMsg(m));
  }

  lemma {:induction false} ListUsersResponseSame(a: ListUsersResponse, b: ListUsersResponse)
    requires ListUsersResponseMsg(a) == ListUsersResponseMsg(b)
    ensures a == b
  {
    ListUsersResponseRows(a);
    ListUsersResponseRows(b);
    hide AuthGrammar, ListUsersResponseMsg, OptStrSlot, BoolSlot, OptSubSlot, SubsSlot, OptIntSlot,
      OptDoubleSlot, StrsSlot, IntsSlot;
    SubsSame(UserMsgs(a.users), UserMsgs(b.users));
    forall i | 0 <= i < |a.users| ensures a.users[i] == b.users[i] {
      assert UserMsgs(a.users)[i] == UserMsgs(b.users)[i];
      UserSame(a.users[i], b.users[i]);
    }
  }

  /** What `encode` wrote, wherever it stands, `decode` reads back, and leaves the reader right after it. */
  method ListUsersResponseRoundTrip(message: ListUsersResponse, before: bytes,
      after: bytes) returns (r: Option<ListUsersResponse>, pos: nat)
    requires ValidMsg(AuthGrammar(), LIST_USERS_RESPONSE, ListUsersResponseMsg(message))
    ensures r == Some(message)
    ensures pos == |before| + |Encode(AuthGrammar(), LIST_USERS_RESPONSE, ListUsersResponseMsg(message))|
  {
    ListUsersResponseNorm(message);
    assert LIST_USERS_RESPONSE < |AuthGrammar()|;
    hide *;
    var writer := new BinaryWriter();
    EncodeListUsersResponse(message, writer);
    var body := writer.buf;
    NothingBefore(Encode(AuthGrammar(), LIST_USERS_RESPONSE, ListUsersResponseMsg(message)));
    var reader := new BinaryReader.At(before + body + after, |before|);
    r := DecodeListUsersResponse(reader, Some(|body|));
    DecodeUpToEncoded(AuthGrammar(), LIST_USERS_RESPONSE, ListUsersResponseMsg(message), before, after);
    ListUsersResponseSame(r.value, message);
    pos := reader.pos;
  }
}
