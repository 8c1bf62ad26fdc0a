/**
 The encode rows, decode arms and base values of `auth.ts`.
 */
module AuthSchemas {
  import opened Codec

  // The messages of the file, by their place in the grammar.
  const GOOGLE_LOGIN_REQUEST: nat := 0
  const SESSION_RESPONSE: nat := 1
  const USER: nat := 2
  const UPDATE_PROFILE_REQUEST: nat := 3
  const GET_CURRENT_USER_REQUEST: nat := 4
  const LIST_USERS_REQUEST: nat := 5
  const LIST_USERS_RESPONSE: nat := 6

  function GoogleLoginRequestSchema(): Schema {
    Schema(
      Msg([Slot([Str([])])]),
      [
        Row(10, KStr, Implicit(Str([])))  // idToken
      ],
      map[
        10 := Arm(0, KStr, Assign)  // idToken
      ])
  }

  function SessionResponseSchema(): Schema {
    Schema(
      Msg([Slot([Str([])]), Slot([])]),
      [
        Row(10, KStr, Implicit(Str([]))),  // jwt
        Row(18, KMsg(USER), Explicit)  // user
      ],
      map[
        10 := Arm(0, KStr, Assign),  // jwt
        18 := Arm(1, KMsg(USER), Assign)  // user
      ])
  }

  function UserSchema(): Schema {
    Schema(
      Msg([Slot([Str([])]), Slot([Str([])]), Slot([Str([])]), Slot([Str([])]), Slot([Str([])]), Slot([Bool(false)])]),
      [
        Row(10, KStr, Implicit(Str([]))),  // id
        Row(18, KStr, Implicit(Str([]))),  // email
        Row(26, KStr, Implicit(Str([]))),  // displayName
        Row(34, KStr, Implicit(Str([]))),  // username
        Row(42, KStr, Implicit(Str([]))),  // pictureUrl
        Row(48, KBool, Implicit(Bool(false)))  // isAdmin
      ],
      map[
        10 := Arm(0, KStr, Assign),  // id
        18 := Arm(1, KStr, Assign),  // email
        26 := Arm(2, KStr, Assign),  // displayName
        34 := Arm(3, KStr, Assign),  // username
        42 := Arm(4, KStr, Assign),  // pictureUrl
        48 := Arm(5, KBool, Assign)  // isAdmin
      ])
  }

  function UpdateProfileRequestSchema(): Schema {
    Schema(
      Msg([Slot([Str([])])]),
      [
        Row(10, KStr, Implicit(Str([])))  // username
      ],
      map[
        10 := Arm(0, KStr, Assign)  // username
      ])
  }

  function GetCurrentUserRequestSchema(): Schema {
    Schema(
      Msg([]),
      [],
      map[
      ])
  }

  function ListUsersRequestSchema(): Schema {
    Schema(
      Msg([]),
      [],
      map[
      ])
  }

  function ListUsersResponseSchema(): Schema {
    Schema(
      Msg([Slot([])]),
      [
        Row(10, KMsg(USER), Repeated)  // users
      ],
      map[
        10 := Arm(0, KMsg(USER), Push)  // users
      ])
  }

  /** The messages in their places. */
  function AuthTables(): Grammar {
    [
      GoogleLoginRequestSchema(),
      SessionResponseSchema(),
      UserSchema(),
      UpdateProfileRequestSchema(),
      GetCurrentUserRequestSchema(),
      ListUsersRequestSchema(),
      ListUsersResponseSchema()
    ]
  }

  lemma GoogleLoginRequestFits(g: Grammar)
    requires |g| == 7
    ensures SchemaOk(g, GoogleLoginRequestSchema())
  {
  }

  lemma SessionResponseFits(g: Grammar)
    requires |g| == 7
    ensures SchemaOk(g, SessionResponseSchema())
  {
  }

  lemma UserFits(g: Grammar)
    requires |g| == 7
    ensures SchemaOk(g, UserSchema())
  {
  }

  lemma UpdateProfileRequestFits(g: Grammar)
    requires |g| == 7
    ensures SchemaOk(g, UpdateProfileRequestSchema())
  {
  }

  lemma GetCurrentUserRequestFits(g: Grammar)
    requires |g| == 7
    ensures SchemaOk(g, GetCurrentUserRequestSchema())
  {
  }

  lemma ListUsersRequestFits(g: Grammar)
    requires |g| == 7
    ensures SchemaOk(g, ListUsersRequestSchema())
  {
  }

  lemma ListUsersResponseFits(g: Grammar)
    requires |g| == 7
    ensures SchemaOk(g, ListUsersResponseSchema())
  {
  }

  /** Every `encode` of the file writes what the `decode` of the same message reads back, into the
      property it came from, and leaves out exactly the values `createBase` starts from. */
  lemma AuthTablesFit()
    ensures GrammarOk(AuthTables())
  {
    var g := AuthTables();
    hide SchemaOk;
    GoogleLoginRequestFits(g);
    SessionResponseFits(g);
    UserFits(g);
    UpdateProfileRequestFits(g);
    GetCurrentUserRequestFits(g);
    ListUsersRequestFits(g);
    ListUsersResponseFits(g);
  }

  function AuthGrammar(): (g: Grammar)
    ensures GrammarOk(g) && |g| == 7
  {
    AuthTablesFit();
    AuthTables()
  }
}
