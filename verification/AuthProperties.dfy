/**
 The properties of the messages of `auth.ts` by name, with the numbers and types of that file, and what
 each does on the wire.
 */
module AuthProperties {
  import opened Codec
  import opened AuthSchemas
  import opened Properties

  function GoogleLoginRequestProperties(): seq<Property> {
    [
      Property("idToken", 1, 2, KStr, Implicit(Str([])))
    ]
  }

  function SessionResponseProperties(): seq<Property> {
    [
      Property("jwt", 1, 2, KStr, Implicit(Str([]))),
      Property("user", 2, 2, KMsg(USER), Explicit)
    ]
  }

  function UserProperties(): seq<Property> {
    [
      Property("id", 1, 2, KStr, Implicit(Str([]))),
      Property("email", 2, 2, KStr, Implicit(Str([]))),
      Property("displayName", 3, 2, KStr, Implicit(Str([]))),
      Property("username", 4, 2, KStr, Implicit(Str([]))),
      Property("pictureUrl", 5, 2, KStr, Implicit(Str([]))),
      Property("isAdmin", 6, 0, KBool, Implicit(Bool(false)))
    ]
  }

  function UpdateProfileRequestProperties(): seq<Property> {
    [
      Property("username", 1, 2, KStr, Implicit(Str([])))
    ]
  }

  function GetCurrentUserRequestProperties(): seq<Property> {
    []
  }

  function ListUsersRequestProperties(): seq<Property> {
    []
  }

  function ListUsersResponseProperties(): seq<Property> {
    [
      Property("users", 1, 2, KMsg(USER), Repeated)
    ]
  }

  lemma GoogleLoginRequestDescribed()
    ensures Described(GoogleLoginRequestSchema(), GoogleLoginRequestProperties())
  {
  }

  lemma SessionResponseDescribed()
    ensures Described(SessionResponseSchema(), SessionResponseProperties())
  {
  }

  lemma UserDescribed()
    ensures Described(UserSchema(), UserProperties())
  {
  }

  lemma UpdateProfileRequestDescribed()
    ensures Described(UpdateProfileRequestSchema(), UpdateProfileRequestProperties())
  {
  }

  lemma GetCurrentUserRequestDescribed()
    ensures Described(GetCurrentUserRequestSchema(), GetCurrentUserRequestProperties())
  {
  }

  lemma ListUsersRequestDescribed()
    ensures Described(ListUsersRequestSchema(), ListUsersRequestProperties())
  {
  }

  lemma ListUsersResponseDescribed()
    ensures Described(ListUsersResponseSchema(), ListUsersResponseProperties())
  {
  }

  /** The properties of each message of the file. */
  function PropertiesOf(message: nat): seq<Property> {
    if message == GOOGLE_LOGIN_REQUEST then GoogleLoginRequestProperties()
    else if message == SESSION_RESPONSE then SessionResponseProperties()
    else if message == USER then UserProperties()
    else if message == UPDATE_PROFILE_REQUEST then UpdateProfileRequestProperties()
    else if message == GET_CURRENT_USER_REQUEST then GetCurrentUserRequestProperties()
    else if message == LIST_USERS_REQUEST then ListUsersRequestProperties()
    else if message == LIST_USERS_RESPONSE then ListUsersResponseProperties()
    else []
  }

  lemma TheGrammar()
    ensures AuthGrammar() == AuthTables()
  {
    hide AuthTables, GrammarOk;
  }

  lemma {:induction false} TablesDescribed(message: nat)
    requires message < |AuthTables()|
    ensures Described(AuthTables()[message], PropertiesOf(message))
  {
    hide GrammarOk, Described, GoogleLoginRequestSchema, SessionResponseSchema, UserSchema,
      UpdateProfileRequestSchema, GetCurrentUserRequestSchema, ListUsersRequestSchema, ListUsersResponseSchema,
      GoogleLoginRequestProperties, SessionResponseProperties, UserProperties, UpdateProfileRequestProperties,
      GetCurrentUserRequestProperties, ListUsersRequestProperties, ListUsersResponseProperties;
    GoogleLoginRequestDescribed();
    SessionResponseDescribed();
    UserDescribed();
    UpdateProfileRequestDescribed();
    GetCurrentUserRequestDescribed();
    ListUsersRequestDescribed();
    ListUsersResponseDescribed();
  }

  /** Every property of every message of the file is read and written by its own number, and nothing else is. */
  lemma {:induction false} MessagesHaveProperties(message: nat)
    requires message < |AuthGrammar()|
    ensures HasProperties(AuthGrammar(), message, PropertiesOf(message))
  {
    TheGrammar();
    TablesDescribed(message);
    hide *;
    TableHasProperties(AuthGrammar(), message, PropertiesOf(message));
  }
}
