/**
 The users table and the SQL statements run on it, each an atomic step that the store may refuse.
 */
module Accounts {
  import opened Wire
  import opened Usernames

  type Id = nat

  datatype Row = Row(sub: string, email: string, name: string, picture: Option<string>, username: Option<string>, admin: bool, created: nat)

  type Users = map<Id, Row>

  /** What a verified Google ID token says. */
  datatype Google = Google(sub: string, email: string, name: string, picture: string)

  /** Both unique indexes; the one on the username ignores null. */
  predicate Unique(users: Users) {
    forall i, j | i in users && j in users && i != j ::
      users[i].sub != users[j].sub && (users[i].username.Some? ==> users[i].username != users[j].username)
  }

  predicate NamesWellFormed(users: Users) {
    forall i | i in users && users[i].username.Some? :: WellFormed(users[i].username.value)
  }

  predicate TableOk(users: Users) {
    Unique(users) && NamesWellFormed(users)
  }

  predicate Taken(users: Users, id: Id, username: string) {
    exists i | i in users && i != id :: users[i].username == Some(username)
  }

  // ---------------------------------------------------------------- the statements

  /** `SELECT ... WHERE google_sub = ?` */
  ghost function FindSub(users: Users, sub: string): (r: Option<Id>)
    ensures r.Some? ==> r.value in users && users[r.value].sub == sub
    ensures r.None? ==> forall i | i in users :: users[i].sub != sub
  {
    if i :| i in users && users[i].sub == sub then Some(i) else None
  }

  /** An empty string stands for null. */
  function Nullable(s: string): Option<string> {
    if s == "" then None else Some(s)
  }

  function NewRow(google: Google, now: nat): Row {
    Row(google.sub, google.email, google.name, Nullable(google.picture), None, false, now)
  }

  /** `INSERT`: refused if the subject, or the generated id, is there already. */
  function Insert(users: Users, id: Id, google: Google, now: nat): (r: Option<Users>)
    ensures TableOk(users) && r.Some? ==> TableOk(r.value)
  {
    if id in users || (exists i | i in users :: users[i].sub == google.sub) then None
    else Some(users[id := NewRow(google, now)])
  }

  /** The profile fields that `Assign` overwrites: those that are not empty. */
  function Refreshed(row: Row, google: Google): Row {
    row.(email := if google.email == "" then row.email else google.email,
         name := if google.name == "" then row.name else google.name,
         picture := if google.picture == "" then row.picture else Some(google.picture))
  }

  /** `UPDATE` of the profile fields: no rows if the id is not there. */
  function Refresh(users: Users, id: Id, google: Google): (r: Users)
    ensures TableOk(users) ==> TableOk(r)
  {
    if id in users then users[id := Refreshed(users[id], google)] else users
  }

  /** `UPDATE` of the username: no rows if the id is not there, refused if another row holds the name. */
  function SetUsername(users: Users, id: Id, username: string): (r: Option<Users>)
    ensures TableOk(users) && (username == "" || WellFormed(username)) && r.Some? ==> TableOk(r.value)
  {
    if id !in users then Some(users)
    else if username != "" && Taken(users, id, username) then None
    else Some(users[id := users[id].(username := Nullable(username))])
  }

  /** The update of a username is refused exactly when another row holds that name; clearing one never is. */
  lemma UsernameRefused(users: Users, id: Id, username: string)
    ensures SetUsername(users, id, username) == None
      <==> id in users && username != "" && exists i | i in users && i != id :: users[i].username == Some(username)
    ensures id in users && SetUsername(users, id, username).Some? ==>
      var r := SetUsername(users, id, username).value;
      && r.Keys == users.Keys
      && r[id] == users[id].(username := if username == "" then None else Some(username))
      && forall i | i in users && i != id :: r[i] == users[i]
  {
  }

  /** An insert is refused exactly when the id or the subject is there; otherwise it adds one row. */
  lemma InsertRefused(users: Users, id: Id, google: Google, now: nat)
    ensures Insert(users, id, google, now) == None
      <==> id in users || exists i | i in users :: users[i].sub == google.sub
    ensures Insert(users, id, google, now).Some? ==>
      Insert(users, id, google, now).value
        == users[id := Row(google.sub, google.email, google.name,
                           if google.picture == "" then None else Some(google.picture), None, false, now)]
  {
  }

  /** The operator's `UPDATE users SET is_admin = ...`, on whichever rows it names. */
  function SetAdmin(users: Users, chosen: set<Id>, admin: bool): (r: Users)
    ensures TableOk(users) ==> TableOk(r)
  {
    map i | i in users :: if i in chosen then users[i].(admin := admin) else users[i]
  }

  /** What no statement undoes: rows stay, each with its subject. */
  predicate Grows(before: Users, after: Users) {
    forall i | i in before :: i in after && after[i].sub == before[i].sub
  }

  predicate SameAdmins(before: Users, after: Users) {
    forall i | i in before && i in after :: after[i].admin == before[i].admin
  }
}
