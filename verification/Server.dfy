/**
 The handlers of the auth service, one call at a time.
 */
module Server {
  import opened Wire
  import opened Usernames
  import opened Accounts
  import opened Tokens
  import opened Database

  /** A user as the API shows it: null becomes empty. */
  datatype Profile = Profile(id: Id, email: string, displayName: string, username: string, pictureUrl: string, isAdmin: bool)

  datatype Session = Session(jwt: Token, user: Profile)

  function UserToProto(id: Id, row: Row): Profile {
    Profile(id, row.email, row.name, row.username.GetOr(""), row.picture.GetOr(""), row.admin)
  }

  /** The names the service's comment allows: 3 to 30 letters, digits and underscores. */
  predicate Allowed(username: string) {
    3 <= |username| <= 30 && forall i | 0 <= i < |username| ::
      'a' <= username[i] <= 'z' || 'A' <= username[i] <= 'Z' || '0' <= username[i] <= '9' || username[i] == '_'
  }

  class AuthServer {
    const db: DB
    var issued: set<Token>  // every token signed with the secret so far

    constructor (db: DB)
      ensures this.db == db && issued == {}
    {
      this.db := db;
      issued := {};
    }

    /** `verified` is what Google's keys say of the ID token. */
    method LoginWithGoogle(idToken: string, verified: Option<Google>, newId: Id, now: nat, candidates: seq<string>)
      returns (r: Result<Session>)
      requires TableOk(db.users) && newId !in db.users
      requires |candidates| == 10 && forall c | c in candidates :: WellFormed(c)
      modifies this, db
      ensures TableOk(db.users)
      ensures idToken == "" ==> r == Err(InvalidArgument)
      ensures idToken != "" && verified.None? ==> r == Err(Unauthenticated)
      ensures idToken == "" || verified.None? ==> db.users == old(db.users) && issued == old(issued)
      ensures idToken != "" && verified.Some? ==>
        var u := UpsertSpec(old(db.users), verified.value, newId, now, candidates);
        && db.users == u.users
        && r == Ok(Session(IssueJWT(u.id, u.row.admin, now), UserToProto(u.id, u.row)))
        && issued == old(issued) + {r.value.jwt}
      ensures r.Ok? ==>
        var p, jwt, google := r.value.user, r.value.jwt, verified.value;
        && p.id in db.users && db.users[p.id].sub == google.sub
        && p.email == db.users[p.id].email
        && p.displayName == db.users[p.id].name
        && p.username == (if db.users[p.id].username.Some? then db.users[p.id].username.value else "")
        && p.pictureUrl == (if db.users[p.id].picture.Some? then db.users[p.id].picture.value else "")
        && p.isAdmin == db.users[p.id].admin
        && (google.email != "" ==> p.email == google.email)
        && (google.name != "" ==> p.displayName == google.name)
        && (google.picture != "" ==> p.pictureUrl == google.picture)
        && p.isAdmin == (p.id in old(db.users) && old(db.users)[p.id].admin)
        && jwt.claims.user == p.id && jwt.claims.admin == p.isAdmin
        && jwt.exp == (now + 86_400_000_000_000) / 1_000_000_000
    {
      if idToken == "" {
        return Err(InvalidArgument);
      }
      if verified.None? {
        return Err(Unauthenticated);
      }
      UpsertKeepsTheRest(db.users, verified.value, newId, now, candidates);
      var id, row := db.UpsertUser(verified.value, newId, now, candidates);
      var sessionJWT := IssueJWT(id, row.admin, now);
      issued := issued + {sessionJWT};
      return Ok(Session(sessionJWT, UserToProto(id, row)));
    }

    /** Changes at most the caller's username, and nothing at all unless it succeeds. It succeeds for the
        empty name and for 3 to 30 letters, digits and underscores that no other row holds. */
    method UpdateProfile(claims: Option<Claims>, username: string) returns (r: Result<Profile>)
      requires TableOk(db.users)
      modifies db
      ensures TableOk(db.users)
      ensures r ==
        if claims.None? then Err(Unauthenticated)
        else if username != "" && !WellFormed(username) then Err(InvalidArgument)
        else if claims.value.user !in old(db.users) then Err(Internal)
        else if username != "" && Taken(old(db.users), claims.value.user, username) then Err(AlreadyExists)
        else Ok(UserToProto(claims.value.user, old(db.users)[claims.value.user].(username := Nullable(username))))
      ensures !r.Ok? ==> db.users == old(db.users)
      ensures r.Ok? ==>
        var u := claims.value.user;
        db.users == old(db.users)[u := old(db.users)[u].(username := Nullable(username))]
      ensures r.Ok? <==>
        && claims.Some? && claims.value.user in old(db.users)
        && (username != "" ==> Allowed(username))
        && (username != "" ==>
              forall i | i in old(db.users) && i != claims.value.user :: old(db.users)[i].username != Some(username))
      ensures r == Err(InvalidArgument) <==> claims.Some? && username != "" && !Allowed(username)
      ensures r == Err(AlreadyExists) <==>
        && claims.Some? && claims.value.user in old(db.users) && Allowed(username)
        && exists i | i in old(db.users) && i != claims.value.user :: old(db.users)[i].username == Some(username)
      ensures r.Ok? ==>
        var p, row := r.value, old(db.users)[claims.value.user];
        && p.id == claims.value.user
        && p.email == row.email
        && p.displayName == row.name
        && p.username == username
        && p.pictureUrl == (if row.picture.Some? then row.picture.value else "")
        && p.isAdmin == row.admin
    {
      if claims.None? {
        return Err(Unauthenticated);
      }
      if username != "" && !WellFormed(username) {
        return Err(InvalidArgument);
      }
      var updated := db.UpdateUsername(claims.value.user, username);
      match updated
      case UsernameTaken => return Err(AlreadyExists);
      case Missing => return Err(Internal);
      case Updated(row) => return Ok(UserToProto(claims.value.user, row));
    }

    method GetCurrentUser(claims: Option<Claims>) returns (r: Result<Profile>)
      ensures r ==
        if claims.None? then Err(Unauthenticated)
        else if claims.value.user !in db.users then Err(NotFound)
        else Ok(UserToProto(claims.value.user, db.users[claims.value.user]))
      ensures r.Ok? ==>
        var p, row := r.value, db.users[claims.value.user];
        && p.id == claims.value.user
        && p.email == row.email
        && p.displayName == row.name
        && p.username == (if row.username.Some? then row.username.value else "")
        && p.pictureUrl == (if row.picture.Some? then row.picture.value else "")
        && p.isAdmin == row.admin
    {
      if claims.None? {
        return Err(Unauthenticated);
      }
      var row := db.GetUserByID(claims.value.user);
      if row.None? {
        return Err(NotFound);
      }
      return Ok(UserToProto(claims.value.user, row.value));
    }

    /** Every account once, oldest first. */
    method ListUsers() returns (users: seq<Profile>)
      ensures forall p :: p in users <==> exists i | i in db.users :: p == UserToProto(i, db.users[i])
      ensures forall x, y | 0 <= x < y < |users| ::
        && users[x].id in db.users && users[y].id in db.users
        && users[x].id != users[y].id
        && db.users[users[x].id].created <= db.users[users[y].id].created
      ensures forall p | p in users ::
        && p.id in db.users
        && p.email == db.users[p.id].email
        && p.displayName == db.users[p.id].name
        && p.username == (if db.users[p.id].username.Some? then db.users[p.id].username.value else "")
        && p.pictureUrl == (if db.users[p.id].picture.Some? then db.users[p.id].picture.value else "")
        && p.isAdmin == db.users[p.id].admin
      ensures forall i | i in db.users :: exists x | 0 <= x < |users| :: users[x].id == i
    {
      var ids := db.ListUsers();
      users := [];
      for n := 0 to |ids|
        invariant |users| == n
        invariant forall x | 0 <= x < n :: ids[x] in db.users && users[x] == UserToProto(ids[x], db.users[ids[x]])
      {
        assert ids[n] in ids;
        users := users + [UserToProto(ids[n], db.users[ids[n]])];
      }
      forall i | i in db.users
        ensures UserToProto(i, db.users[i]) in users && exists x | 0 <= x < |users| :: users[x].id == i
      {
        var x :| 0 <= x < |ids| && ids[x] == i;
        assert users[x] == UserToProto(i, db.users[i]);
      }
    }
  }

  /** A successful update is what the next look at the profile shows, with the same live token. */
  method UpdateThenView(server: AuthServer, header: Header, username: string, now: nat, later: nat)
    returns (updated: Result<Profile>, viewed: Result<Profile>)
    requires TableOk(server.db.users) && now <= later
    modifies server.db
    ensures TableOk(server.db.users)
    ensures updated.Ok? && Intercept(GetCurrentUser, header, server.issued, later).Ok? ==> viewed == updated
    ensures updated.Ok? ==> updated.value.username == username
  {
    var first := Intercept(UpdateProfile, header, server.issued, now);
    if first.Err? {
      return Err(first.code), Err(first.code);
    }
    updated := server.UpdateProfile(first.value, username);
    var second := Intercept(GetCurrentUser, header, server.issued, later);
    if second.Err? {
      return updated, Err(second.code);
    }
    viewed := server.GetCurrentUser(second.value);
  }

  /** The profile of a login that nothing has followed is what its token shows, for a day but a second. */
  method LoginThenView(server: AuthServer, idToken: string, verified: Option<Google>, newId: Id, now: nat,
      candidates: seq<string>, later: nat)
    returns (login: Result<Session>, viewed: Result<Profile>)
    requires TableOk(server.db.users) && newId !in server.db.users
    requires |candidates| == 10 && forall c | c in candidates :: WellFormed(c)
    modifies server, server.db
    ensures login.Ok? <==> idToken != "" && verified.Some?
    ensures login.Ok? && later <= now + 86_400_000_000_000 - 1_000_000_000 ==> viewed == Ok(login.value.user)
    ensures login.Ok? && now + 86_400_000_000_000 <= later ==> viewed == Err(Unauthenticated)
  {
    login := server.LoginWithGoogle(idToken, verified, newId, now, candidates);
    if login.Err? {
      return login, Err(login.code);
    }
    var jwt := login.value.jwt;
    AcceptedUntil(jwt.claims.user, jwt.claims.admin, now, server.issued, later);
    var passed := Intercept(GetCurrentUser, Bearer(Genuine(jwt)), server.issued, later);
    if passed.Err? {
      return login, Err(passed.code);
    }
    viewed := server.GetCurrentUser(passed.value);
  }
}
