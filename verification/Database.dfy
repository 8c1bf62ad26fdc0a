/**
 The account store, one call at a time and without faults: what `UpsertUser` and `UpdateUsername` do to
 the table, against a specification that does not mention tries.
 */
module Database {
  import opened Wire
  import opened Usernames
  import opened Accounts

  // ---------------------------------------------------------------- the specification

  /** A row after an upsert, and the table it is in. */
  datatype Upsert = Upsert(users: Users, id: Id, row: Row)

  /** The first of the candidates that no other row holds. */
  function FirstFree(users: Users, id: Id, candidates: seq<string>): (r: Option<string>)
    ensures r.Some? ==> r.value in candidates && !Taken(users, id, r.value)
    ensures r.None? ==> forall c | c in candidates :: Taken(users, id, c)
    decreases |candidates|
  {
    if candidates == [] then None
    else if !Taken(users, id, candidates[0]) then Some(candidates[0])
    else FirstFree(users, id, candidates[1..])
  }

  /** The table after the row of a Google account was made or refreshed. */
  ghost function MadeOrRefreshed(users: Users, google: Google, newId: Id, now: nat): (Users, Id) {
    var found := FindSub(users, google.sub);
    if found.Some? then (Refresh(users, found.value, google), found.value)
    else (users[newId := NewRow(google, now)], newId)
  }

  ghost function UpsertSpec(users: Users, google: Google, newId: Id, now: nat, candidates: seq<string>): Upsert {
    var (made, id) := MadeOrRefreshed(users, google, newId, now);
    var row := made[id].(username := if made[id].username.Some? then made[id].username else FirstFree(made, id, candidates));
    Upsert(made[id := row], id, row)
  }

  /** `UpsertUser` returns the stored row of that subject, with the profile refreshed where Google says
      something and the admin flag untouched, and changes no other row. */
  lemma UpsertKeepsTheRest(users: Users, google: Google, newId: Id, now: nat, candidates: seq<string>)
    requires TableOk(users) && newId !in users
    requires forall c | c in candidates :: WellFormed(c)
    ensures var r := UpsertSpec(users, google, newId, now, candidates);
      && TableOk(r.users)
      && r.id in r.users && r.users[r.id] == r.row && r.row.sub == google.sub
      && r.users.Keys == users.Keys + {r.id}
      && (forall i | i in users && i != r.id :: r.users[i] == users[i])
      && (google.email != "" ==> r.row.email == google.email)
      && (google.name != "" ==> r.row.name == google.name)
      && (google.picture != "" ==> r.row.picture == Some(google.picture))
      && (r.id in users ==>
            var before := users[r.id];
            && before.sub == google.sub && r.row.admin == before.admin && r.row.created == before.created
            && (google.email == "" ==> r.row.email == before.email)
            && (google.name == "" ==> r.row.name == before.name)
            && (google.picture == "" ==> r.row.picture == before.picture))
      && (r.id !in users ==>
            && r.id == newId && !r.row.admin && r.row.created == now
            && r.row.email == google.email && r.row.name == google.name
            && (google.picture == "" ==> r.row.picture == None)
            && forall i | i in users :: users[i].sub != google.sub)
  {
    var (made, id) := MadeOrRefreshed(users, google, newId, now);
    var name := FirstFree(made, id, candidates);
    MadeProperties(users, google, newId, now);
    MadeFields(users, google, newId, now);
    hide MadeOrRefreshed, FirstFree, WellFormed, FindSub, NewRow, Refreshed;
    if made[id].username.None? && name.Some? {
      assert SetUsername(made, id, name.value) == Some(made[id := made[id].(username := name)]) by {
        assert name.value != "" by { NotEmpty(name.value); }
      }
    } else {
      assert made[id := made[id]] == made;
    }
  }

  lemma MadeFields(users: Users, google: Google, newId: Id, now: nat)
    requires TableOk(users) && newId !in users
    ensures var (made, id) := MadeOrRefreshed(users, google, newId, now);
      && id in made
      && (google.email != "" ==> made[id].email == google.email)
      && (google.name != "" ==> made[id].name == google.name)
      && (google.picture != "" ==> made[id].picture == Some(google.picture))
      && (id in users ==>
            && made[id].admin == users[id].admin && made[id].created == users[id].created
            && (google.email == "" ==> made[id].email == users[id].email)
            && (google.name == "" ==> made[id].name == users[id].name)
            && (google.picture == "" ==> made[id].picture == users[id].picture))
      && (id !in users ==>
            && id == newId && !made[id].admin && made[id].created == now
            && made[id].email == google.email && made[id].name == google.name
            && (google.picture == "" ==> made[id].picture == None))
  {
    MadeProperties(users, google, newId, now);
    hide TableOk, FindSub;
  }

  lemma NotEmpty(s: string)
    requires WellFormed(s)
    ensures s != ""
  {
  }

  /** `UpsertUser` keeps a username that is there; without one it gives the first candidate that no other
      row holds, or none if all are held. */
  lemma UpsertNames(users: Users, google: Google, newId: Id, now: nat, candidates: seq<string>)
    requires TableOk(users) && newId !in users
    ensures var r := UpsertSpec(users, google, newId, now, candidates);
      if r.id in users && users[r.id].username.Some? then r.row.username == users[r.id].username
      else if forall c | c in candidates :: Taken(users, r.id, c) then r.row.username == None
      else exists n | 0 <= n < |candidates| ::
        && r.row.username == Some(candidates[n])
        && !Taken(users, r.id, candidates[n])
        && forall m | 0 <= m < n :: Taken(users, r.id, candidates[m])
  {
    var (made, id) := MadeOrRefreshed(users, google, newId, now);
    MadeProperties(users, google, newId, now);
    SameTaken(users, made, id, candidates);
    FirstFreeIsFirst(made, id, candidates);
    hide MadeOrRefreshed, Taken, TableOk, FindSub;
    var name := FirstFree(made, id, candidates);
    if name.Some? {
      var n :| 0 <= n < |candidates| && candidates[n] == name.value && forall m | 0 <= m < n :: Taken(made, id, candidates[m]);
      assert forall m | 0 <= m < n :: candidates[m] in candidates;
      assert forall m | 0 <= m < n :: Taken(users, id, candidates[m]);
    }
  }

  lemma MadeProperties(users: Users, google: Google, newId: Id, now: nat)
    requires TableOk(users) && newId !in users
    ensures var (made, id) := MadeOrRefreshed(users, google, newId, now);
      && TableOk(made)
      && id in made && made[id].sub == google.sub
      && made.Keys == users.Keys + {id}
      && (forall i | i in users && i != id :: made[i] == users[i])
      && (id in users ==> users[id].sub == google.sub && made[id] == Refreshed(users[id], google))
      && (id !in users ==> made[id] == NewRow(google, now) && forall i | i in users :: users[i].sub != google.sub)
  {
  }

  lemma SameTaken(users: Users, made: Users, id: Id, candidates: seq<string>)
    requires made.Keys == users.Keys + {id} && forall i | i in users && i != id :: made[i] == users[i]
    ensures forall c | c in candidates :: Taken(made, id, c) <==> Taken(users, id, c)
  {
  }

  lemma {:induction false} FirstFreeIsFirst(users: Users, id: Id, candidates: seq<string>)
    ensures var r := FirstFree(users, id, candidates);
      r.Some? ==> exists n | 0 <= n < |candidates| :: candidates[n] == r.value && forall m | 0 <= m < n :: Taken(users, id, candidates[m])
    decreases |candidates|
  {
    if candidates != [] && Taken(users, id, candidates[0]) {
      var r := FirstFree(users, id, candidates[1..]);
      FirstFreeIsFirst(users, id, candidates[1..]);
      if r.Some? {
        var n :| 0 <= n < |candidates| - 1 && candidates[1..][n] == r.value
          && forall m | 0 <= m < n :: Taken(users, id, candidates[1..][m]);
        assert candidates[n + 1] == r.value;
        forall m | 0 <= m < n + 1 ensures Taken(users, id, candidates[m]) {
          if m > 0 {
            assert candidates[m] == candidates[1..][m - 1];
          }
        }
      }
    }
  }

  // ---------------------------------------------------------------- the store

  datatype Updated = Updated(row: Row) | UsernameTaken | Missing

  class DB {
    var users: Users

    constructor ()
      ensures users == map[] && TableOk(users)
    {
      users := map[];
    }

    method GetUserByID(id: Id) returns (r: Option<Row>)
      ensures r == if id in users then Some(users[id]) else None
    {
      r := if id in users then Some(users[id]) else None;
    }

    /** Sets the username, or clears it if it is empty. */
    method UpdateUsername(id: Id, username: string) returns (r: Updated)
      requires TableOk(users) && (username == "" || WellFormed(username))
      modifies this
      ensures TableOk(users)
      ensures r == if id !in old(users) then Missing
                   else if username != "" && Taken(old(users), id, username) then UsernameTaken
                   else Updated(old(users)[id].(username := Nullable(username)))
      ensures users == if r.Updated? then old(users)[id := r.row] else old(users)
    {
      var result := SetUsername(users, id, username);
      if result.None? {
        return UsernameTaken;
      }
      users := result.value;
      var row := GetUserByID(id);
      r := if row.None? then Missing else Updated(row.value);
    }

    /** Finds the row of a Google account and refreshes its profile, or makes it. */
    method FirstOrCreate(google: Google, newId: Id, now: nat) returns (id: Id, row: Row)
      requires TableOk(users) && newId !in users
      modifies this
      ensures TableOk(users) && id in users && users[id] == row
      ensures (users, id) == MadeOrRefreshed(old(users), google, newId, now)
    {
      if i :| i in users && users[i].sub == google.sub {
        assert FindSub(users, google.sub) == Some(i);
        row := Refreshed(users[i], google);
        users := Refresh(users, i, google);
        id := i;
      } else {
        row := NewRow(google, now);
        users := users[newId := row];
        id := newId;
      }
    }

    /** Ten tries at most for a new account's username. */
    method UpsertUser(google: Google, newId: Id, now: nat, candidates: seq<string>) returns (id: Id, row: Row)
      requires TableOk(users) && newId !in users
      requires |candidates| == 10 && forall c | c in candidates :: WellFormed(c)
      modifies this
      ensures TableOk(users)
      ensures Upsert(users, id, row) == UpsertSpec(old(users), google, newId, now, candidates)
    {
      id, row := FirstOrCreate(google, newId, now);
      if row.username.None? {
        ghost var made := users;
        for i := 0 to 10
          invariant users == made && TableOk(users) && id in users && users[id] == row
          invariant FirstFree(made, id, candidates) == FirstFree(made, id, candidates[i..])
        {
          var updated := UpdateUsername(id, candidates[i]);
          if updated.Updated? {
            assert users == made[id := updated.row];
            return id, updated.row;
          }
          assert candidates[i..][1..] == candidates[i + 1..];
        }
        assert candidates[10..] == [];
        var stored := GetUserByID(id);
        assert users == made[id := row];
        return id, stored.value;
      }
      assert users[id := row] == users;
    }

    /** All accounts, oldest first. */
    method ListUsers() returns (ids: seq<Id>)
      ensures forall i :: i in ids <==> i in users
      ensures forall x, y | 0 <= x < y < |ids| ::
          ids[x] in users && ids[y] in users && ids[x] != ids[y] && users[ids[x]].created <= users[ids[y]].created
    {
      ids := [];
      var rest := users.Keys;
      while rest != {}
        invariant rest <= users.Keys
        invariant forall i :: i in ids <==> i in users.Keys - rest
        invariant Ordered(users, ids)
        invariant forall i, j | i in ids && j in rest :: users[i].created <= users[j].created
        decreases rest
      {
        EarliestExists(users, rest);
        var id :| id in rest && forall j | j in rest :: users[id].created <= users[j].created;
        OrderedAppend(users, ids, id);
        ids, rest := ids + [id], rest - {id};
      }
    }
  }

  /** No id twice, oldest first. */
  predicate Ordered(users: Users, ids: seq<Id>) {
    && (forall i | i in ids :: i in users)
    && forall x, y | 0 <= x < y < |ids| :: ids[x] != ids[y] && users[ids[x]].created <= users[ids[y]].created
  }

  lemma OrderedAppend(users: Users, ids: seq<Id>, id: Id)
    requires Ordered(users, ids) && id in users && id !in ids
    requires forall i | i in ids :: users[i].created <= users[id].created
    ensures Ordered(users, ids + [id])
  {
    assert forall x | 0 <= x < |ids| :: ids[x] in ids;
  }

  lemma {:induction false} EarliestExists(users: Users, ids: set<Id>)
    requires ids != {} && ids <= users.Keys
    ensures exists id | id in ids :: forall j | j in ids :: users[id].created <= users[j].created
    decreases |ids|
  {
    var i :| i in ids;
    if ids - {i} != {} {
      EarliestExists(users, ids - {i});
      var e :| e in ids - {i} && forall j | j in ids - {i} :: users[e].created <= users[j].created;
      var first := if users[i].created <= users[e].created then i else e;
      assert forall j | j in ids :: users[first].created <= users[j].created;
    } else {
      assert ids == {i};
    }
  }
}
