/**
 A call that runs with no other call in between and no fault does to the table, statement by statement,
 what the specification of the store says.
 */
module Alone {
  import opened Wire
  import opened Usernames
  import opened Accounts
  import opened Tokens
  import opened Sessions
  import opened Database

  /** No faults; the `i`-th try for a username uses the `i`-th candidate. */
  function Smoothly(call: Call, newId: Id, candidates: seq<string>): Choice
    requires |candidates| == TRIES
  {
    Choice(NoFault, newId, if call.Naming? && 0 < call.left <= TRIES then candidates[TRIES - call.left] else "")
  }

  predicate AllWellFormed(candidates: seq<string>) {
    forall i | 0 <= i < |candidates| :: WellFormed(candidates[i]) && candidates[i] != ""
  }

  /** One step of a call that is in progress. */
  ghost function Next(s: State, c: nat, newId: Id, candidates: seq<string>): State
    requires |candidates| == TRIES && c in s.calls
  {
    Step(s, Proceed(c, Smoothly(s.calls[c], newId, candidates)))
  }

  /** `n` steps of one call. */
  ghost function After(s: State, c: nat, newId: Id, candidates: seq<string>, n: nat): State
    requires |candidates| == TRIES
    decreases n
  {
    if n == 0 || c !in s.calls then s
    else After(Next(s, c, newId, candidates), c, newId, candidates, n - 1)
  }

  /** One step of a call that is in progress. */
  lemma AfterOne(s: State, c: nat, newId: Id, candidates: seq<string>, n: nat, s': State)
    requires |candidates| == TRIES && c in s.calls
    requires s' == Next(s, c, newId, candidates)
    ensures After(s, c, newId, candidates, n + 1) == After(s', c, newId, candidates, n)
    ensures var o := Statement(s, s.calls[c], Smoothly(s.calls[c], newId, candidates));
      s'.users == o.users && c in s'.calls && s'.calls[c] == o.next
  {
  }

  /** What one try does to the table and the call: it takes the name, or leaves everything for the next. */
  lemma TryAlone(s: State, c: nat, id: Id, newId: Id, candidates: seq<string>, s1: State)
    requires |candidates| == TRIES && AllWellFormed(candidates)
    requires c in s.calls && s.calls[c].Naming? && s.calls[c].id == id && id in s.users
    requires 0 < s.calls[c].left <= TRIES
    requires s1 == Next(s, c, newId, candidates)
    ensures var left, name := s.calls[c].left, candidates[TRIES - s.calls[c].left];
      && c in s1.calls
      && s1.users == (if Taken(s.users, id, name) then s.users else s.users[id := s.users[id].(username := Some(name))])
      && s1.calls[c] == if Taken(s.users, id, name) then NextTry(id, left - 1, s.calls[c].began)
                        else RereadingName(id, left - 1, s.calls[c].began)
  {
    hide Taken, WellFormed;
  }

  /** The last statement of a login: it reads the row back, after a try that took or after the last try. */
  lemma RereadAlone(s: State, c: nat, newId: Id, candidates: seq<string>, s1: State)
    requires |candidates| == TRIES && c in s.calls && (s.calls[c].RereadingName? || s.calls[c].GivingUp?) && s.calls[c].id in s.users
    requires s1 == Next(s, c, newId, candidates)
    ensures s1.users == s.users && c in s1.calls
    ensures s1.calls[c].Issuing? && s1.calls[c].id == s.calls[c].id && s1.calls[c].row == s.users[s.calls[c].id]
  {
  }

  lemma FirstFreeStep(users: Users, id: Id, candidates: seq<string>, k: nat)
    requires k < |candidates|
    ensures FirstFree(users, id, candidates[k..])
         == if !Taken(users, id, candidates[k]) then Some(candidates[k]) else FirstFree(users, id, candidates[k + 1..])
    ensures FirstFree(users, id, candidates[|candidates|..]) == None
  {
    hide Taken, WellFormed;
    assert candidates[k..][1..] == candidates[k + 1..];
    assert candidates[|candidates|..] == [];
  }

  /** The call has come to the point of issuing a token for this row, on this table. */
  predicate Reached(s: State, c: nat, users: Users, id: Id, row: Row) {
    && s.users == users
    && c in s.calls && s.calls[c].Issuing? && s.calls[c].id == id && s.calls[c].row == row
  }

  lemma ReachedNow(s: State, c: nat, newId: Id, candidates: seq<string>, users: Users, id: Id, row: Row)
    requires |candidates| == TRIES && c in s.calls && s.calls[c].Issuing? && s.calls[c].id == id && s.calls[c].row == row
    requires s.users == users
    ensures Reached(After(s, c, newId, candidates, 0), c, users, id, row)
  {
  }

  /** Two steps: a try that ends the tries, and the reading back. */
  lemma TwoSteps(s: State, c: nat, id: Id, newId: Id, candidates: seq<string>, row: Row)
    requires |candidates| == TRIES && AllWellFormed(candidates) && c in s.calls && s.calls[c].Naming? && s.calls[c].id == id
    requires 0 < s.calls[c].left <= TRIES && id in s.users
    requires var name := candidates[TRIES - s.calls[c].left];
      if Taken(s.users, id, name) then s.calls[c].left == 1 && row == s.users[id]
      else row == s.users[id].(username := Some(name))
    ensures Reached(After(s, c, newId, candidates, 2), c, s.users[id := row], id, row)
  {
    assert TRIES == 10;
    hide Taken, Next, After, Statement, AllWellFormed, TRIES, Reached;
    var s1 := Next(s, c, newId, candidates);
    TryAlone(s, c, id, newId, candidates, s1);
    var s2 := Next(s1, c, newId, candidates);
    RereadAlone(s1, c, newId, candidates, s2);
    assert s.users[id := s.users[id]] == s.users;
    AfterOne(s, c, newId, candidates, 1, s1);
    AfterOne(s1, c, newId, candidates, 0, s2);
    ReachedNow(s2, c, newId, candidates, s.users[id := row], id, row);
  }

  lemma AfterNext(s: State, c: nat, newId: Id, candidates: seq<string>, n: nat)
    requires |candidates| == TRIES && c in s.calls
    ensures After(s, c, newId, candidates, n + 1) == After(Next(s, c, newId, candidates), c, newId, candidates, n)
  {
  }

  lemma TryFails(s: State, c: nat, id: Id, newId: Id, candidates: seq<string>)
    requires |candidates| == TRIES && AllWellFormed(candidates) && c in s.calls && s.calls[c].Naming? && s.calls[c].id == id
    requires 1 < s.calls[c].left <= TRIES && id in s.users && Taken(s.users, id, candidates[TRIES - s.calls[c].left])
    ensures var s1 := Next(s, c, newId, candidates);
      s1.users == s.users && c in s1.calls && s1.calls[c] == Naming(id, s.calls[c].left - 1, s.calls[c].began)
  {
    TryAlone(s, c, id, newId, candidates, Next(s, c, newId, candidates));
    hide Taken, Next, Statement, AllWellFormed;
  }

  /** The row with the first free candidate from the `k`-th on for a username. */
  function Named(users: Users, id: Id, candidates: seq<string>, k: nat): Row
    requires id in users && k <= |candidates|
  {
    users[id].(username := FirstFree(users, id, candidates[k..]))
  }

  lemma NamedStep(users: Users, id: Id, candidates: seq<string>, k: nat)
    requires k < |candidates| && id in users && users[id].username == None
    ensures Named(users, id, candidates, k)
         == if !Taken(users, id, candidates[k]) then users[id].(username := Some(candidates[k]))
            else if k + 1 < |candidates| then Named(users, id, candidates, k + 1) else users[id]
  {
    hide Taken, FirstFree;
    FirstFreeStep(users, id, candidates, k);
  }

  /** Tries for a username end with the first free candidate, or with none. */
  lemma {:induction false} NamesAlone(s: State, c: nat, id: Id, k: nat, newId: Id,
      candidates: seq<string>) returns (n: nat)
    requires |candidates| == TRIES && AllWellFormed(candidates)
    requires c in s.calls && s.calls[c].Naming? && s.calls[c].id == id && s.calls[c].left == TRIES - k
    requires k < TRIES && id in s.users && s.users[id].username == None
    ensures var row := Named(s.users, id, candidates, k);
      Reached(After(s, c, newId, candidates, n), c, s.users[id := row], id, row)
    decreases TRIES - k
  {
    hide *;
    NamedStep(s.users, id, candidates, k);
    if Taken(s.users, id, candidates[k]) && k + 1 < |candidates| {
      TryFails(s, c, id, newId, candidates);
      var m := NamesAlone(Next(s, c, newId, candidates), c, id, k + 1, newId, candidates);
      AfterNext(s, c, newId, candidates, m);
      return m + 1;
    } else {
      TwoSteps(s, c, id, newId, candidates, Named(s.users, id, candidates, k));
      return 2;
    }
  }

  lemma MadeAlone(s: State, c: nat, google: Google, newId: Id, candidates: seq<string>, s1: State, s2: State)
    requires TableOk(s.users) && newId !in s.users && |candidates| == TRIES
    requires c in s.calls && s.calls[c].Selecting? && s.calls[c].google == google
    requires s1 == Next(s, c, newId, candidates) && c in s1.calls
    requires s2 == Next(s1, c, newId, candidates)
    ensures var (made, id) := MadeOrRefreshed(s.users, google, newId, s.clock);
      && s2.users == made && id in made
      && c in s2.calls
      && if made[id].username.Some? then s2.calls[c].Issuing? && s2.calls[c].id == id && s2.calls[c].row == made[id]
         else s2.calls[c].Naming? && s2.calls[c].id == id && s2.calls[c].left == TRIES
  {
  }

  /** A login alone, up to the point where it issues the token, is `UpsertSpec`. */
  lemma LoginAlone(s: State, c: nat, google: Google, newId: Id, candidates: seq<string>) returns (n: nat)
    requires TableOk(s.users) && newId !in s.users && |candidates| == TRIES && AllWellFormed(candidates)
    requires c in s.calls && s.calls[c].Selecting? && s.calls[c].google == google
    ensures var spec := UpsertSpec(s.users, google, newId, s.clock, candidates);
      Reached(After(s, c, newId, candidates, n), c, spec.users, spec.id, spec.row)
  {
    hide *;
    var s1 := Next(s, c, newId, candidates);
    SelectAlone(s, c, newId, candidates, s1);
    var s2 := Next(s1, c, newId, candidates);
    MadeAlone(s, c, google, newId, candidates, s1, s2);
    var (made, id) := MadeOrRefreshed(s.users, google, newId, s.clock);
    SpecIsNamed(s.users, google, newId, s.clock, candidates, made, id);
    if made[id].username.Some? {
      ReachedNow(s2, c, newId, candidates, made, id, made[id]);
      AfterOne(s, c, newId, candidates, 1, s1);
      AfterOne(s1, c, newId, candidates, 0, s2);
      return 2;
    } else {
      NoneTried(s2, c);
      var m := NamesAlone(s2, c, id, 0, newId, candidates);
      AfterOne(s, c, newId, candidates, m + 1, s1);
      AfterOne(s1, c, newId, candidates, m, s2);
      return m + 2;
    }
  }

  /** The specification, by the row made or refreshed. */
  lemma SpecIsNamed(users: Users, google: Google, newId: Id, now: nat, candidates: seq<string>, made: Users, id: Id)
    requires (made, id) == MadeOrRefreshed(users, google, newId, now)
    ensures id in made
    ensures var spec := UpsertSpec(users, google, newId, now, candidates);
      && spec.id == id
      && spec.row == (if made[id].username.Some? then made[id] else Named(made, id, candidates, 0))
      && spec.users == (if made[id].username.Some? then made else made[id := spec.row])
  {
    hide FirstFree;
    assert candidates[0..] == candidates;
    assert made[id].(username := made[id].username) == made[id];
    assert made[id := made[id]] == made;
  }

  lemma NoneTried(s: State, c: nat)
    requires c in s.calls && s.calls[c].Naming? && s.calls[c].left == TRIES
    ensures s.calls[c].left == TRIES - 0 && 0 < TRIES
  {
  }

  lemma SelectAlone(s: State, c: nat, newId: Id, candidates: seq<string>, s1: State)
    requires |candidates| == TRIES && c in s.calls
    requires s1 == Next(s, c, newId, candidates)
    ensures c in s1.calls
  {
  }

  /** A profile update alone: the new username and the stored row, or no change and the reason. */
  lemma ProfileAlone(s: State, c: nat, newId: Id, candidates: seq<string>)
    requires |candidates| == TRIES && c in s.calls && s.calls[c].Renaming?
    ensures var u, name, end := s.calls[c].token.claims.user, s.calls[c].username, After(s, c, newId, candidates, 2);
      && c in end.calls
      && if u !in s.users then end.users == s.users && end.calls[c] == Answered(Failed(Internal))
         else if name != "" && Taken(s.users, u, name) then end.users == s.users && end.calls[c] == Answered(Failed(AlreadyExists))
         else var row := s.users[u].(username := Nullable(name));
           end.users == s.users[u := row] && end.calls[c] == Answered(Profile(u, row))
  {
    var s1 := Next(s, c, newId, candidates);
    hide Taken;
    AfterOne(s, c, newId, candidates, 1, s1);
    AfterOne(s1, c, newId, candidates, 0, Next(s1, c, newId, candidates));
  }

  // ---------------------------------------------------------------- whole calls

  lemma {:induction false} AfterKeepsClock(s: State, c: nat, newId: Id, candidates: seq<string>, n: nat)
    requires |candidates| == TRIES
    ensures After(s, c, newId, candidates, n).clock == s.clock
    decreases n
  {
    hide Statement, IssuesNow, Smoothly;
    if n > 0 && c in s.calls {
      AfterKeepsClock(Next(s, c, newId, candidates), c, newId, candidates, n - 1);
    }
  }

  lemma {:induction false} AfterSum(s: State, c: nat, newId: Id, candidates: seq<string>, m: nat, n: nat)
    requires |candidates| == TRIES && c in s.calls
    ensures After(s, c, newId, candidates, m + n) == After(After(s, c, newId, candidates, m), c, newId, candidates, n)
    ensures c in After(s, c, newId, candidates, m).calls
    decreases m
  {
    if m > 0 {
      StaysInCalls(s, c, newId, candidates);
      AfterSum(Next(s, c, newId, candidates), c, newId, candidates, m - 1, n);
      hide Next;
    }
  }

  lemma StaysInCalls(s: State, c: nat, newId: Id, candidates: seq<string>)
    requires |candidates| == TRIES && c in s.calls
    ensures c in Next(s, c, newId, candidates).calls
  {
  }

  lemma IssuesAtOnce(s: State, c: nat, newId: Id, candidates: seq<string>)
    requires |candidates| == TRIES && c in s.calls && s.calls[c].Issuing?
    ensures var call, end := s.calls[c], Next(s, c, newId, candidates);
      var token := IssueJWT(call.id, call.row.admin, s.clock);
      && end.users == s.users && c in end.calls && end.calls[c] == Answered(Session(token, call.row))
      && token in Issued(end)
  {
    var call, end := s.calls[c], Next(s, c, newId, candidates);
    assert TheIssue(s, call) in end.issues;
  }

  /** A login alone, from the request to the reply: the session of the row the specification makes or
      refreshes, with a token issued at that time. */
  lemma WholeLoginAlone(s: State, c: nat, google: Google, newId: Id, candidates: seq<string>) returns (n: nat)
    requires TableOk(s.users) && newId !in s.users && |candidates| == TRIES && AllWellFormed(candidates)
    requires c !in s.calls && google.sub != ""
    ensures var end := After(Step(s, Login(c, google)), c, newId, candidates, n);
      var spec := UpsertSpec(s.users, google, newId, s.clock, candidates);
      var token := IssueJWT(spec.id, spec.row.admin, s.clock);
      && end.users == spec.users
      && c in end.calls && end.calls[c] == Answered(Session(token, spec.row))
      && token in Issued(end)
  {
    var s0 := Step(s, Login(c, google));
    assert s0.users == s.users && s0.clock == s.clock && c in s0.calls && s0.calls[c] == Selecting(google, s.step);
    var m := LoginAlone(s0, c, google, newId, candidates);
    AfterKeepsClock(s0, c, newId, candidates, m);
    AfterSum(s0, c, newId, candidates, m, 1);
    var reached := After(s0, c, newId, candidates, m);
    hide Step, After, UpsertSpec, Issued;
    IssuesAtOnce(reached, c, newId, candidates);
    OneNext(reached, c, newId, candidates);
    return m + 1;
  }

  lemma OneNext(s: State, c: nat, newId: Id, candidates: seq<string>)
    requires |candidates| == TRIES && c in s.calls
    ensures After(s, c, newId, candidates, 1) == Next(s, c, newId, candidates)
  {
    assert After(Next(s, c, newId, candidates), c, newId, candidates, 0) == Next(s, c, newId, candidates);
  }

  /** A request the interceptor turns down is answered with its code and touches nothing. */
  lemma TurnedDown(s: State, c: nat, rpc: Rpc, header: Header, username: string)
    requires c !in s.calls && Intercept(rpc, header, Issued(s), s.clock).Err?
    ensures var end := Step(s, Request(c, rpc, header, username));
      && end.users == s.users && end.issues == s.issues
      && c in end.calls && end.calls[c] == Answered(Failed(Intercept(rpc, header, Issued(s), s.clock).code))
  {
  }

  /** `UpdateProfile` alone, from the request to the reply. */
  lemma WholeUpdateAlone(s: State, c: nat, header: Header, username: string, newId: Id, candidates: seq<string>)
    requires |candidates| == TRIES && c !in s.calls && Intercept(UpdateProfile, header, Issued(s), s.clock).Ok?
    ensures header.Bearer? && header.credential.Genuine?
    ensures var u, end := header.credential.token.claims.user,
          After(Step(s, Request(c, UpdateProfile, header, username)), c, newId, candidates, 2);
      && c in end.calls
      && if username != "" && !WellFormed(username) then
           end.users == s.users && end.calls[c] == Answered(Failed(InvalidArgument))
         else if u !in s.users then end.users == s.users && end.calls[c] == Answered(Failed(Internal))
         else if username != "" && Taken(s.users, u, username) then
           end.users == s.users && end.calls[c] == Answered(Failed(AlreadyExists))
         else
           var row := s.users[u].(username := Nullable(username));
           end.users == s.users[u := row] && end.calls[c] == Answered(Profile(u, row))
  {
    var s0 := Step(s, Request(c, UpdateProfile, header, username));
    assert s0.users == s.users && c in s0.calls;
    hide Taken, WellFormed, Intercept, Issued;
    if s0.calls[c].Renaming? {
      hide Step, After;
      ProfileAlone(s0, c, newId, candidates);
    } else {
      AnsweredStays(s0, c, newId, candidates, 2);
    }
  }

  lemma {:induction false} AnsweredStays(s: State, c: nat, newId: Id, candidates: seq<string>, n: nat)
    requires |candidates| == TRIES && c in s.calls && s.calls[c].Answered?
    ensures var end := After(s, c, newId, candidates, n);
      end.users == s.users && c in end.calls && end.calls[c] == s.calls[c]
    decreases n
  {
    if n > 0 {
      AnsweredStays(Next(s, c, newId, candidates), c, newId, candidates, n - 1);
    }
  }

  /** `GetCurrentUser` and `ListUsers` alone: the caller's row, or the whole table; neither changes it. */
  lemma WholeViewsAlone(s: State, c: nat, header: Header, newId: Id, candidates: seq<string>)
    requires |candidates| == TRIES && c !in s.calls
    ensures Intercept(GetCurrentUser, header, Issued(s), s.clock).Ok? ==>
      && header.Bearer? && header.credential.Genuine?
      && var u, end := header.credential.token.claims.user,
           After(Step(s, Request(c, GetCurrentUser, header, "")), c, newId, candidates, 1);
         && end.users == s.users && c in end.calls
         && end.calls[c] == Answered(if u in s.users then Profile(u, s.users[u]) else Failed(NotFound))
    ensures Intercept(ListUsers, header, Issued(s), s.clock).Ok? ==>
      var end := After(Step(s, Request(c, ListUsers, header, "")), c, newId, candidates, 1);
      && end.users == s.users && c in end.calls && end.calls[c] == Answered(Everyone(s.users))
  {
    var viewing, listing := Step(s, Request(c, GetCurrentUser, header, "")), Step(s, Request(c, ListUsers, header, ""));
    assert c in viewing.calls && c in listing.calls;
    hide After, Issued, Intercept;
    if viewing.calls[c].Viewing? {
      OneNext(viewing, c, newId, candidates);
    }
    if listing.calls[c].Listing? {
      OneNext(listing, c, newId, candidates);
    }
  }

  // ---------------------------------------------------------------- faults

  /** A statement the store refuses leaves the table; one whose answer is lost leaves it as it would have
      been with the answer. After either, a call that is answered has failed. */
  lemma FaultsInOneStatement(s: State, call: Call, c: Choice)
    ensures Statement(s, call, c.(fault := Refused)).users == s.users
    ensures Statement(s, call, c.(fault := AnswerLost)).users == Statement(s, call, c.(fault := NoFault)).users
    ensures !call.Answered? && !c.fault.NoFault? && Statement(s, call, c).next.Answered? ==>
      Statement(s, call, c).next.reply.Failed?
  {
  }
}
