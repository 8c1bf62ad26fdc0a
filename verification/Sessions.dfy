/**
 The running server: any number of calls at once, each a program whose steps are single SQL statements,
 with a clock, an operator who sets admin flags, and a store that may refuse a statement or lose its
 answer.
 */
module Sessions {
  import opened Usernames
  import opened Accounts
  import opened Tokens

  const TRIES: nat := 10

  /** What a call is about to do. A login carries the step it began at, `began`, and with a row the step it
      was read at; any other call its token and the step its handler started at. */
  datatype Call =
    | Selecting(google: Google, began: nat)                          // SELECT by subject
    | Inserting(google: Google, began: nat)                          // INSERT
    | Refreshing(google: Google, id: Id, seen: Row, readAt: nat, began: nat)  // UPDATE of the profile
    | Naming(id: Id, left: nat, began: nat)                          // UPDATE of the username, tries left
    | RereadingName(id: Id, left: nat, began: nat)                   // SELECT by id after it
    | GivingUp(id: Id, began: nat)                                   // SELECT by id after the last try
    | Issuing(id: Id, row: Row, readAt: nat, began: nat)             // IssueJWT
    | Renaming(token: Token, startedAt: nat, username: string)   // UpdateProfile: UPDATE
    | RereadingProfile(token: Token, startedAt: nat)     // UpdateProfile: SELECT by id
    | Viewing(token: Token, startedAt: nat)              // GetCurrentUser: SELECT by id
    | Listing(token: Token, startedAt: nat)              // ListUsers: SELECT
    | Answered(reply: Reply)

  datatype Reply =
    | Failed(code: Code)
    | Session(token: Token, user: Row)
    | Profile(id: Id, user: Row)
    | Everyone(users: Users)

  /** A token, the steps its login began at, read the row at, and issued it at. */
  datatype Issue = Issue(token: Token, began: nat, readAt: nat, issuedAt: nat)

  /** `step` counts the steps taken; it is there to refer to moments of the run. */
  datatype State = State(users: Users, calls: map<nat, Call>, issues: set<Issue>, clock: nat, step: nat)

  datatype Fault = NoFault | Refused | AnswerLost

  /** What the world decides in one step of a call: the fate of the statement, a fresh id, and the username
      the generator comes up with, of which only the pattern matters. */
  datatype Choice = Choice(fault: Fault, id: Id, candidate: string)

  datatype Action =
    | Tick(elapsed: nat)
    | Operate(chosen: set<Id>, admin: bool)
    | Login(call: nat, google: Google)
    | Request(call: nat, rpc: Rpc, header: Header, username: string)
    | Proceed(call: nat, choice: Choice)

  function Issued(s: State): set<Token> {
    set i | i in s.issues :: i.token
  }

  // ---------------------------------------------------------------- one step of a call

  /** The table after a statement, if the store ran it, and what the call does next. */
  datatype Outcome = Outcome(users: Users, next: Call)

  /** After the upsert itself: a row with a username is returned as it was seen. */
  function Upserted(id: Id, row: Row, readAt: nat, began: nat): Call {
    if row.username.None? then Naming(id, TRIES, began) else Issuing(id, row, readAt, began)
  }

  /** The next try for a username, or the last resort. */
  function NextTry(id: Id, left: nat, began: nat): Call {
    if left == 0 then GivingUp(id, began) else Naming(id, left, began)
  }

  /** One statement of a call. A refused statement has no effect; a lost answer leaves its effect behind. */
  ghost function Statement(s: State, call: Call, c: Choice): Outcome {
    match call
    case Selecting(google, began) =>
      var found := FindSub(s.users, google.sub);
      Outcome(s.users,
        if !c.fault.NoFault? then Answered(Failed(Internal))
        else if found.Some? then Refreshing(google, found.value, s.users[found.value], s.step, began)
        else Inserting(google, began))
    case Inserting(google, began) =>
      var r := Insert(s.users, c.id, google, s.clock);
      if c.fault.Refused? || r.None? then Outcome(s.users, Answered(Failed(Internal)))
      else Outcome(r.value,
        if c.fault.AnswerLost? then Answered(Failed(Internal))
        else Upserted(c.id, NewRow(google, s.clock), s.step + 1, began))
    case Refreshing(google, id, seen, readAt, began) =>
      if c.fault.Refused? then Outcome(s.users, Answered(Failed(Internal)))
      else Outcome(Refresh(s.users, id, google),
        if c.fault.AnswerLost? then Answered(Failed(Internal))
        else Upserted(id, Refreshed(seen, google), readAt, began))
    case Naming(id, left, began) =>
      if left == 0 then Outcome(s.users, GivingUp(id, began))
      else if !WellFormed(c.candidate) then Outcome(s.users, call)
      else
        var r := SetUsername(s.users, id, c.candidate);
        if c.fault.Refused? || r.None? then Outcome(s.users, NextTry(id, left - 1, began))
        else Outcome(r.value, if c.fault.AnswerLost? then NextTry(id, left - 1, began) else RereadingName(id, left - 1, began))
    case RereadingName(id, left, began) =>
      Outcome(s.users,
        if c.fault.NoFault? && id in s.users then Issuing(id, s.users[id], s.step, began) else NextTry(id, left, began))
    case GivingUp(id, began) =>
      Outcome(s.users,
        if c.fault.NoFault? && id in s.users then Issuing(id, s.users[id], s.step, began) else Answered(Failed(Internal)))
    case Issuing(id, row, _, _) =>
      Outcome(s.users,
        if !c.fault.NoFault? then Answered(Failed(Internal))
        else Answered(Session(IssueJWT(id, row.admin, s.clock), row)))
    case Renaming(token, startedAt, username) =>
      var r := SetUsername(s.users, token.claims.user, username);
      if c.fault.Refused? then Outcome(s.users, Answered(Failed(Internal)))
      else if r.None? then Outcome(s.users, Answered(Failed(if c.fault.NoFault? then AlreadyExists else Internal)))
      else Outcome(r.value,
        if c.fault.AnswerLost? then Answered(Failed(Internal)) else RereadingProfile(token, startedAt))
    case RereadingProfile(token, _) =>
      Outcome(s.users, Answered(
        if c.fault.NoFault? && token.claims.user in s.users then Profile(token.claims.user, s.users[token.claims.user])
        else Failed(Internal)))
    case Viewing(token, _) =>
      Outcome(s.users, Answered(
        if c.fault.NoFault? && token.claims.user in s.users then Profile(token.claims.user, s.users[token.claims.user])
        else Failed(NotFound)))
    case Listing(_, _) =>
      Outcome(s.users, Answered(if c.fault.NoFault? then Everyone(s.users) else Failed(Internal)))
    case Answered(_) => Outcome(s.users, call)
  }

  /** A non-public request: the interceptor, and then what the handler checks before its first statement. */
  function Started(s: State, rpc: Rpc, header: Header, username: string): Call {
    match Intercept(rpc, header, Issued(s), s.clock)
    case Err(code) => Answered(Failed(code))
    case Ok(_) =>
      if !header.Bearer? || !header.credential.Genuine? then Answered(Failed(Unauthenticated))
      else
        var token := header.credential.token;
        match rpc
        case UpdateProfile =>
          if username != "" && !WellFormed(username) then Answered(Failed(InvalidArgument))
          else Renaming(token, s.step, username)
        case GetCurrentUser => Viewing(token, s.step)
        case ListUsers => Listing(token, s.step)
        case _ => Answered(Failed(Unauthenticated))
  }

  ghost function Step(s: State, a: Action): State {
    var s' := s.(step := s.step + 1);
    match a
    case Tick(elapsed) => s'.(clock := s.clock + elapsed)
    case Operate(chosen, admin) => s'.(users := SetAdmin(s.users, chosen, admin))
    case Login(call, google) =>
      if call in s.calls || google.sub == "" then s' else s'.(calls := s.calls[call := Selecting(google, s.step)])
    case Request(call, rpc, header, username) =>
      if call in s.calls || rpc in PUBLIC_RPCS then s'
      else s'.(calls := s.calls[call := Started(s, rpc, header, username)])
    case Proceed(call, choice) =>
      if call !in s.calls then s'
      else
        var o := Statement(s, s.calls[call], choice);
        s'.(users := o.users,
            calls := s.calls[call := o.next],
            issues := s.issues + (if IssuesNow(s.calls[call], choice) then {TheIssue(s, s.calls[call])} else {}))
  }

  predicate IssuesNow(call: Call, choice: Choice) {
    call.Issuing? && choice.fault.NoFault?
  }

  function TheIssue(s: State, call: Call): Issue
    requires call.Issuing?
  {
    Issue(IssueJWT(call.id, call.row.admin, s.clock), call.began, call.readAt, s.step)
  }

  // ---------------------------------------------------------------- runs

  /** A server that starts on some table that meets its constraints. */
  predicate Init(s: State) {
    TableOk(s.users) && s.calls == map[] && s.issues == {} && s.step == 0
  }

  ghost predicate IsRun(ss: seq<State>, acts: seq<Action>) {
    && |ss| == |acts| + 1
    && Init(ss[0])
    && forall i | 0 <= i < |acts| :: ss[i + 1] == Step(ss[i], acts[i])
  }
}
